/** The demo authentication store: a session (`user`, `isAuthenticated`),
    `isLoading` and `error` flags, and a local roster of known users. */
module Auth {
  import opened Outcomes
  import opened Text

  /** A roster entry. `avatar` is a URL; `joined` is the join instant, kept
      as an ISO date string. */
  datatype User = User(id: string, name: string, email: string, avatar: string, bio: Option<string>, joined: string)

  /** A portrait on the photo host, at the size the roster uses. */
  function Portrait(id: string): string {
    "https://images.unsplash.com/photo-" + id + "?w=150"
  }

  const LunaBio := "Exploring the depths of consciousness through lucid dreaming"
  const AidenBio := "Dream researcher and consciousness explorer"
  const MayaBio := "Recording my dream journey one night at a time"

  /** The roster the store starts with. */
  function InitialDemoUsers(): (users: seq<User>)
    ensures |users| == 3 && RosterValid(users)
  {
    var users := [
      User("1", "Luna Dreamweaver", "luna@example.com", Portrait("1494790108377-be9c29b29330"),
           Some(LunaBio), "2024-01-15"),
      User("2", "Aiden Starlight", "aiden@example.com", Portrait("1507003211169-0a1dd7228f2d"),
           Some(AidenBio), "2024-02-01"),
      User("3", "Maya Nightshade", "maya@example.com", Portrait("1438761681033-6461ffad8d80"),
           Some(MayaBio), "2024-02-15")
    ];
    EmailsDiffer(users[0].email, users[1].email);
    EmailsDiffer(users[0].email, users[2].email);
    EmailsDiffer(users[1].email, users[2].email);
    assert DecimalValue(users[0].id) == 1 && DecimalValue(users[1].id) == 2 && DecimalValue(users[2].id) == 3;
    users
  }

  /** Emails whose first letters differ ignoring case are different emails. */
  lemma EmailsDiffer(a: string, b: string)
    requires a != [] && b != [] && ToLowerAscii(a[0]) != ToLowerAscii(b[0])
    ensures !SameEmail(a, b)
  {
    assert LowerCase(a)[0] != LowerCase(b)[0];
  }

  /** `a.toLowerCase() === b.toLowerCase()` */
  predicate SameEmail(a: string, b: string) {
    LowerCase(a) == LowerCase(b)
  }

  /** What the store keeps true of its roster: it is never empty, every id is
      a decimal numeral, and no two users share an id or an email (ignoring
      case). */
  predicate RosterValid(users: seq<User>) {
    && |users| > 0
    && (forall i :: 0 <= i < |users| ==> IsNumeral(users[i].id))
    && (forall i, j :: 0 <= i < j < |users| ==> !SameEmail(users[i].email, users[j].email))
    && (forall i, j :: 0 <= i < j < |users| ==> DecimalValue(users[i].id) != DecimalValue(users[j].id))
  }

  /** `users.some(u => u.email.toLowerCase() === email.toLowerCase())` */
  predicate EmailTaken(users: seq<User>, email: string) {
    exists i :: 0 <= i < |users| && SameEmail(users[i].email, email)
  }

  /** The index `users.find(...)` stops at: the first user whose email
      matches ignoring case. */
  function FindByEmail(users: seq<User>, email: string): (r: Option<nat>)
    ensures r.None? <==> !EmailTaken(users, email)
    ensures r.Some? ==> r.value < |users| && SameEmail(users[r.value].email, email)
    ensures r.Some? ==> forall j :: 0 <= j < r.value ==> !SameEmail(users[j].email, email)
  {
    if users == [] then None
    else if SameEmail(users[0].email, email) then Some(0)
    else match FindByEmail(users[1..], email)
      case None =>
        assert forall i :: 1 <= i < |users| ==> users[i] == users[1..][i - 1];
        None
      case Some(k) => Some(k + 1)
  }

  /** The demo password rule: unless the password is "demo", a user whose id
      is at most "3" in JavaScript's string order is refused. */
  predicate PasswordRefused(u: User, password: string) {
    password != "demo" && LexLe(u.id, "3")
  }

  /** The decision `login` takes: the user it signs in, or `None` when it
      throws. */
  function Authenticate(users: seq<User>, email: string, password: string): Option<User> {
    match FindByEmail(users, email)
    case None => None
    case Some(i) => if PasswordRefused(users[i], password) then None else Some(users[i])
  }

  /** Login signs in the roster user with that email, and fails exactly when
      there is none or the password rule refuses that user. */
  lemma AuthenticateSpec(users: seq<User>, email: string, password: string)
    requires RosterValid(users)
    ensures Authenticate(users, email, password).Some? ==>
              var u := Authenticate(users, email, password).value;
              u in users && SameEmail(u.email, email) && !PasswordRefused(u, password)
    ensures Authenticate(users, email, password).None? <==>
              || !EmailTaken(users, email)
              || exists i :: 0 <= i < |users| && SameEmail(users[i].email, email) && PasswordRefused(users[i], password)
  {
    match FindByEmail(users, email)
    case None =>
    case Some(k) =>
      forall i | 0 <= i < |users| && SameEmail(users[i].email, email) ensures i == k {
        assert SameEmail(users[k].email, users[i].email);
      }
  }

  /** The password "demo" opens every account in the roster. */
  lemma DemoPasswordOpensEveryAccount(users: seq<User>, email: string)
    requires EmailTaken(users, email)
    ensures Authenticate(users, email, "demo").Some?
  {
  }

  /** Emails that differ only in letter case sign in the same user. */
  lemma {:induction false} AuthenticateIgnoresCase(users: seq<User>, e1: string, e2: string, password: string)
    requires LowerCase(e1) == LowerCase(e2)
    ensures Authenticate(users, e1, password) == Authenticate(users, e2, password)
  {
    FindByEmailIgnoresCase(users, e1, e2);
  }

  lemma {:induction false} FindByEmailIgnoresCase(users: seq<User>, e1: string, e2: string)
    requires LowerCase(e1) == LowerCase(e2)
    ensures FindByEmail(users, e1) == FindByEmail(users, e2)
  {
    if users != [] {
      FindByEmailIgnoresCase(users[1..], e1, e2);
    }
  }

  /** The test's sign-in as Luna. */
  lemma LunaSignsIn()
    ensures Authenticate(InitialDemoUsers(), "luna@example.com", "demo") == Some(InitialDemoUsers()[0])
  {
    var users := InitialDemoUsers();
    assert SameEmail(users[0].email, "luna@example.com");
  }

  /** The test's sign-in with an unknown email and a wrong password. */
  lemma UnknownEmailRefused(password: string)
    ensures Authenticate(InitialDemoUsers(), "invalid@example.com", password) == None
  {
    var users := InitialDemoUsers();
    assert LowerCase("invalid@example.com")[0] == 'i';
    forall i | 0 <= i < |users| ensures !SameEmail(users[i].email, "invalid@example.com") {
      assert LowerCase(users[i].email)[0] != 'i';
    }
  }

  /** For an id written by `toString`, the demo password is required exactly
      when the id starts with 1 or 2, or is 3: users 1 to 3, but also 10 to 29,
      100 to 299 and so on, because the comparison is on strings. */
  lemma PasswordRuleOnNumbers(n: nat, u: User, password: string)
    requires u.id == NatToDecimal(n) && n >= 1 && password != "demo"
    ensures PasswordRefused(u, password) <==> u.id[0] == '1' || u.id[0] == '2' || u.id == "3"
  {
    LexLeThree(u.id);
    LeadingDigitNotZero(n);
  }

  lemma {:induction false} LeadingDigitNotZero(n: nat)
    requires n >= 1
    ensures NatToDecimal(n)[0] != '0'
  {
    if n >= 10 {
      LeadingDigitNotZero(n / 10);
    }
  }

  /** A registered user 10 is refused a password other than "demo", while a
      registered user 4 is let in with any password. */
  lemma RegisteredUsersTenAndFour(u10: User, u4: User)
    requires u10.id == "10" && u4.id == "4"
    ensures PasswordRefused(u10, "secret")
    ensures !PasswordRefused(u4, "secret")
  {
    LexLeThree(u10.id);
    LexLeThree(u4.id);
  }

  /** `Math.max(...users.map(u => parseInt(u.id)))` */
  function MaxId(users: seq<User>): (m: nat)
    requires |users| > 0 && forall i :: 0 <= i < |users| ==> IsNumeral(users[i].id)
    ensures forall i :: 0 <= i < |users| ==> DecimalValue(users[i].id) <= m
    ensures exists i :: 0 <= i < |users| && DecimalValue(users[i].id) == m
  {
    if |users| == 1 then DecimalValue(users[0].id)
    else
      var rest := MaxId(users[1..]);
      assert forall i :: 1 <= i < |users| ==> users[i] == users[1..][i - 1];
      if DecimalValue(users[0].id) >= rest then DecimalValue(users[0].id) else rest
  }

  /** The id `register` gives a new user: one more than the largest. */
  function NextId(users: seq<User>): (id: string)
    requires |users| > 0 && forall i :: 0 <= i < |users| ==> IsNumeral(users[i].id)
    ensures IsNumeral(id)
    ensures forall i :: 0 <= i < |users| ==> DecimalValue(users[i].id) < DecimalValue(id)
    ensures forall i :: 0 <= i < |users| ==> users[i].id != id
  {
    DecimalRoundTrip(MaxId(users) + 1);
    NatToDecimal(MaxId(users) + 1)
  }

  /** Prefix of the generated avatar URL; the encoded name follows it. */
  const AvatarService := "https://ui-avatars.com/api/?name="

  class AuthStore {
    var user: Option<User>
    var isAuthenticated: bool
    var isLoading: bool
    var error: Option<string>
    var users: seq<User>

    ghost predicate Valid()
      reads this
    {
      && (isAuthenticated <==> user.Some?)
      && RosterValid(users)
      && (user.Some? ==> user.value in users)
    }

    constructor ()
      ensures Valid()
      ensures user == None && !isAuthenticated && !isLoading && error == None
      ensures users == InitialDemoUsers()
    {
      user, isAuthenticated, isLoading, error := None, false, false, None;
      users := InitialDemoUsers();
    }

    /** `login(email, password)`, the delay left out. */
    method Login(email: string, password: string) returns (outcome: Completion)
      requires Valid()
      modifies this
      ensures Valid()
      ensures users == old(users) && !isLoading
      ensures outcome.Resolved? <==> Authenticate(old(users), email, password).Some?
      ensures outcome.Resolved? ==>
                user == Authenticate(old(users), email, password) && isAuthenticated && error == None
      ensures outcome.Rejected? ==>
                && outcome.reason == ErrorObject("Invalid email or password")
                && user == None && !isAuthenticated && error == Some("Invalid email or password")
    {
      isLoading, error := true, None;
      var found := FindByEmail(users, email);
      if found.None? || PasswordRefused(users[found.value], password) {
        user, isAuthenticated, isLoading := None, false, false;
        error := Some("Invalid email or password");
        return Rejected(ErrorObject("Invalid email or password"));
      }
      user, isAuthenticated, isLoading, error := Some(users[found.value]), true, false, None;
      outcome := Resolved;
    }

    /** `register(email, password, name)`. `encodedName` is
        `encodeURIComponent(name)` and `now` the current instant; the
        password is not stored, as in the store itself. */
    method Register(email: string, password: string, name: string, encodedName: string, now: string)
      returns (outcome: Completion)
      requires Valid()
      modifies this
      ensures Valid()
      ensures !isLoading
      ensures outcome.Rejected? <==> EmailTaken(old(users), email)
      ensures outcome.Rejected? ==>
                && outcome.reason == ErrorObject("Email already registered")
                && users == old(users) && user == old(user) && isAuthenticated == old(isAuthenticated)
                && error == Some("Email already registered")
      ensures outcome.Resolved? ==>
                && users == old(users) + [User(NextId(old(users)), name, email, AvatarService + encodedName, None, now)]
                && user == Some(users[|users| - 1]) && isAuthenticated && error == None
      ensures outcome.Resolved? ==>
                forall i :: 0 <= i < |old(users)| ==> DecimalValue(old(users)[i].id) < DecimalValue(users[|users| - 1].id)
    {
      isLoading, error := true, None;
      if EmailTaken(users, email) {
        isLoading, error := false, Some("Email already registered");
        return Rejected(ErrorObject("Email already registered"));
      }
      var newUser := User(NextId(users), name, email, AvatarService + encodedName, None, now);
      DecimalRoundTrip(MaxId(users) + 1);
      users := users + [newUser];
      user, isAuthenticated, isLoading, error := Some(newUser), true, false, None;
      outcome := Resolved;
    }

    /** `logout()`: the session ends, the roster stays; the final state does
        not depend on the session before, so a second call changes nothing. */
    method Logout()
      requires Valid()
      modifies this
      ensures Valid()
      ensures user == None && !isAuthenticated && error == None && !isLoading
      ensures users == old(users)
    {
      user, isAuthenticated, error, isLoading := None, false, None, false;
    }
  }
}
