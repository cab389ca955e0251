/** The dream visualisation adapter: a model classifies the dream into one
    of five moods and a curated image of that mood is picked at random. The
    model call and `Math.random()` are inputs. */
module Imagery {
  import opened Outcomes
  import opened Text

  datatype Mood = Peaceful | Mystical | Surreal | Ethereal | Dark

  /** The key of the mood in the image table. */
  function MoodKey(m: Mood): string {
    match m
    case Peaceful => "peaceful"
    case Mystical => "mystical"
    case Surreal => "surreal"
    case Ethereal => "ethereal"
    case Dark => "dark"
  }

  /** The address of an image on the photo host, at the size the adapter
      asks for. */
  function Photo(id: string): string {
    "https://images.unsplash.com/photo-" + id + "?w=1200&q=80"
  }

  /** The curated images of each mood. */
  function DreamImages(m: Mood): (urls: seq<string>)
    ensures |urls| == 4
  {
    match m
    case Peaceful => [
      Photo("1507525428034-b723cf961d3e"),
      Photo("1497436072909-60f360e1d4b1"),
      Photo("1506477331477-33d5d8b3dc85"),
      Photo("1534447677768-be436bb09401")]
    case Mystical => [
      Photo("1518066000714-58c45f1a2c0a"),
      Photo("1502581827181-9cf3c3ee0106"),
      Photo("1505506874110-6a7a69069a08"),
      Photo("1519681393784-d120267933ba")]
    case Surreal => [
      Photo("1536152470836-b943b246224c"),
      Photo("1566808907623-57c6d5b1e640"),
      Photo("1509114397022-ed747cca3f65"),
      Photo("1512686096451-a15c19314d59")]
    case Ethereal => [
      Photo("1513151233558-d860c5398176"),
      Photo("1479267658415-f47a5f0c9861"),
      Photo("1502581827181-9cf3c3ee0106"),
      Photo("1507499739999-097706ad8914")]
    case Dark => [
      Photo("1478760329108-5c3ed9d495a0"),
      Photo("1499988921418-b7df40ff03f9"),
      Photo("1516339901601-2e1b62dc0c45"),
      Photo("1504123010103-b1f3fe484a32")]
  }

  /** No two moods share a key. */
  lemma MoodKeyInjective(m1: Mood, m2: Mood)
    ensures MoodKey(m1) == MoodKey(m2) ==> m1 == m2
  {
    if MoodKey(m1) == MoodKey(m2) {
      assert MoodKey(m1)[0] == MoodKey(m2)[0];
      assert MoodKey(m1)[1] == MoodKey(m2)[1];
    }
  }

  /** The mood a key names, if it names one: the lookup `DREAM_IMAGES[key]`
      restricted to the five keys. */
  function MoodNamed(key: string): (r: Option<Mood>)
    ensures r.Some? ==> MoodKey(r.value) == key
    ensures r.None? ==> forall m :: MoodKey(m) != key
  {
    if key == "peaceful" then Some(Peaceful)
    else if key == "mystical" then Some(Mystical)
    else if key == "surreal" then Some(Surreal)
    else if key == "ethereal" then Some(Ethereal)
    else if key == "dark" then Some(Dark)
    else None
  }

  /** `text.toLowerCase().trim()` */
  function Normalize(text: string): string {
    Trim(LowerCase(text))
  }

  /** What the model call came to: it threw, or it answered with a text. */
  datatype MoodReply = CallFailed | Answered(text: string)

  /** The mood accepted from a reply, if any. */
  function AcceptedMood(reply: MoodReply): Option<Mood> {
    if reply.Answered? then MoodNamed(Normalize(reply.text)) else None
  }

  /** `Math.floor(random * n)` for `random` in [0, 1). */
  function RandomIndex(random: real, n: nat): (i: nat)
    requires 0.0 <= random < 1.0 && n > 0
    ensures i < n
  {
    var x := random * n as real;
    assert 0.0 <= x < n as real;
    x.Floor
  }

  datatype ImageResult = ImageResult(url: string, mood: Mood, error: Option<string>)

  /** `generateDreamImage(content)`. `configured` is whether the model was
      created and the environment is complete; `random` is the value
      `Math.random()` returns. Never fails. */
  function GenerateDreamImage(configured: bool, reply: MoodReply, random: real): (r: ImageResult)
    requires 0.0 <= random < 1.0
    ensures r.url in DreamImages(r.mood)
    ensures !configured ==> r.mood == Mystical && r.error == Some("Using default visualization (demo mode)")
    ensures configured && AcceptedMood(reply).Some? ==> r.mood == AcceptedMood(reply).value && r.error == None
    ensures configured && AcceptedMood(reply).None? ==> r.mood == Mystical && r.error == Some("Using fallback visualization")
  {
    if !configured then
      ImageResult(DreamImages(Mystical)[RandomIndex(random, 4)], Mystical, Some("Using default visualization (demo mode)"))
    else match AcceptedMood(reply)
      case Some(m) => ImageResult(DreamImages(m)[RandomIndex(random, 4)], m, None)
      case None => ImageResult(DreamImages(Mystical)[RandomIndex(random, 4)], Mystical, Some("Using fallback visualization"))
  }

  /** A reply is accepted exactly when, lower-cased and trimmed, it is the key
      of one of the five moods; so the result carries a note exactly when a
      fallback was taken. */
  lemma AcceptedIffKey(reply: MoodReply, m: Mood)
    ensures AcceptedMood(reply) == Some(m) <==> reply.Answered? && Normalize(reply.text) == MoodKey(m)
  {
    if reply.Answered? && Normalize(reply.text) == MoodKey(m) {
      MoodKeyInjective(m, MoodNamed(MoodKey(m)).value);
    }
  }

  /** Each key, sent back as it is, is accepted. */
  lemma KeyAccepted(m: Mood)
    ensures AcceptedMood(Answered(MoodKey(m))) == Some(m)
  {
    var k := MoodKey(m);
    LowerCaseUnchanged(k);
    TrimUnchanged(k);
    AcceptedIffKey(Answered(k), m);
  }

  /** Every random value picks each of the four images of a mood for one
      quarter of [0, 1); in particular any index of the list can come out. */
  lemma EveryImageReachable(m: Mood, i: nat)
    requires i < 4
    ensures RandomIndex(i as real / 4.0, 4) == i
    ensures GenerateDreamImage(true, Answered(MoodKey(m)), i as real / 4.0).url == DreamImages(m)[i]
  {
    KeyAccepted(m);
  }
}
