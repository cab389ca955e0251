/** The two list transforms the stores apply to a cached sequence of rows:
    `xs.map(x => p(x) ? f(x) : x)` and `xs.filter(x => !p(x))`. */
module Seqs {

  /** Replaces every element that satisfies `p` by its image under `f`. */
  function MapWhere<T>(s: seq<T>, p: T -> bool, f: T -> T): (r: seq<T>)
    ensures |r| == |s|
  {
    if s == [] then [] else [if p(s[0]) then f(s[0]) else s[0]] + MapWhere(s[1..], p, f)
  }

  /** Each position is rewritten in place, or kept, according to `p`. */
  lemma {:induction false} MapWhereAt<T>(s: seq<T>, p: T -> bool, f: T -> T, i: nat)
    requires i < |s|
    ensures MapWhere(s, p, f)[i] == if p(s[i]) then f(s[i]) else s[i]
  {
    if i > 0 {
      MapWhereAt(s[1..], p, f, i - 1);
    }
  }

  /** All positions at once. */
  lemma MapWherePointwise<T>(s: seq<T>, p: T -> bool, f: T -> T)
    ensures |MapWhere(s, p, f)| == |s|
    ensures forall i :: 0 <= i < |s| ==>
              MapWhere(s, p, f)[i] == if p(s[i]) then f(s[i]) else s[i]
  {
    forall i | 0 <= i < |s|
      ensures MapWhere(s, p, f)[i] == if p(s[i]) then f(s[i]) else s[i]
    {
      MapWhereAt(s, p, f, i);
    }
  }

  /** With no element satisfying `p`, nothing changes. */
  lemma {:induction false} MapWhereNoMatch<T>(s: seq<T>, p: T -> bool, f: T -> T)
    requires forall i :: 0 <= i < |s| ==> !p(s[i])
    ensures MapWhere(s, p, f) == s
  {
    if s != [] {
      MapWhereNoMatch(s[1..], p, f);
    }
  }

  /** Keeps the elements that do not satisfy `p`, in their order. */
  function RemoveWhere<T>(s: seq<T>, p: T -> bool): (r: seq<T>)
    ensures |r| <= |s|
    ensures forall x :: x in r ==> x in s && !p(x)
  {
    if s == [] then [] else (if p(s[0]) then [] else [s[0]]) + RemoveWhere(s[1..], p)
  }

  /** `r` is obtained from `s` by deleting some elements. */
  predicate IsSubsequence<T(==)>(r: seq<T>, s: seq<T>) {
    if s == [] then r == []
    else (r != [] && r[0] == s[0] && IsSubsequence(r[1..], s[1..])) || IsSubsequence(r, s[1..])
  }

  /** The kept elements keep their relative order. */
  lemma {:induction false} RemoveWhereIsSubsequence<T>(s: seq<T>, p: T -> bool)
    ensures IsSubsequence(RemoveWhere(s, p), s)
  {
    if s != [] {
      RemoveWhereIsSubsequence(s[1..], p);
      var rest := RemoveWhere(s[1..], p);
      if !p(s[0]) {
        assert RemoveWhere(s, p) == [s[0]] + rest;
        assert ([s[0]] + rest)[1..] == rest;
      } else {
        assert RemoveWhere(s, p) == [] + rest == rest;
      }
    }
  }

  /** Every element satisfying `p` disappears, and every other element occurs
      as often as before. */
  lemma {:induction false} RemoveWhereCount<T>(s: seq<T>, p: T -> bool)
    ensures forall x :: multiset(RemoveWhere(s, p))[x] == if p(x) then 0 else multiset(s)[x]
  {
    if s != [] {
      RemoveWhereCount(s[1..], p);
      assert s == [s[0]] + s[1..];
      assert multiset(s) == multiset([s[0]]) + multiset(s[1..]);
    }
  }

  /** With no element satisfying `p`, nothing is removed. */
  lemma {:induction false} RemoveWhereNoMatch<T>(s: seq<T>, p: T -> bool)
    requires forall i :: 0 <= i < |s| ==> !p(s[i])
    ensures RemoveWhere(s, p) == s
  {
    if s != [] {
      RemoveWhereNoMatch(s[1..], p);
      assert s == [s[0]] + s[1..];
    }
  }
}
