/** The dream text formatter: sentence starts are capitalised and a full stop
    is added when the text does not already end a sentence.

    The global replacement with `(^|[.!?]\s+)([a-z])` is modelled two ways:
    declaratively, by `StartsSentence`, which says where the pattern puts a
    capital; and as a left-to-right scan with four states, `Capitalize`. The
    lemmas prove the two agree. */
module Formatting {
  import opened Text

  /** `[.!?]` */
  predicate IsSentenceEnd(c: char) { c == '.' || c == '!' || c == '?' }

  /** `p` ends with `[.!?]\s+`: one or more white-space characters right after
      a sentence end. */
  predicate EndsWithBreak(p: string)
    decreases |p|
  {
    |p| >= 2 && IsWhitespace(p[|p| - 1]) && (IsSentenceEnd(p[|p| - 2]) || EndsWithBreak(p[..|p| - 1]))
  }

  /** The pattern turns position `i` into a capital: it holds a lower-case
      ASCII letter at the very start of the text or right after a break. */
  predicate StartsSentence(s: string, i: nat)
    requires i < |s|
  {
    IsAsciiLower(s[i]) && (i == 0 || EndsWithBreak(s[..i]))
  }

  /** Where the scan stands: nothing read yet, just after a sentence end, inside
      the white space that follows one, or anywhere else. */
  datatype ScanState = AtStart | AfterEnd | AfterBreak | InText

  function Step(st: ScanState, c: char): ScanState {
    if IsSentenceEnd(c) then AfterEnd
    else if IsWhitespace(c) && (st == AfterEnd || st == AfterBreak) then AfterBreak
    else InText
  }

  /** The character the scan writes for `c` read in state `st`. */
  function Emit(st: ScanState, c: char): char {
    if (st == AtStart || st == AfterBreak) && IsAsciiLower(c) then ToUpperAscii(c) else c
  }

  /** The state after reading `p` from state `st`. */
  function Run(st: ScanState, p: string): ScanState
    decreases |p|
  {
    if p == [] then st else Run(Step(st, p[0]), p[1..])
  }

  /** The scan's output for `s` read from state `st`. */
  function Scan(s: string, st: ScanState): (r: string)
    ensures |r| == |s|
    decreases |s|
  {
    if s == [] then [] else [Emit(st, s[0])] + Scan(s[1..], Step(st, s[0]))
  }

  /** The replacement step of `formatDreamText`. */
  function Capitalize(s: string): (r: string)
    ensures |r| == |s|
  {
    Scan(s, AtStart)
  }

  /** `formatDreamText(text)` */
  function FormatDreamText(text: string): (r: string)
    ensures |r| == |text| || |r| == |text| + 1
    ensures r != [] && IsSentenceEnd(r[|r| - 1])
  {
    var c := Capitalize(text);
    if c != [] && IsSentenceEnd(c[|c| - 1]) then c else c + "."
  }

  /** What the state after a text says about the text. */
  function Classify(p: string): ScanState {
    if p == [] then AtStart
    else if IsSentenceEnd(p[|p| - 1]) then AfterEnd
    else if EndsWithBreak(p) then AfterBreak
    else InText
  }

  lemma {:induction false} RunSnoc(st: ScanState, p: string, c: char)
    ensures Run(st, p + [c]) == Step(Run(st, p), c)
    decreases |p|
  {
    if p == [] {
      assert p + [c] == [c];
    } else {
      assert (p + [c])[1..] == p[1..] + [c];
      RunSnoc(Step(st, p[0]), p[1..], c);
    }
  }

  /** The scan's state after a prefix is exactly what the prefix ends with. */
  lemma {:induction false} RunClassifies(p: string)
    ensures Run(AtStart, p) == Classify(p)
    decreases |p|
  {
    if p != [] {
      var q, c := p[..|p| - 1], p[|p| - 1];
      assert p == q + [c];
      RunClassifies(q);
      RunSnoc(AtStart, q, c);
      assert q != [] ==> q[|q| - 1] == p[|p| - 2];
      assert p[..|p| - 1] == q;
    }
  }

  /** Position `i` of the scan's output is what `Emit` writes in the state
      reached after the first `i` characters. */
  lemma {:induction false} ScanAt(s: string, st: ScanState, i: nat)
    requires i < |s|
    ensures Scan(s, st)[i] == Emit(Run(st, s[..i]), s[i])
    decreases |s|
  {
    if i > 0 {
      ScanAt(s[1..], Step(st, s[0]), i - 1);
      assert s[..i][1..] == s[1..][..i - 1];
    }
  }

  /** The scan capitalises exactly the positions the pattern matches, and
      leaves every other character as it is. */
  lemma CapitalizeAt(s: string, i: nat)
    requires i < |s|
    ensures Capitalize(s)[i] == if StartsSentence(s, i) then ToUpperAscii(s[i]) else s[i]
    ensures Capitalize(s)[i] != s[i] <==> StartsSentence(s, i)
  {
    ScanAt(s, AtStart, i);
    RunClassifies(s[..i]);
  }

  /** A sentence end, a white-space character or a capital is never changed. */
  lemma KeepsNonLower(s: string, i: nat)
    requires i < |s| && !IsAsciiLower(s[i])
    ensures Capitalize(s)[i] == s[i]
  {
    CapitalizeAt(s, i);
  }

  /** Reading the scan's own output gives the same output: the characters it
      writes lead to the same states as the ones it read. */
  lemma {:induction false} ScanIdempotent(s: string, st: ScanState)
    ensures Scan(Scan(s, st), st) == Scan(s, st)
    decreases |s|
  {
    if s != [] {
      var r := Scan(s, st);
      assert r[0] == Emit(st, s[0]) && r[1..] == Scan(s[1..], Step(st, s[0]));
      assert Step(st, r[0]) == Step(st, s[0]);
      ScanIdempotent(s[1..], Step(st, s[0]));
    }
  }

  lemma {:induction false} ScanAppend(s: string, st: ScanState, c: char)
    ensures Scan(s + [c], st) == Scan(s, st) + [Emit(Run(st, s), c)]
    decreases |s|
  {
    if s == [] {
      assert s + [c] == [c];
    } else {
      assert (s + [c])[1..] == s[1..] + [c];
      ScanAppend(s[1..], Step(st, s[0]), c);
    }
  }

  /** A full stop is added exactly when the text does not already end with
      `.`, `!` or `?`; otherwise the result is as long as the text. Each
      original position keeps its character unless the pattern capitalises
      it. The empty text becomes a lone full stop. */
  lemma FormatSpec(text: string)
    ensures var r := FormatDreamText(text);
            && (|r| == |text| + 1 <==> text == [] || !IsSentenceEnd(text[|text| - 1]))
            && (|r| == |text| + 1 ==> r[|text|] == '.')
            && forall i :: 0 <= i < |text| ==>
                 r[i] == if StartsSentence(text, i) then ToUpperAscii(text[i]) else text[i]
    ensures FormatDreamText("") == "."
  {
    if text != [] {
      CapitalizeAt(text, |text| - 1);
    }
    forall i | 0 <= i < |text|
      ensures FormatDreamText(text)[i] == if StartsSentence(text, i) then ToUpperAscii(text[i]) else text[i]
    {
      CapitalizeAt(text, i);
    }
  }

  /** Formatting an already formatted text changes nothing. */
  lemma FormatIdempotent(text: string)
    ensures FormatDreamText(FormatDreamText(text)) == FormatDreamText(text)
  {
    var c := Capitalize(text);
    ScanIdempotent(text, AtStart);
    if !(c != [] && IsSentenceEnd(c[|c| - 1])) {
      ScanAppend(c, AtStart, '.');
      assert Capitalize(c + ".") == c + ".";
    }
  }
}
