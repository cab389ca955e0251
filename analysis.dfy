/** The dream analysis adapter: the deterministic shell around one call to a
    generative model. The call and the parsing of its JSON reply are inputs. */
module Analysis {
  import opened Outcomes

  datatype DreamAnalysis = DreamAnalysis(symbols: seq<string>, interpretation: string, mood: string, themes: seq<string>)

  const DefaultInterpretation := "Your dream reflects personal experiences and emotions. Consider how it relates to your current life situation."

  /** The analysis returned whenever the model cannot be used. */
  function DefaultAnalysis(): (a: DreamAnalysis)
    ensures |a.symbols| == 3 && |a.themes| == 3
    ensures a.interpretation != "" && a.mood != ""
  {
    DreamAnalysis(["Dream", "Subconscious", "Memory"], DefaultInterpretation, "Reflective", ["Personal", "Experience", "Emotion"])
  }

  /** The fields of the parsed reply that the adapter reads; an absent field
      is `None`. */
  datatype ParsedAnalysis = ParsedAnalysis(
    symbols: Option<seq<string>>,
    interpretation: Option<string>,
    mood: Option<string>,
    themes: Option<seq<string>>)

  /** What the model call came to: it threw, its text did not parse as JSON,
      or it parsed. */
  datatype ModelReply = CallFailed | Unparsable | Parsed(record: ParsedAnalysis)

  function Min(a: int, b: int): int { if a <= b then a else b }

  /** `xs.slice(0, n)` */
  function Slice(xs: seq<string>, n: nat): seq<string> {
    xs[..Min(n, |xs|)]
  }

  /** `s || fallback` on a string that may be absent. */
  function OrElse(s: Option<string>, fallback: string): string {
    if s.Some? && s.value != "" then s.value else fallback
  }

  /** A list the reply supplied and that is not empty. */
  predicate Supplied(xs: Option<seq<string>>) {
    xs.Some? && xs.value != []
  }

  /** `analyzeDream(content)`. `configured` is whether a usable API key was
      found and the model was created. Never fails. */
  method AnalyzeDream(configured: bool, reply: ModelReply) returns (a: DreamAnalysis)
    ensures 1 <= |a.symbols| <= 3 && 1 <= |a.themes| <= 3
    ensures a.interpretation != "" && a.mood != ""
    ensures !configured || !reply.Parsed? ==> a == DefaultAnalysis()
    ensures configured && reply.Parsed? ==>
              var p := reply.record;
              && (Supplied(p.symbols) ==> a.symbols <= p.symbols.value && |a.symbols| == Min(3, |p.symbols.value|))
              && (!Supplied(p.symbols) ==> a.symbols == DefaultAnalysis().symbols)
              && (Supplied(p.themes) ==> a.themes <= p.themes.value && |a.themes| == Min(3, |p.themes.value|))
              && (!Supplied(p.themes) ==> a.themes == DefaultAnalysis().themes)
              && (p.interpretation.Some? && p.interpretation.value != "" ==> a.interpretation == p.interpretation.value)
              && (p.interpretation.None? || p.interpretation.value == "" ==> a.interpretation == DefaultAnalysis().interpretation)
              && (p.mood.Some? && p.mood.value != "" ==> a.mood == p.mood.value)
              && (p.mood.None? || p.mood.value == "" ==> a.mood == DefaultAnalysis().mood)
  {
    if !configured {
      return DefaultAnalysis();
    }
    match reply {
      case CallFailed =>
        return DefaultAnalysis();
      case Unparsable =>
        return DefaultAnalysis();
      case Parsed(p) =>
        a := DreamAnalysis(
          Slice(p.symbols.GetOr([]), 3),
          OrElse(p.interpretation, DefaultAnalysis().interpretation),
          OrElse(p.mood, DefaultAnalysis().mood),
          Slice(p.themes.GetOr([]), 3));
    }
    if |a.symbols| == 0 {
      a := a.(symbols := DefaultAnalysis().symbols);
    }
    if |a.themes| == 0 {
      a := a.(themes := DefaultAnalysis().themes);
    }
  }
}
