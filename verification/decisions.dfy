/**
 * The routing decision shared by all three strategies. The source encodes it
 * as a `(expert_name, confidence, latency)` tuple whose name is "professor",
 * "zoomer" or the internal sentinel "nomatch"; here the sentinel is a variant
 * of its own, and `AsTuple` / `FromTuple` translate between the two forms.
 * Latency is not modelled.
 */
module Decisions {
  import opened Wrappers

  /** The two experts, in the order the semantic routes declare them. */
  datatype Expert = Professor | Zoomer

  /** A strategy's verdict: an expert with a confidence, or no match with a (near-miss) score. */
  datatype Decision = Matched(expert: Expert, confidence: real) | NoMatch(confidence: real)

  const NoMatchName: string := "nomatch"

  /** The identifier the source uses for an expert. */
  function Name(e: Expert): string {
    match e
    case Professor => "professor"
    case Zoomer => "zoomer"
  }

  /** The expert a name identifies, if any. */
  function ParseExpert(name: string): (r: Option<Expert>)
    ensures r.Some? ==> Name(r.value) == name
    ensures r.None? ==> forall e: Expert :: Name(e) != name
  {
    if name == "professor" then Some(Professor)
    else if name == "zoomer" then Some(Zoomer)
    else None
  }

  /** A decision in the source's tuple form (without latency). */
  function AsTuple(d: Decision): (string, real) {
    match d
    case Matched(e, c) => (Name(e), c)
    case NoMatch(c) => (NoMatchName, c)
  }

  /** The decision a tuple stands for; `None` for a name that is neither an expert nor the sentinel. */
  function FromTuple(t: (string, real)): Option<Decision> {
    if t.0 == NoMatchName then Some(NoMatch(t.1))
    else match ParseExpert(t.0)
      case Some(e) => Some(Matched(e, t.1))
      case None => None
  }

  /** No expert is called "nomatch", so the sentinel never names a real expert. */
  lemma SentinelIsNoExpert(e: Expert)
    ensures Name(e) != NoMatchName
    ensures ParseExpert(NoMatchName).None?
  {
  }

  /** The tuple form loses nothing: reading back a written decision gives the decision. */
  lemma TupleRoundTrip(d: Decision)
    ensures FromTuple(AsTuple(d)) == Some(d)
    ensures AsTuple(d).0 == NoMatchName <==> d.NoMatch?
  {
  }
}
