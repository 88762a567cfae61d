/**
 * The cascade (`HybridRoutingStrategy`): the keyword stage first; on a miss
 * the semantic stage over the source's clusters with the router's threshold;
 * on a second miss the fallback expert with a fixed low confidence. The
 * semantic stage is consulted only when the keyword stage misses, and the
 * no-match sentinel never leaves the cascade.
 */
module HybridRouting {
  import opened Text
  import opened Decisions
  import opened KeywordRouting
  import opened SemanticRouting

  /** The safety-net expert and its confidence, used when both stages miss. */
  const FallbackExpert: Expert := Professor
  const FallbackConfidence: real := 0.1

  /** Some whole-word keyword of either pattern occurs in the query. */
  ghost predicate KeywordHit(query: string) {
    RegexSearch(query, ProfessorKeywords) || RegexSearch(query, ZoomerKeywords)
  }

  /** The semantic stage of the cascade: the source's clusters under the given threshold. */
  function SlowPath(sim: Similarity, threshold: real, query: string): Decision {
    DefaultRoutesWellFormed();
    SemanticRoute(sim, DefaultRoutes, threshold, query)
  }

  /**
   * `HybridRoutingStrategy.route`; `threshold` is the constructor's
   * `semantic_threshold` (0.45 by default), handed to the semantic stage.
   */
  function HybridRoute(sim: Similarity, threshold: real, query: string): (d: Decision)
    ensures d.Matched?
    ensures RegexSearch(query, ProfessorKeywords) ==> d == Matched(Professor, 1.0)
    ensures (!RegexSearch(query, ProfessorKeywords) && RegexSearch(query, ZoomerKeywords))
            ==> d == Matched(Zoomer, 1.0)
    ensures !KeywordHit(query) ==>
              forall c :: IsBestScore(sim, query, DefaultRoutes, c) ==>
                && (threshold <= c ==> d.confidence == c && IsWinner(sim, query, DefaultRoutes, c, d.expert))
                && (c < threshold ==> d == Matched(FallbackExpert, FallbackConfidence))
  {
    var fast := KeywordRoute(query);
    if fast.Matched? then fast
    else
      var slow := SlowPath(sim, threshold, query);
      forall c | IsBestScore(sim, query, DefaultRoutes, c)
        ensures c == slow.confidence
      {
        BestScoreUnique(sim, query, DefaultRoutes, c, slow.confidence);
      }
      if slow.Matched? then slow else Matched(FallbackExpert, FallbackConfidence)
  }

  /**
   * On a keyword hit the semantic stage has no influence: whatever the
   * similarity and threshold, the cascade returns the keyword decision.
   */
  lemma ShortCircuit(sim1: Similarity, threshold1: real, sim2: Similarity, threshold2: real, query: string)
    requires KeywordRoute(query).Matched?
    ensures HybridRoute(sim1, threshold1, query) == KeywordRoute(query)
    ensures HybridRoute(sim1, threshold1, query) == HybridRoute(sim2, threshold2, query)
  {
  }

  /**
   * When both stages miss, the result is the fallback whatever the semantic
   * near-miss score was.
   */
  lemma FallbackIgnoresNearMiss(sim: Similarity, threshold: real, query: string)
    requires KeywordRoute(query).NoMatch? && SlowPath(sim, threshold, query).NoMatch?
    ensures HybridRoute(sim, threshold, query) == Matched(Professor, 0.1)
  {
  }

  /**
   * An empty or blank query hits no keyword, so the semantic stage decides
   * it: the stage's expert and confidence when it matches, the fallback
   * otherwise.
   */
  lemma BlankQueryGoesToSlowPath(sim: Similarity, threshold: real, query: string)
    requires forall k :: 0 <= k < |query| ==> !IsWordChar(query[k])
    ensures var slow := SlowPath(sim, threshold, query);
            HybridRoute(sim, threshold, query)
              == if slow.Matched? then slow else Matched(FallbackExpert, FallbackConfidence)
  {
    NoWordsNoMatch(query);
  }

  /**
   * The cascade as the source writes it, on `(name, confidence)` tuples with
   * the "nomatch" string as the sentinel. It agrees with `HybridRoute`, and
   * its name is always a real expert's.
   */
  function HybridRouteTuple(sim: Similarity, threshold: real, query: string): (r: (string, real))
    ensures r == AsTuple(HybridRoute(sim, threshold, query))
    ensures r.0 != NoMatchName
    ensures r.0 == "professor" || r.0 == "zoomer"
  {
    var (expert, conf) := AsTuple(KeywordRoute(query));
    if expert != NoMatchName then (expert, conf)
    else
      var (expert', conf') := AsTuple(SlowPath(sim, threshold, query));
      if expert' == NoMatchName then (Name(FallbackExpert), FallbackConfidence)
      else (expert', conf')
  }
}
