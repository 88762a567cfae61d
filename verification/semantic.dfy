/**
 * The semantic stage (`SemanticRoutingStrategy`). The sentence encoder and
 * cosine similarity are abstracted into one real-valued function `sim`, so
 * that `sim(query, example)` is the similarity between the query and one
 * example utterance. Each expert scores the maximum similarity over its
 * examples; the expert with the highest score wins, the first declared one
 * on ties; a best score below the threshold is reported as no match carrying
 * that score.
 */
module SemanticRouting {
  import opened Decisions

  /** Similarity between a query and an example utterance (encoder plus cosine similarity). */
  type Similarity = (string, string) -> real

  /** An expert with its example utterances. */
  datatype Route = Route(expert: Expert, examples: seq<string>)

  /** The constructor's default threshold. */
  const DefaultThreshold: real := 0.0

  /** The example clusters, in declaration order: professor first. */
  const DefaultRoutes: seq<Route> := [
    Route(Professor, [
      "explain the quantum physics of light",
      "debug this python stack trace",
      "what is the derivative of log x",
      "architectural patterns for microservices",
      "mathematical proof of concept",
      "software engineering best practices"]),
    Route(Zoomer, [
      "yo what is up",
      "tell me a joke bro",
      "write a tweet about pizza",
      "vibes are off today",
      "explain like i am 5",
      "that movie was mid no cap"])
  ]

  /** Every expert has at least one example, so each has a score. */
  predicate WellFormed(routes: seq<Route>) {
    |routes| > 0 && forall i :: 0 <= i < |routes| ==> |routes[i].examples| > 0
  }

  /** The largest similarity between the query and any of the examples. */
  function MaxSimilarity(sim: Similarity, query: string, examples: seq<string>): (m: real)
    requires |examples| > 0
    ensures forall k :: 0 <= k < |examples| ==> sim(query, examples[k]) <= m
    ensures exists k :: 0 <= k < |examples| && sim(query, examples[k]) == m
  {
    if |examples| == 1 then sim(query, examples[0])
    else
      var first := sim(query, examples[0]);
      var rest := MaxSimilarity(sim, query, examples[1..]);
      if first >= rest then first else rest
  }

  /** Each expert's score, in declaration order. */
  function Scores(sim: Similarity, query: string, routes: seq<Route>): (scores: seq<real>)
    requires WellFormed(routes)
    ensures |scores| == |routes|
  {
    seq(|routes|, i requires 0 <= i < |routes| => MaxSimilarity(sim, query, routes[i].examples))
  }

  /**
   * The index Python's `max(scores, key=scores.get)` picks: a maximal score,
   * and the first one, since the running maximum is replaced only by a
   * strictly greater score.
   */
  function FirstArgMax(scores: seq<real>): (i: nat)
    requires |scores| > 0
    ensures i < |scores|
    ensures forall k :: 0 <= k < |scores| ==> scores[k] <= scores[i]
    ensures forall k :: 0 <= k < i ==> scores[k] < scores[i]
  {
    if |scores| == 1 then 0
    else
      var last := |scores| - 1;
      var i := FirstArgMax(scores[..last]);
      if scores[last] > scores[i] then last else i
  }

  /** `c` is the largest similarity between the query and any example of any expert. */
  ghost predicate IsBestScore(sim: Similarity, query: string, routes: seq<Route>, c: real) {
    && (forall i, k :: 0 <= i < |routes| && 0 <= k < |routes[i].examples| ==>
          sim(query, routes[i].examples[k]) <= c)
    && (exists i, k :: 0 <= i < |routes| && 0 <= k < |routes[i].examples| &&
          sim(query, routes[i].examples[k]) == c)
  }

  /** Route `i` has an example scoring `c`, and every example of an earlier route scores less. */
  ghost predicate FirstToReach(sim: Similarity, query: string, routes: seq<Route>, c: real, i: int) {
    && 0 <= i < |routes|
    && (exists k :: 0 <= k < |routes[i].examples| && sim(query, routes[i].examples[k]) == c)
    && (forall j, k :: 0 <= j < i && 0 <= k < |routes[j].examples| ==>
          sim(query, routes[j].examples[k]) < c)
  }

  /** Expert `e` is the one of the first route that reaches score `c`. */
  ghost predicate IsWinner(sim: Similarity, query: string, routes: seq<Route>, c: real, e: Expert) {
    exists i :: FirstToReach(sim, query, routes, c, i) && routes[i].expert == e
  }

  /**
   * `SemanticRoutingStrategy.route` for the given clusters and threshold: the
   * confidence is the best similarity over all examples, whether or not it
   * clears the threshold; a score equal to the threshold is still a match;
   * the matched expert is the first declared one reaching the best score.
   */
  function SemanticRoute(sim: Similarity, routes: seq<Route>, threshold: real, query: string): (d: Decision)
    requires WellFormed(routes)
    ensures IsBestScore(sim, query, routes, d.confidence)
    ensures d.Matched? <==> threshold <= d.confidence
    ensures d.Matched? ==> IsWinner(sim, query, routes, d.confidence, d.expert)
  {
    var scores := Scores(sim, query, routes);
    var best := FirstArgMax(scores);
    var confidence := scores[best];
    forall i, k | 0 <= i < |routes| && 0 <= k < |routes[i].examples|
      ensures sim(query, routes[i].examples[k]) <= confidence
      ensures i < best ==> sim(query, routes[i].examples[k]) < confidence
    {
      assert sim(query, routes[i].examples[k]) <= scores[i];
    }
    assert FirstToReach(sim, query, routes, confidence, best);
    if confidence < threshold then NoMatch(confidence)
    else Matched(routes[best].expert, confidence)
  }

  /** The best score is unique: two values that are both the best are equal. */
  lemma BestScoreUnique(sim: Similarity, query: string, routes: seq<Route>, c1: real, c2: real)
    requires IsBestScore(sim, query, routes, c1) && IsBestScore(sim, query, routes, c2)
    ensures c1 == c2
  {
  }

  /** The source's clusters are well formed. */
  lemma DefaultRoutesWellFormed()
    ensures WellFormed(DefaultRoutes)
  {
  }

  /**
   * With the source's two clusters, a match goes to the professor exactly
   * when the professor's score is at least the zoomer's: ties go to the
   * professor, the first declared expert.
   */
  lemma TieGoesToProfessor(sim: Similarity, threshold: real, query: string)
    ensures var d := SemanticRoute(sim, DefaultRoutes, threshold, query);
            d.Matched? ==>
              (d.expert == Professor <==>
                 MaxSimilarity(sim, query, DefaultRoutes[0].examples)
                   >= MaxSimilarity(sim, query, DefaultRoutes[1].examples))
  {
    var scores := Scores(sim, query, DefaultRoutes);
    assert scores[..1] == [scores[0]];
  }

  /**
   * With the default threshold 0.0 and similarities that are never negative,
   * the semantic stage always matches.
   */
  lemma DefaultThresholdAlwaysMatches(sim: Similarity, query: string)
    requires forall i, k :: 0 <= i < |DefaultRoutes| && 0 <= k < |DefaultRoutes[i].examples| ==>
               sim(query, DefaultRoutes[i].examples[k]) >= 0.0
    ensures SemanticRoute(sim, DefaultRoutes, DefaultThreshold, query).Matched?
  {
  }
}
