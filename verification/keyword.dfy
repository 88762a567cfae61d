/**
 * The keyword stage (`KeywordRoutingStrategy`): two case-insensitive,
 * whole-word keyword patterns checked in a fixed priority order, professor
 * first. A hit is certain (confidence 1.0); no hit is the sentinel with 0.0.
 *
 * `RegexSearch` states what searching with `\b(kw1|kw2|...)\b` under
 * IGNORECASE finds; `KeywordRoute` decides by splitting the query into words
 * and looking each lower-cased word up, and `SearchIsWordLookup` proves the
 * two agree.
 */
module KeywordRouting {
  import opened Text
  import opened Decisions

  /** The professor pattern's alternatives. */
  const ProfessorKeywords: set<string> :=
    {"def", "class", "import", "math", "derivative", "quantum", "code", "debug",
     "function", "api", "compiler"}

  /** The zoomer pattern's alternatives. */
  const ZoomerKeywords: set<string> :=
    {"yo", "lol", "vibes", "cap", "bet", "finna", "bruh", "meme", "joke", "lit", "fam"}

  /** An alternative the word-lookup view applies to: non-empty, word characters, lower case. */
  ghost predicate IsKeyword(kw: string) {
    |kw| > 0 && forall k :: 0 <= k < |kw| ==> IsWordChar(kw[k]) && ToLower(kw[k]) == kw[k]
  }

  /** `\b` at position `i`: exactly one of the characters around `i` is a word character. */
  ghost predicate Boundary(s: string, i: int)
    requires 0 <= i <= |s|
  {
    (i > 0 && IsWordChar(s[i - 1])) != (i < |s| && IsWordChar(s[i]))
  }

  /** `\b(kw)\b` matches `s` at `i`, comparing characters ignoring case. */
  ghost predicate MatchAt(s: string, i: int, kw: string) {
    && 0 <= i && i + |kw| <= |s|
    && Boundary(s, i)
    && (forall k :: 0 <= k < |kw| ==> ToLower(s[i + k]) == ToLower(kw[k]))
    && Boundary(s, i + |kw|)
  }

  /** `re.search` of the alternation of `alternatives`, wrapped in `\b...\b`, finds a match in `s`. */
  ghost predicate RegexSearch(s: string, alternatives: set<string>) {
    exists i, kw :: kw in alternatives && MatchAt(s, i, kw)
  }

  /** Some word of `s`, lower-cased, is one of `keywords`. */
  predicate HasKeyword(s: string, keywords: set<string>) {
    exists w :: w in Words(s) && Lower(w) in keywords
  }

  /** Both keyword sets of the source are made of lower-case word characters. */
  lemma SourceKeywordsAreKeywords()
    ensures forall kw :: kw in ProfessorKeywords ==> IsKeyword(kw)
    ensures forall kw :: kw in ZoomerKeywords ==> IsKeyword(kw)
  {
  }

  /** A regex match of a keyword covers exactly a maximal run that lower-cases to it. */
  lemma MatchIsWord(s: string, i: int, kw: string)
    requires IsKeyword(kw) && MatchAt(s, i, kw)
    ensures s[i..i + |kw|] in Words(s) && Lower(s[i..i + |kw|]) == kw
  {
    var j := i + |kw|;
    forall k | i <= k < j
      ensures IsWordChar(s[k]) && ToLower(s[k]) == kw[k - i]
    {
      ToLowerKeepsWordChar(s[k]);
      assert ToLower(s[i + (k - i)]) == ToLower(kw[k - i]);
    }
    assert MaximalRun(s, i, j);
    MaximalRunIsWord(s, i, j);
  }

  /** A word that lower-cases to a keyword is a regex match of that keyword. */
  lemma WordIsMatch(s: string, w: string)
    requires w in Words(s) && IsKeyword(Lower(w))
    ensures exists i :: MatchAt(s, i, Lower(w))
  {
    var i, j := WordIsMaximalRun(s, w);
    var kw := Lower(w);
    forall k | 0 <= k < |kw|
      ensures ToLower(s[i + k]) == ToLower(kw[k])
    {
      ToLowerKeepsWordChar(s[i + k]);
    }
    assert MatchAt(s, i, kw);
  }

  /**
   * Searching with the whole-word, case-insensitive pattern finds a match
   * exactly when some word of the query, lower-cased, is a keyword. So a
   * keyword inside a longer word ("cap" in "capital") is no match.
   */
  lemma SearchIsWordLookup(s: string, keywords: set<string>)
    requires forall kw :: kw in keywords ==> IsKeyword(kw)
    ensures RegexSearch(s, keywords) <==> HasKeyword(s, keywords)
  {
    if RegexSearch(s, keywords) {
      var i, kw :| kw in keywords && MatchAt(s, i, kw);
      MatchIsWord(s, i, kw);
    }
    if HasKeyword(s, keywords) {
      var w :| w in Words(s) && Lower(w) in keywords;
      WordIsMatch(s, w);
    }
  }

  /**
   * `KeywordRoutingStrategy.route`: professor on a professor-pattern hit,
   * otherwise zoomer on a zoomer-pattern hit, always with confidence 1.0;
   * otherwise the sentinel with confidence 0.0.
   */
  function KeywordRoute(query: string): (d: Decision)
    ensures d.Matched? ==> d.confidence == 1.0
    ensures d.NoMatch? ==> d.confidence == 0.0
    ensures d == Matched(Professor, 1.0) <==> RegexSearch(query, ProfessorKeywords)
    ensures (d == Matched(Zoomer, 1.0))
            <==> (!RegexSearch(query, ProfessorKeywords) && RegexSearch(query, ZoomerKeywords))
    ensures d.NoMatch?
            <==> (!RegexSearch(query, ProfessorKeywords) && !RegexSearch(query, ZoomerKeywords))
  {
    SourceKeywordsAreKeywords();
    SearchIsWordLookup(query, ProfessorKeywords);
    SearchIsWordLookup(query, ZoomerKeywords);
    if HasKeyword(query, ProfessorKeywords) then Matched(Professor, 1.0)
    else if HasKeyword(query, ZoomerKeywords) then Matched(Zoomer, 1.0)
    else NoMatch(0.0)
  }

  /** A query that hits both patterns goes to the professor: the professor pattern is checked first. */
  lemma ProfessorHasPriority(query: string)
    requires RegexSearch(query, ProfessorKeywords) && RegexSearch(query, ZoomerKeywords)
    ensures KeywordRoute(query) == Matched(Professor, 1.0)
  {
  }

  /** An empty, blank or punctuation-only query hits no pattern. */
  lemma NoWordsNoMatch(query: string)
    requires forall k :: 0 <= k < |query| ==> !IsWordChar(query[k])
    ensures KeywordRoute(query) == NoMatch(0.0)
  {
    NoWordCharsNoWords(query);
  }

  /** A word of the query that is a professor keyword routes it to the professor. */
  lemma ProfessorWordRoutes(query: string, w: string)
    requires w in Words(query) && Lower(w) in ProfessorKeywords
    ensures KeywordRoute(query) == Matched(Professor, 1.0)
  {
    assert HasKeyword(query, ProfessorKeywords);
  }

  /** A zoomer keyword among words none of which is a professor keyword routes to the zoomer. */
  lemma ZoomerWordRoutes(query: string, w: string)
    requires w in Words(query) && Lower(w) in ZoomerKeywords
    requires forall v :: v in Words(query) ==> Lower(v) !in ProfessorKeywords
    ensures KeywordRoute(query) == Matched(Zoomer, 1.0)
  {
    assert HasKeyword(query, ZoomerKeywords);
  }

  /** A query none of whose words is a keyword is no match. */
  lemma NoKeywordWordsNoMatch(query: string)
    requires forall v :: v in Words(query) ==> Lower(v) !in ProfessorKeywords && Lower(v) !in ZoomerKeywords
    ensures KeywordRoute(query) == NoMatch(0.0)
  {
  }
}
