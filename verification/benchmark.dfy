/** How the queries of the benchmark suite split into words. */
module BenchmarkWords {
  import opened Text

  // The query is a parameter fixed by `requires` rather than written inline:
  // the verifier then does not unfold the literal at every use, which keeps
  // these proofs cheap.

  /** "no cap that was funny" is its five words joined by spaces. */
  lemma NoCapQueryJoined(query: string)
    requires query == "no cap that was funny"
    ensures Unwords(["no", "cap", "that", "was", "funny"]) == query
  {
    var ws := ["no", "cap", "that", "was", "funny"];
    assert Unwords(ws) == query;
  }

  /** The words of "no cap that was funny". */
  lemma NoCapQueryWords(query: string)
    requires query == "no cap that was funny"
    ensures Words(query) == ["no", "cap", "that", "was", "funny"]
  {
    NoCapQueryJoined(query);
    var ws := ["no", "cap", "that", "was", "funny"];
    assert AllWordChars("funny");
    WordsOfUnwords(ws);
  }

  /** "class" is the first word of "class MyObject(object): pass". */
  lemma ClassDefinitionFirstWord(query: string)
    requires query == "class MyObject(object): pass"
    ensures "class" in Words(query)
  {
    var rest := "MyObject(object): pass";
    assert query == "class" + [' '] + rest;
    assert AllWordChars("class");
    WordsSplit("class", ' ', rest);
    SingleWord("class");
  }

  /** "what is the capital of france" is its six words joined by spaces. */
  lemma CapitalQueryJoined(query: string)
    requires query == "what is the capital of france"
    ensures Unwords(["what", "is", "the", "capital", "of", "france"]) == query
  {
    var ws := ["what", "is", "the", "capital", "of", "france"];
    assert Unwords(ws) == query;
  }

  /** The words of "what is the capital of france". */
  lemma CapitalQueryWords(query: string)
    requires query == "what is the capital of france"
    ensures Words(query) == ["what", "is", "the", "capital", "of", "france"]
  {
    CapitalQueryJoined(query);
    var ws := ["what", "is", "the", "capital", "of", "france"];
    assert AllWordChars("capital");
    WordsOfUnwords(ws);
  }
}

/**
 * The keyword stage on the queries of the benchmark suite
 * (src/forensics/benchmark_suite.py): which expert each one reaches, derived
 * from the general route lemmas after splitting the query into words.
 */
module BenchmarkQueries {
  import opened Text
  import opened Decisions
  import opened KeywordRouting
  import opened BenchmarkWords

  /**
   * One-word queries: matching ignores case, so "YO" goes to the zoomer, and
   * so does "bruh".
   */
  lemma OneWordZoomerHits()
    ensures KeywordRoute("YO") == Matched(Zoomer, 1.0)
    ensures KeywordRoute("bruh") == Matched(Zoomer, 1.0)
  {
    SingleWord("YO");
    assert Lower("YO") == "yo";
    ZoomerWordRoutes("YO", "YO");
    SingleWord("bruh");
    assert Lower("bruh") == "bruh";
    ZoomerWordRoutes("bruh", "bruh");
  }

  /** None of the given words is a professor keyword, and each is its own lower-case form. */
  lemma NoCapQueryHasNoProfessorKeyword(ws: seq<string>)
    requires ws == ["no", "cap", "that", "was", "funny"]
    ensures forall w :: w in ws ==> Lower(w) == w && w !in ProfessorKeywords
  {
    forall w | w in ws
      ensures Lower(w) == w && w !in ProfessorKeywords
    {
    }
  }

  /** "cap" as a whole word: "no cap that was funny" goes to the zoomer. */
  lemma NoCapIsZoomer(query: string)
    requires query == "no cap that was funny"
    ensures KeywordRoute(query) == Matched(Zoomer, 1.0)
  {
    NoCapQueryWords(query);
    NoCapQueryHasNoProfessorKeyword(Words(query));
    ZoomerWordRoutes(query, "cap");
  }

  /** A keyword hit as a whole word: "class MyObject(object): pass" goes to the professor. */
  lemma ClassDefinitionIsProfessor(query: string)
    requires query == "class MyObject(object): pass"
    ensures KeywordRoute(query) == Matched(Professor, 1.0)
  {
    ClassDefinitionFirstWord(query);
    assert Lower("class") == "class";
    ProfessorWordRoutes(query, "class");
  }

  /** None of the words of "what is the capital of france" is a keyword of either pattern. */
  lemma CapitalQueryHasNoKeyword(ws: seq<string>)
    requires ws == ["what", "is", "the", "capital", "of", "france"]
    ensures forall w :: w in ws ==> Lower(w) !in ProfessorKeywords && Lower(w) !in ZoomerKeywords
  {
    forall w | w in ws
      ensures Lower(w) !in ProfessorKeywords && Lower(w) !in ZoomerKeywords
    {
      assert Lower(w) == w;
    }
  }

  /** "capital" contains "cap" but is not the word "cap": this query hits no pattern. */
  lemma CapitalIsNotCap(query: string)
    requires query == "what is the capital of france"
    ensures KeywordRoute(query) == NoMatch(0.0)
  {
    CapitalQueryWords(query);
    CapitalQueryHasNoKeyword(Words(query));
    NoKeywordWordsNoMatch(query);
  }
}
