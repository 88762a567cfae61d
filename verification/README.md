# llm-router routing core in Dafny

This project models the routing core of llm-router. The core is a three-stage cascading classifier. It sends a natural-language query to one of two experts, `professor` or `zoomer`. The project also models the record-to-pair transform of the offline DPO (direct preference optimisation) export.

- **Keyword stage** (`KeywordRoutingStrategy`, module `KeywordRouting`). Two case-insensitive, whole-word patterns are checked in priority order, professor first. A hit has confidence 1.0. No hit gives the `nomatch` sentinel with 0.0.
  - `RegexSearch` states what `re.search` with `\b(kw1|…)\b` and IGNORECASE finds: a position with a word boundary on both sides where the characters match a keyword ignoring case.
  - `KeywordRoute` decides differently. It splits the query into maximal runs of word characters (`Text.Words`) and looks each lower-cased run up.
  - `SearchIsWordLookup` proves that the two agree.
  - Modules `BenchmarkWords` and `BenchmarkQueries` apply the stage to queries of the benchmark suite.
- **Semantic stage** (`SemanticRoutingStrategy`, module `SemanticRouting`). The sentence encoder and cosine similarity become one uninterpreted parameter, `sim(query, example): real`.
  - An expert's score is the maximum similarity over its examples.
  - The winner is the first expert, in declaration order, with the highest score.
  - A best score strictly below the threshold is reported as no match, carrying that score.
- **Cascade** (`HybridRoutingStrategy`, module `HybridRouting`). It tries the keyword stage, then the semantic stage with the router's threshold. If both miss it returns the fallback `professor` with confidence 0.1.
  - Decisions are the sum type `Matched(expert, confidence) | NoMatch(confidence)` (module `Decisions`).
  - `HybridRouteTuple` is the source's string-comparing version. It is proved equal to `HybridRoute`, and it never returns `"nomatch"`.
- **DPO export** (`export_dpo_dataset`, module `DpoPipeline`). Each log line is given already decoded: `Some(record)` for a JSON object, `None` for a line that failed to parse.
  - Feedback equal to 1 gives a pair that prefers the logged response. Feedback equal to 0 gives a pair that rejects it.
  - Every other line contributes nothing.
  - A rated record without `prompt` or `response` makes the source raise `KeyError`. The model returns this as `Failure(KeyError(key))`.

Edge cases the model states as the code behaves:
- **Empty query.** An empty or blank query hits no keyword, so the semantic stage decides it. The result is that stage's decision when it matches and the fallback otherwise, and so depends on the encoder (`BlankQueryGoesToSlowPath`).
- **Experts without examples.** The code does not check for them, and `sims.max()` fails on an empty cluster (src/core/router_strategy.py:93). The model requires every cluster to be non-empty (`WellFormed`). The source's own clusters satisfy this (`DefaultRoutesWellFormed`).
- **Confidence range.** The docstring of `route` promises a confidence from 0.0 to 1.0 (src/core/protocols.py:37-38). The semantic stage does no clamping of the cosine similarity, so the model allows any real and does not assume that range.

## Model

| member | source | states |
|---|---|---|
| Text.MaximalRunIsWord | src/core/router_strategy.py:19-26 | every maximal run of word characters of the query (the text between two `\b` positions) is one of the words `Words` produces |
| Text.WordIsMaximalRun | src/core/router_strategy.py:19-26 | every word `Words` produces is a maximal run of word characters, at returned positions `i..j` |
| KeywordRouting.SearchIsWordLookup | src/core/router_strategy.py:19-26 | `\b(kw…)\b` with IGNORECASE finds a match iff some word of the query, lower-cased, is a keyword (both directions) |
| KeywordRouting.KeywordRoute | src/core/router_strategy.py:28-43 | professor with 1.0 iff the professor pattern matches; zoomer with 1.0 iff only the zoomer pattern matches; sentinel with 0.0 iff neither matches |
| KeywordRouting.ProfessorHasPriority | src/core/router_strategy.py:31-39 | a query matching both patterns goes to the professor |
| KeywordRouting.NoWordsNoMatch | src/core/router_strategy.py:41-43 | an empty, blank or punctuation-only query is the sentinel with confidence 0.0 |
| BenchmarkQueries.OneWordZoomerHits | src/core/router_strategy.py:23-26 | matching ignores case: "YO" goes to the zoomer with 1.0, and so does the benchmark query "bruh" |
| BenchmarkWords.ClassDefinitionFirstWord | src/forensics/benchmark_suite.py:13 | "class" is a whole word of "class MyObject(object): pass" |
| BenchmarkQueries.ClassDefinitionIsProfessor | src/forensics/benchmark_suite.py:13 | "class MyObject(object): pass" is a keyword hit for the professor |
| BenchmarkWords.NoCapQueryWords | src/forensics/benchmark_suite.py:15 | "no cap that was funny" splits into the words "no", "cap", "that", "was", "funny" |
| BenchmarkQueries.NoCapIsZoomer | src/forensics/benchmark_suite.py:15 | "no cap that was funny" is a keyword hit for the zoomer: "cap" is a whole word and no word is a professor keyword |
| BenchmarkWords.CapitalQueryWords | src/forensics/benchmark_suite.py:20 | "what is the capital of france" splits into six words, one of them "capital" |
| BenchmarkQueries.CapitalIsNotCap | src/forensics/benchmark_suite.py:20 | "what is the capital of france" matches no pattern: "capital" is not the word "cap" |
| Decisions.TupleRoundTrip | src/core/router_strategy.py:43 | the `(name, confidence)` tuple encoding is lossless, and its name is "nomatch" exactly for the sentinel |
| Decisions.SentinelIsNoExpert | src/core/router_strategy.py:123 | no expert is named "nomatch", so comparing the name with "nomatch" tells a miss from a hit |
| SemanticRouting.MaxSimilarity | src/core/router_strategy.py:88-93 | an expert's score bounds the similarity of each of its examples and equals the similarity of one of them |
| SemanticRouting.FirstArgMax | src/core/router_strategy.py:96 | `max(scores, key=scores.get)` picks a maximal score, and every earlier score is strictly smaller (the first maximum wins) |
| SemanticRouting.SemanticRoute | src/core/router_strategy.py:81-104 | the confidence is the best similarity over all examples, in both the match and the no-match case; it is a match iff threshold <= confidence; the matched expert is the first declared one reaching that score |
| SemanticRouting.TieGoesToProfessor | src/core/router_strategy.py:57-73 | with the source's clusters, a match goes to the professor iff the professor's score >= the zoomer's, so ties go to the professor |
| SemanticRouting.DefaultThresholdAlwaysMatches | src/core/router_strategy.py:52-54 | with the default threshold 0.0 and non-negative similarities the semantic stage never returns the sentinel |
| HybridRouting.HybridRoute | src/core/router_strategy.py:117-135 | always a real expert; professor/zoomer with 1.0 on a keyword hit by priority; otherwise the semantic best score and winner when the best score is >= threshold, else ("professor", 0.1) |
| HybridRouting.ShortCircuit | src/core/router_strategy.py:121-125 | on a keyword hit the cascade returns the keyword decision, whatever the similarity function and threshold |
| HybridRouting.FallbackIgnoresNearMiss | src/core/router_strategy.py:128-133 | when both stages miss the result is ("professor", 0.1), whatever the near-miss score |
| HybridRouting.BlankQueryGoesToSlowPath | src/core/router_strategy.py:117-135 | a blank query is decided by the semantic stage: its decision if it matches, the fallback otherwise |
| HybridRouting.HybridRouteTuple | src/core/router_strategy.py:121-135 | the source's string-comparing cascade equals `HybridRoute` in tuple form and its name is "professor" or "zoomer", never "nomatch" |
| DpoPipeline.RecordPairs | src/forensics/dpo_pipeline.py:36-65 | a record without feedback 0 or 1 gives no pair; a rated complete record gives exactly one pair with the prompt kept, chosen/rejected/source set by the feedback; a rated record missing a field gives the KeyError for that field |
| DpoPipeline.MissingKey | src/forensics/dpo_pipeline.py:46-62 | the KeyError names a key absent from the record, "prompt" or "response"; when the prompt is missing it is "prompt", because the prompt is read before the response in both branches |
| DpoPipeline.RatedPositions | src/forensics/dpo_pipeline.py:30-65 | the contributing lines are exactly the decoded records with feedback 0 or 1, listed in increasing input order |
| DpoPipeline.RatedPositionsCount | src/forensics/dpo_pipeline.py:73 | the number of pairs equals the number of lines whose record has feedback 0 or 1 |
| DpoPipeline.ExportDpoDataset | src/forensics/dpo_pipeline.py:23-73 | succeeds iff every rated record has prompt and response; then pair k is built from the k-th rated record (order kept, prompt kept, contents by feedback) and the count is the number of pairs; otherwise fails with the missing key of the first incomplete rated record |
| DpoPipeline.PairKeepsRating | src/forensics/dpo_pipeline.py:46-65 | from a pair one can read back the prompt, the rated response and whether it was liked |

## Left out

- Latency: the wall-clock measurements (`time.time()` differences) are not modelled. The cascade measures its own total, so no relation between stage latencies and the total is claimed.
- Encoder and cosine similarity: `SentenceTransformer` encoding and `util.cos_sim` are foreign floating-point code. They are the parameter `sim`, and similarities are reals rather than floats. Encoder failures (model unavailable) are not modelled.
- Unicode: `\w` and IGNORECASE are modelled for ASCII only. Word characters are ASCII letters, digits and `_`, and case folding is ASCII lower-casing. Python treats non-ASCII letters as word characters and folds some of them onto keyword letters (the Kelvin sign onto `k`, for example). The model treats every non-ASCII character as a non-word character that folds to itself.
- Dictionary order: the semantic clusters are a sequence in declaration order, which stands for the dict's insertion order. Keys of a sequence are not forced to be distinct; the source's two clusters are.
- HTTP client (`src/core/llm_client.py`) and interaction logger (`src/forensics/logger.py`): I/O plumbing with UUIDs and timestamps. They are not part of this model.
- Benchmark suite (`src/forensics/benchmark_suite.py`): pandas/numpy reporting. Four of its labelled queries ("class MyObject(object): pass", "no cap that was funny", "bruh", "what is the capital of france") are used as example inputs to the keyword stage. The other keyword hits follow the same pattern, and the queries that need the encoder cannot be decided without it.
- Protocols (`src/core/protocols.py`): interface declarations only. Their [0,1] confidence claim is not enforced by the code and is not assumed.
- DPO file handling: the existence check, `makedirs`, reading and writing files, and JSON encoding and decoding are I/O. A missing input file returns 0 before any record is read.
- DPO decoded lines: a line that decodes to a JSON value other than an object (a list, string or number) is not modelled. With such a line, `"feedback" in data` tests list elements or substrings, or raises `TypeError`.
- DPO non-finite numbers: `NaN` and `Infinity` are not represented. They never equal 0 or 1, so such a record contributes no pair, like any other non-0/1 feedback.
