/**
 * The record-to-pair transform of `export_dpo_dataset`. Each log line is
 * given already parsed: `Some(record)` for a line that decoded to a JSON
 * object, `None` for one that did not. A record whose feedback equals 1
 * becomes a pair preferring the logged response; one whose feedback equals 0
 * becomes a pair rejecting it; every other line contributes nothing. A rated
 * record without a prompt or response makes the source raise `KeyError`,
 * modelled as a `Failure` carrying the missing key.
 */
module DpoPipeline {
  import opened Wrappers

  /** A decoded JSON value. Numbers are finite reals: Python's int and float alike. */
  datatype Json =
    | JNull
    | JBool(b: bool)
    | JNum(n: real)
    | JStr(s: string)
    | JArray(items: seq<Json>)
    | JObject(fields: map<string, Json>)

  /** A decoded log line that is a JSON object. */
  type Record = map<string, Json>

  /** A preference pair; `source` is the value of its `metadata.source`. */
  datatype DpoPair = DpoPair(prompt: Json, chosen: Json, rejected: Json, source: string)

  /** The `KeyError` the source raises, with the key it could not find. */
  datatype KeyError = KeyError(key: string)

  /** The source's result: the pairs it writes and the count it returns. */
  datatype Export = Export(pairs: seq<DpoPair>, count: nat)

  const BadPlaceholder: Json := JStr("[Offline Generated Bad Response]")
  const GoodPlaceholder: Json := JStr("[Offline Generated Good Response]")
  const PositiveSource: string := "user_feedback_positive"
  const NegativeSource: string := "user_feedback_negative"

  /** Python's `value == 1` on a decoded value: the number one, or `true` (a bool is an int). */
  predicate EqualsOne(v: Json) {
    (v.JNum? && v.n == 1.0) || v == JBool(true)
  }

  /** Python's `value == 0` on a decoded value: the number zero, or `false`. */
  predicate EqualsZero(v: Json) {
    (v.JNum? && v.n == 0.0) || v == JBool(false)
  }

  /** The record carries feedback that the export turns into a pair. */
  predicate Rated(r: Record) {
    "feedback" in r && (EqualsOne(r["feedback"]) || EqualsZero(r["feedback"]))
  }

  /** Line `i` decoded to a rated record. */
  predicate RatedLine(lines: seq<Option<Record>>, i: int)
    requires 0 <= i < |lines|
  {
    lines[i].Some? && Rated(lines[i].value)
  }

  /** The record has both fields a pair is built from. */
  predicate Complete(r: Record) {
    "prompt" in r && "response" in r
  }

  /** `r` is rated and complete, and `p` is the pair the source builds from it. */
  ghost predicate PairFor(r: Record, p: DpoPair) {
    && Rated(r) && Complete(r)
    && p.prompt == r["prompt"]
    && (EqualsOne(r["feedback"]) ==>
          p.chosen == r["response"] && p.rejected == BadPlaceholder && p.source == PositiveSource)
    && (EqualsZero(r["feedback"]) ==>
          p.chosen == GoodPlaceholder && p.rejected == r["response"] && p.source == NegativeSource)
  }

  /** The key the source finds missing first: the prompt is read before the response. */
  function MissingKey(r: Record): (e: KeyError)
    requires !Complete(r)
    ensures e.key !in r
    ensures e.key == "prompt" || e.key == "response"
    ensures "prompt" !in r ==> e.key == "prompt"
  {
    if "prompt" !in r then KeyError("prompt") else KeyError("response")
  }

  /**
   * The loop body of the export for one decoded record: no pair for a record
   * without rated feedback, one pair for a rated one, and the `KeyError` the
   * source raises for a rated record missing a field.
   */
  function RecordPairs(r: Record): (out: Result<seq<DpoPair>, KeyError>)
    ensures !Rated(r) ==> out == Success([])
    ensures Rated(r) && !Complete(r) ==> out == Failure(MissingKey(r))
    ensures Rated(r) && Complete(r) ==> out.Success? && |out.value| == 1 && PairFor(r, out.value[0])
  {
    if "feedback" !in r then Success([])
    else if EqualsOne(r["feedback"]) then
      if "prompt" !in r then Failure(KeyError("prompt"))
      else if "response" !in r then Failure(KeyError("response"))
      else Success([DpoPair(r["prompt"], r["response"], BadPlaceholder, PositiveSource)])
    else if EqualsZero(r["feedback"]) then
      if "prompt" !in r then Failure(KeyError("prompt"))
      else if "response" !in r then Failure(KeyError("response"))
      else Success([DpoPair(r["prompt"], GoodPlaceholder, r["response"], NegativeSource)])
    else Success([])
  }

  /**
   * The positions of the rated lines, in increasing order: exactly the lines
   * that contribute a pair.
   */
  function RatedPositions(lines: seq<Option<Record>>): (idx: seq<nat>)
    ensures forall k :: 0 <= k < |idx| ==> idx[k] < |lines| && RatedLine(lines, idx[k])
    ensures forall k, l :: 0 <= k < l < |idx| ==> idx[k] < idx[l]
    ensures forall i :: 0 <= i < |lines| && RatedLine(lines, i) ==> i in idx
  {
    if |lines| == 0 then []
    else
      var last := |lines| - 1;
      var idx := RatedPositions(lines[..last]);
      if RatedLine(lines, last) then idx + [last] else idx
  }

  /** Extending the lines by one appends that line's position when it is rated. */
  lemma RatedPositionsStep(lines: seq<Option<Record>>, i: int)
    requires 0 <= i < |lines|
    ensures RatedPositions(lines[..i + 1])
            == RatedPositions(lines[..i]) + if RatedLine(lines, i) then [i] else []
  {
    assert lines[..i + 1][..i] == lines[..i];
  }

  /** The positions of the rated lines, as a set. */
  ghost function RatedSet(lines: seq<Option<Record>>): set<int> {
    set i | 0 <= i < |lines| && RatedLine(lines, i)
  }

  /** Extending the lines by one adds that line's position to the set when it is rated. */
  lemma RatedSetStep(lines: seq<Option<Record>>)
    requires |lines| > 0
    ensures var last := |lines| - 1;
            && last !in RatedSet(lines[..last])
            && RatedSet(lines)
               == RatedSet(lines[..last]) + if RatedLine(lines, last) then {last} else {}
  {
    var last := |lines| - 1;
    var init := lines[..last];
    assert forall i :: 0 <= i < last ==> (RatedLine(init, i) <==> RatedLine(lines, i));
  }

  /** The number of pairs equals the number of rated lines. */
  lemma {:induction false} RatedPositionsCount(lines: seq<Option<Record>>)
    ensures |RatedPositions(lines)| == |RatedSet(lines)|
  {
    if |lines| > 0 {
      var last := |lines| - 1;
      RatedPositionsCount(lines[..last]);
      RatedSetStep(lines);
    }
  }

  /** `pairs` are the pairs of the rated lines among the first `m` lines, in order. */
  ghost predicate PairsOfPrefix(lines: seq<Option<Record>>, m: int, pairs: seq<DpoPair>)
    requires 0 <= m <= |lines|
  {
    var idx := RatedPositions(lines[..m]);
    && |pairs| == |idx|
    && forall k :: 0 <= k < |idx| ==> PairFor(lines[idx[k]].value, pairs[k])
  }

  /** One more line keeps `PairsOfPrefix` when its record's pairs are appended. */
  lemma PairsOfPrefixStep(lines: seq<Option<Record>>, i: int, pairs: seq<DpoPair>, more: seq<DpoPair>)
    requires 0 <= i < |lines| && PairsOfPrefix(lines, i, pairs)
    requires lines[i].None? ==> more == []
    requires lines[i].Some? ==> RecordPairs(lines[i].value) == Success(more)
    ensures PairsOfPrefix(lines, i + 1, pairs + more)
  {
    RatedPositionsStep(lines, i);
  }

  /**
   * `export_dpo_dataset` without the file handling: lines that did not
   * decode and records without rated feedback are skipped; a rated record
   * becomes one pair, in input order; the count is the number of pairs. A
   * rated record missing its prompt or response stops the export with the
   * missing key, and it is the first such record.
   */
  method ExportDpoDataset(lines: seq<Option<Record>>) returns (result: Result<Export, KeyError>)
    ensures result.Success? <==>
              forall i :: 0 <= i < |lines| && RatedLine(lines, i) ==> Complete(lines[i].value)
    ensures result.Success? ==>
              var idx := RatedPositions(lines);
              && |result.value.pairs| == |idx|
              && result.value.count == |idx|
              && forall k :: 0 <= k < |idx| ==> PairFor(lines[idx[k]].value, result.value.pairs[k])
    ensures result.Failure? ==>
              exists i :: 0 <= i < |lines| && RatedLine(lines, i) && !Complete(lines[i].value)
                && result.error == MissingKey(lines[i].value)
                && forall j :: 0 <= j < i && RatedLine(lines, j) ==> Complete(lines[j].value)
  {
    var pairs: seq<DpoPair> := [];
    var i := 0;
    while i < |lines|
      invariant 0 <= i <= |lines|
      invariant forall j :: 0 <= j < i && RatedLine(lines, j) ==> Complete(lines[j].value)
      invariant PairsOfPrefix(lines, i, pairs)
    {
      if lines[i].Some? {
        var out := RecordPairs(lines[i].value);
        if out.Failure? {
          assert RatedLine(lines, i) && !Complete(lines[i].value);
          return Failure(out.error);
        }
        PairsOfPrefixStep(lines, i, pairs, out.value);
        pairs := pairs + out.value;
      } else {
        PairsOfPrefixStep(lines, i, pairs, []);
      }
      i := i + 1;
    }
    assert lines[..i] == lines;
    return Success(Export(pairs, |pairs|));
  }

  /** The user's verdict a pair records: the prompt, the rated response, and whether it was liked. */
  datatype Rating = Rating(prompt: Json, response: Json, liked: bool)

  /** Reads the rating back from a pair, by its metadata source. */
  function RatingOf(p: DpoPair): Rating {
    if p.source == PositiveSource then Rating(p.prompt, p.chosen, true)
    else Rating(p.prompt, p.rejected, false)
  }

  /** A pair loses nothing of the rating it was built from. */
  lemma PairKeepsRating(r: Record, p: DpoPair)
    requires Rated(r) && Complete(r) && PairFor(r, p)
    ensures RatingOf(p) == Rating(r["prompt"], r["response"], EqualsOne(r["feedback"]))
  {
  }
}
