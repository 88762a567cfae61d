/**
 * Word characters, ASCII case folding and the split of a string into its
 * maximal runs of word characters ("words"). These are the notions that the
 * regular-expression word boundary `\b` is defined by.
 */
module Text {

  /** The regular-expression class `\w` restricted to ASCII: letters, digits, underscore. */
  predicate IsWordChar(c: char) {
    ('a' <= c <= 'z') || ('A' <= c <= 'Z') || ('0' <= c <= '9') || c == '_'
  }

  /** ASCII lower-casing, the case folding used for case-insensitive matching. */
  function ToLower(c: char): char {
    if 'A' <= c <= 'Z' then (c as int + 32) as char else c
  }

  /** The string with every character lower-cased. */
  function Lower(s: string): string {
    seq(|s|, k requires 0 <= k < |s| => ToLower(s[k]))
  }

  /** Folding never turns a word character into a non-word character or back. */
  lemma ToLowerKeepsWordChar(c: char)
    ensures IsWordChar(ToLower(c)) <==> IsWordChar(c)
    ensures ToLower(ToLower(c)) == ToLower(c)
  {
  }

  /** The length of the run of word characters that starts `s`. */
  function RunLength(s: string): (n: nat)
    ensures n <= |s|
    ensures forall k :: 0 <= k < n ==> IsWordChar(s[k])
    ensures n == |s| || !IsWordChar(s[n])
  {
    if |s| == 0 || !IsWordChar(s[0]) then 0 else 1 + RunLength(s[1..])
  }

  /** The maximal runs of word characters of `s`, left to right. */
  function Words(s: string): seq<string>
    decreases |s|
  {
    if |s| == 0 then []
    else if !IsWordChar(s[0]) then Words(s[1..])
    else
      var n := RunLength(s);
      [s[..n]] + Words(s[n..])
  }

  /**
   * `s[i..j]` is a maximal run of word characters: non-empty, made of word
   * characters only, and not extendable to the left or to the right.
   */
  ghost predicate MaximalRun(s: string, i: int, j: int) {
    && 0 <= i < j <= |s|
    && (i == 0 || !IsWordChar(s[i - 1]))
    && (j == |s| || !IsWordChar(s[j]))
    && forall k :: i <= k < j ==> IsWordChar(s[k])
  }

  /** A slice of a suffix is the correspondingly shifted slice of the whole. */
  lemma SliceOfSuffix(s: string, n: nat, i: nat, j: nat)
    requires n <= |s| && i <= j <= |s| - n
    ensures s[n..][i..j] == s[i + n..j + n]
  {
    var t := s[n..];
    assert |t[i..j]| == |s[i + n..j + n]|;
    forall k | 0 <= k < j - i
      ensures t[i..j][k] == s[i + n..j + n][k]
    {
      assert t[i..j][k] == t[i + k] == s[n + i + k];
    }
  }

  /** Every maximal run of word characters is one of the words. */
  lemma {:induction false} MaximalRunIsWord(s: string, i: int, j: int)
    requires MaximalRun(s, i, j)
    ensures s[i..j] in Words(s)
    decreases |s|, 1
  {
    if !IsWordChar(s[0]) {
      SkippedRunIsWord(s, i, j);
    } else if i == 0 {
      // The run starting at 0 is the leading run, the first word.
      RunLengthIs(s, j);
    } else {
      LaterRunIsWord(s, i, j);
    }
  }

  /** `MaximalRunIsWord` when `s` starts with a non-word character, which the words skip. */
  lemma {:induction false} SkippedRunIsWord(s: string, i: int, j: int)
    requires MaximalRun(s, i, j) && !IsWordChar(s[0])
    ensures s[i..j] in Words(s)
    decreases |s|, 0
  {
    var t := s[1..];
    assert Words(s) == Words(t);
    assert MaximalRun(t, i - 1, j - 1);
    SliceOfSuffix(s, 1, i - 1, j - 1);
    MaximalRunIsWord(t, i - 1, j - 1);
  }

  /** `MaximalRunIsWord` for a run after the leading run of `s`. */
  lemma {:induction false} LaterRunIsWord(s: string, i: int, j: int)
    requires MaximalRun(s, i, j) && IsWordChar(s[0]) && i > 0
    ensures s[i..j] in Words(s)
    decreases |s|, 0
  {
    var n := RunLength(s);
    // s[i - 1] is not a word character, so the run lies beyond the leading run.
    assert !IsWordChar(s[i - 1]);
    assert n <= i - 1;
    var t := s[n..];
    assert Words(s) == [s[..n]] + Words(t);
    assert MaximalRun(t, i - n, j - n);
    SliceOfSuffix(s, n, i - n, j - n);
    MaximalRunIsWord(t, i - n, j - n);
  }

  /** Every word is a maximal run of word characters of the string, at `s[i..j]`. */
  lemma {:induction false} WordIsMaximalRun(s: string, w: string) returns (i: int, j: int)
    requires w in Words(s)
    ensures MaximalRun(s, i, j) && w == s[i..j]
    decreases |s|, 1
  {
    if !IsWordChar(s[0]) {
      i, j := SkippedWordIsMaximalRun(s, w);
    } else if w == s[..RunLength(s)] {
      i, j := 0, RunLength(s);
    } else {
      i, j := LaterWordIsMaximalRun(s, w);
    }
  }

  /** `WordIsMaximalRun` when `s` starts with a non-word character. */
  lemma {:induction false} SkippedWordIsMaximalRun(s: string, w: string) returns (i: int, j: int)
    requires w in Words(s) && !IsWordChar(s[0])
    ensures MaximalRun(s, i, j) && w == s[i..j]
    decreases |s|, 0
  {
    var t := s[1..];
    assert Words(s) == Words(t);
    var i', j' := WordIsMaximalRun(t, w);
    SliceOfSuffix(s, 1, i', j');
    i, j := i' + 1, j' + 1;
  }

  /** `WordIsMaximalRun` for a word after the leading run of `s`. */
  lemma {:induction false} LaterWordIsMaximalRun(s: string, w: string) returns (i: int, j: int)
    requires w in Words(s) && IsWordChar(s[0]) && w != s[..RunLength(s)]
    ensures MaximalRun(s, i, j) && w == s[i..j]
    decreases |s|, 0
  {
    var n := RunLength(s);
    var t := s[n..];
    assert Words(s) == [s[..n]] + Words(t);
    var i', j' := WordIsMaximalRun(t, w);
    // t starts with a non-word character, so no run of t starts at 0.
    assert i' != 0;
    SliceOfSuffix(s, n, i', j');
    i, j := i' + n, j' + n;
  }

  /** The leading run of word characters is the one that stops at the first non-word character. */
  lemma RunLengthIs(s: string, n: nat)
    requires n <= |s| && (n == |s| || !IsWordChar(s[n]))
    requires forall k :: 0 <= k < n ==> IsWordChar(s[k])
    ensures RunLength(s) == n
  {
  }

  /** A non-empty string of word characters is a single word. */
  lemma SingleWord(w: string)
    requires |w| > 0 && AllWordChars(w)
    ensures Words(w) == [w]
  {
    RunLengthIs(w, |w|);
    assert w[..|w|] == w;
    assert w[|w|..] == [];
  }

  /** A non-word character separates: the words of `a + [c] + b` are those of `a`, then those of `b`. */
  lemma {:induction false} WordsSplit(a: string, c: char, b: string)
    requires !IsWordChar(c)
    ensures Words(a + [c] + b) == Words(a) + Words(b)
    decreases |a|
  {
    var s := a + [c] + b;
    if |a| == 0 {
      assert s[1..] == b;
    } else if !IsWordChar(a[0]) {
      assert s[1..] == a[1..] + [c] + b;
      WordsSplit(a[1..], c, b);
    } else {
      var m := RunLength(a);
      assert forall k :: 0 <= k < m ==> s[k] == a[k];
      assert s[m] == if m < |a| then a[m] else c;
      RunLengthIs(s, m);
      assert s[..m] == a[..m];
      assert s[m..] == a[m..] + [c] + b;
      WordsSplit(a[m..], c, b);
    }
  }

  /** Every character of `w` is a word character. */
  predicate AllWordChars(w: string) {
    forall k :: 0 <= k < |w| ==> IsWordChar(w[k])
  }

  /** The words joined by single spaces. */
  function Unwords(ws: seq<string>): string {
    if |ws| == 0 then []
    else if |ws| == 1 then ws[0]
    else ws[0] + [' '] + Unwords(ws[1..])
  }

  /** Splitting words that were joined by spaces gives the words back. */
  lemma {:induction false} WordsOfUnwords(ws: seq<string>)
    requires forall i :: 0 <= i < |ws| ==> |ws[i]| > 0 && AllWordChars(ws[i])
    ensures Words(Unwords(ws)) == ws
  {
    if |ws| == 1 {
      SingleWord(ws[0]);
    } else if |ws| > 1 {
      WordsOfUnwords(ws[1..]);
      WordsSplit(ws[0], ' ', Unwords(ws[1..]));
      SingleWord(ws[0]);
    }
  }

  /** A string without word characters (empty, blank, punctuation) has no words. */
  lemma {:induction false} NoWordCharsNoWords(s: string)
    requires forall k :: 0 <= k < |s| ==> !IsWordChar(s[k])
    ensures Words(s) == []
    decreases |s|
  {
    if |s| > 0 {
      NoWordCharsNoWords(s[1..]);
    }
  }
}
