/** Character classes and the JavaScript string primitives the extension relies on:
    `trim()`, `toLowerCase()`, `split(/\s+/)`, case-insensitive literal search and
    `String.length`. Letters are ASCII letters and whitespace is ASCII whitespace. */
module Text {

  /** JavaScript's `\s` (and what `trim()` removes), restricted to ASCII. */
  predicate IsSpace(c: char)
  {
    c == ' ' || c == '\t' || c == '\n' || c == '\r' || c == '\U{000B}' || c == '\U{000C}'
  }

  predicate IsUpper(c: char) { 'A' <= c <= 'Z' }

  predicate IsLower(c: char) { 'a' <= c <= 'z' }

  function ToUpperChar(c: char): char
  {
    if IsLower(c) then (c as int - 32) as char else c
  }

  function ToLowerChar(c: char): char
  {
    if IsUpper(c) then (c as int + 32) as char else c
  }

  /** `toLowerCase()`: every ASCII capital becomes its small letter, nothing else moves. */
  function Lower(s: string): (r: string)
    ensures |r| == |s|
    ensures forall i :: 0 <= i < |s| ==> r[i] == ToLowerChar(s[i])
    ensures forall i :: 0 <= i < |r| ==> !IsUpper(r[i])
  {
    seq(|s|, i requires 0 <= i < |s| => ToLowerChar(s[i]))
  }

  /** `x` matches the literal `w` under a case-insensitive comparison (`w` is written in
      lower case, as every literal of the original's patterns is). */
  predicate EqualsIgnoringCase(x: string, w: string)
  {
    |x| == |w| && forall i :: 0 <= i < |x| ==> ToLowerChar(x[i]) == w[i]
  }

  /** The character-wise comparison is the comparison of the lower-cased text. */
  lemma {:induction false} EqualsIgnoringCaseIsLower(x: string, w: string)
    ensures EqualsIgnoringCase(x, w) <==> Lower(x) == w
  {
  }

  /** Appending keeps the first character of a non-empty text. */
  lemma {:induction false} HeadOfAppend(a: string, b: string)
    requires |a| > 0
    ensures |a + b| > 0 && (a + b)[0] == a[0]
  {
  }

  predicate AllSpace(s: string)
  {
    forall i :: 0 <= i < |s| ==> IsSpace(s[i])
  }

  predicate NoSpace(s: string)
  {
    forall i :: 0 <= i < |s| ==> !IsSpace(s[i])
  }

  // ---------------------------------------------------------------------------
  // Literal search (an unanchored regex alternative without metacharacters)
  // ---------------------------------------------------------------------------

  /** `w` occurs in `s` starting at index `i`. */
  predicate OccursAt(s: string, w: string, i: int)
  {
    0 <= i && i + |w| <= |s| && s[i..i + |w|] == w
  }

  /** `w` occurs somewhere in `s` (the search a regex engine does for a literal). */
  predicate Contains(s: string, w: string)
    decreases |s|
  {
    w <= s || (|s| > 0 && Contains(s[1..], w))
  }

  /** The scan above finds exactly the occurrences. */
  lemma {:induction false} ContainsIff(s: string, w: string)
    ensures Contains(s, w) <==> exists i :: OccursAt(s, w, i)
    decreases |s|
  {
    if w <= s {
      assert OccursAt(s, w, 0);
    } else if |s| > 0 {
      ContainsIff(s[1..], w);
      if Contains(s[1..], w) {
        var i :| OccursAt(s[1..], w, i);
        OccursShift(s, w, i + 1);
      }
      forall i | OccursAt(s, w, i) ensures OccursAt(s[1..], w, i - 1) {
        OccursShift(s, w, i);
      }
    }
  }

  lemma {:induction false} OccursShift(s: string, w: string, i: int)
    requires |s| > 0 && 1 <= i
    ensures OccursAt(s, w, i) <==> OccursAt(s[1..], w, i - 1)
  {
    if i + |w| <= |s| {
      assert s[1..][i - 1..i - 1 + |w|] == s[i..i + |w|];
    }
  }

  lemma {:induction false} ContainsWitness(s: string, w: string, i: int)
    requires OccursAt(s, w, i)
    ensures Contains(s, w)
  {
    ContainsIff(s, w);
  }

  /** Whatever contains `u + w + v` contains `w`. */
  lemma {:induction false} ContainsInfix(s: string, u: string, w: string, v: string)
    requires Contains(s, u + w + v)
    ensures Contains(s, w)
  {
    ContainsIff(s, u + w + v);
    var i :| OccursAt(s, u + w + v, i);
    var x := u + w + v;
    assert x[|u|..|u| + |w|] == w;
    forall k | 0 <= k < |w| ensures s[i + |u| + k] == w[k] {
      assert s[i..i + |x|][|u| + k] == x[|u| + k];
    }
    assert OccursAt(s, w, i + |u|);
    ContainsIff(s, w);
  }

  /** A character that does not occur in `s` starts no occurrence in `s`. */
  lemma {:induction false} AbsentHeadNotContained(s: string, w: string)
    requires |w| > 0 && w[0] !in s
    ensures !Contains(s, w)
  {
    ContainsIff(s, w);
  }

  // ---------------------------------------------------------------------------
  // Whitespace runs and trim()
  // ---------------------------------------------------------------------------

  /** Length of the maximal whitespace run at the start of `s`. */
  function SpanSpace(s: string): (n: nat)
    ensures n <= |s|
    decreases |s|
  {
    if |s| > 0 && IsSpace(s[0]) then 1 + SpanSpace(s[1..]) else 0
  }

  /** The run `SpanSpace` measures is all whitespace and is maximal. */
  lemma {:induction false} SpanSpaceRun(s: string)
    ensures AllSpace(s[..SpanSpace(s)])
    ensures SpanSpace(s) < |s| ==> !IsSpace(s[SpanSpace(s)])
    decreases |s|
  {
    if |s| > 0 && IsSpace(s[0]) {
      SpanSpaceRun(s[1..]);
      assert s[..SpanSpace(s)] == [s[0]] + s[1..][..SpanSpace(s[1..])];
    }
  }

  /** Length of the maximal non-whitespace run at the start of `s`. */
  function SpanWord(s: string): (n: nat)
    ensures n <= |s|
    decreases |s|
  {
    if |s| > 0 && !IsSpace(s[0]) then 1 + SpanWord(s[1..]) else 0
  }

  /** The run `SpanWord` measures has no whitespace and is maximal. */
  lemma {:induction false} SpanWordRun(s: string)
    ensures NoSpace(s[..SpanWord(s)])
    ensures SpanWord(s) < |s| ==> IsSpace(s[SpanWord(s)])
    decreases |s|
  {
    if |s| > 0 && !IsSpace(s[0]) {
      SpanWordRun(s[1..]);
      assert s[..SpanWord(s)] == [s[0]] + s[1..][..SpanWord(s[1..])];
    }
  }

  /** Length of the maximal whitespace run at the end of `s`. */
  function SpanSpaceEnd(s: string): (n: nat)
    ensures n <= |s|
    decreases |s|
  {
    if |s| > 0 && IsSpace(s[|s| - 1]) then 1 + SpanSpaceEnd(s[..|s| - 1]) else 0
  }

  /** The run `SpanSpaceEnd` measures is all whitespace and is maximal. */
  lemma {:induction false} SpanSpaceEndRun(s: string)
    ensures AllSpace(s[|s| - SpanSpaceEnd(s)..])
    ensures SpanSpaceEnd(s) < |s| ==> !IsSpace(s[|s| - SpanSpaceEnd(s) - 1])
    decreases |s|
  {
    if |s| > 0 && IsSpace(s[|s| - 1]) {
      var n := SpanSpaceEnd(s);
      SpanSpaceEndRun(s[..|s| - 1]);
      assert s[|s| - n..] == s[..|s| - 1][|s| - n..] + [s[|s| - 1]];
    }
  }

  /** No whitespace at either end. */
  predicate Trimmed(s: string)
  {
    |s| == 0 || (!IsSpace(s[0]) && !IsSpace(s[|s| - 1]))
  }

  /** `trim()`: the result is what is left of `s` once whitespace is cut from both ends. */
  function Trim(s: string): (r: string)
    ensures Trimmed(r)
    ensures |r| <= |s|
    ensures exists a :: 0 <= a && a + |r| <= |s| && r == s[a..a + |r|]
                        && AllSpace(s[..a]) && AllSpace(s[a + |r|..])
  {
    var a := SpanSpace(s);
    var t := s[a..];
    var r := t[..|t| - SpanSpaceEnd(t)];
    TrimParts(s, a, t, r);
    r
  }

  lemma {:induction false} TrimParts(s: string, a: nat, t: string, r: string)
    requires a == SpanSpace(s) && t == s[a..] && r == t[..|t| - SpanSpaceEnd(t)]
    ensures Trimmed(r) && |r| <= |s| && a + |r| <= |s| && r == s[a..a + |r|]
    ensures AllSpace(s[..a]) && AllSpace(s[a + |r|..])
  {
    var e := SpanSpaceEnd(t);
    SpanSpaceRun(s);
    SpanSpaceEndRun(t);
    assert s[a + |r|..] == t[|t| - e..];
    if |r| > 0 {
      assert r[0] == t[0] == s[a];
      assert r[|r| - 1] == t[|t| - e - 1];
    }
  }

  /** Cutting a whitespace border off both ends keeps every word. */
  lemma {:induction false} CountWordsInsideBorder(s: string, a: nat, r: string)
    requires a + |r| <= |s| && r == s[a..a + |r|] && AllSpace(s[..a]) && AllSpace(s[a + |r|..])
    ensures CountWords(r) == CountWords(s)
  {
    CountWordsSkipsBlank(s[..a], s[a..]);
    assert s == s[..a] + s[a..];
    CountWordsDropsBlankTail(r, s[a + |r|..]);
    assert s[a..] == r + s[a + |r|..];
  }

  /** Inside a whitespace border lies every non-space character, so the inside of a
      text that is not blank is not empty. */
  lemma {:induction false} SolidInsideBorder(s: string, a: nat, r: string)
    requires a + |r| <= |s| && AllSpace(s[..a]) && AllSpace(s[a + |r|..])
    requires !AllSpace(s)
    ensures |r| > 0
  {
    forall j | 0 <= j < a
      ensures IsSpace(s[j])
    {
      assert s[..a][j] == s[j];
    }
    forall j | a + |r| <= j < |s|
      ensures IsSpace(s[j])
    {
      assert s[a + |r|..][j - a - |r|] == s[j];
    }
  }

  /** `trim()` keeps the piece that starts where the leading whitespace run ends. */
  lemma {:induction false} TrimIsSlice(s: string)
    ensures SpanSpace(s) + |Trim(s)| <= |s| && Trim(s) == s[SpanSpace(s)..SpanSpace(s) + |Trim(s)|]
  {
    var a := SpanSpace(s);
    var t := s[a..];
    TrimParts(s, a, t, t[..|t| - SpanSpaceEnd(t)]);
  }

  /** Text that starts with a non-space character keeps its start under `trim()`. */
  lemma {:induction false} TrimKeepsSolidStart(s: string)
    requires |s| > 0 && !IsSpace(s[0])
    ensures |Trim(s)| > 0 && Trim(s) == s[..|Trim(s)|]
  {
    assert SpanSpace(s) == 0;
    var t := s[0..];
    var r := t[..|t| - SpanSpaceEnd(t)];
    TrimParts(s, 0, t, r);
    assert Trim(s) == r;
    assert !AllSpace(s) by {
      assert !IsSpace(s[0]);
    }
    SolidInsideBorder(s, 0, r);
  }

  /** `trim()` leaves trimmed text alone. */
  lemma {:induction false} TrimOfTrimmed(s: string)
    requires Trimmed(s)
    ensures Trim(s) == s
  {
    assert SpanSpace(s) == 0;
    var t := s[0..];
    assert t == s && SpanSpaceEnd(t) == 0;
    var r := t[..|t| - SpanSpaceEnd(t)];
    TrimParts(s, 0, t, r);
    assert Trim(s) == r;
    assert r == s;
  }

  // ---------------------------------------------------------------------------
  // split(/\s+/) and word counts
  // ---------------------------------------------------------------------------

  /** `s.split(/\s+/)`: cut at every maximal whitespace run. Like JavaScript, a leading
      or trailing run yields an empty piece and the empty string yields `[""]`. */
  function Split(s: string): (pieces: seq<string>)
    ensures |pieces| >= 1
    decreases |s|
  {
    if SpanWord(s) == |s| then [s]
    else [s[..SpanWord(s)]] + Split(s[SpanWord(s) + SpanSpace(s[SpanWord(s)..])..])
  }

  /** No piece of a split holds whitespace. */
  lemma {:induction false} SplitPiecesSolid(s: string)
    ensures forall k :: 0 <= k < |Split(s)| ==> NoSpace(Split(s)[k])
    decreases |s|
  {
    SpanWordRun(s);
    if SpanWord(s) < |s| {
      var n := SpanWord(s);
      var rest := s[n + SpanSpace(s[n..])..];
      SplitPiecesSolid(rest);
      assert Split(s) == [s[..n]] + Split(rest);
    } else {
      assert s[..SpanWord(s)] == s;
    }
  }

  /** The number of maximal non-whitespace runs in `s`. */
  function CountWords(s: string): nat
    decreases |s|
  {
    if |s| == 0 then 0
    else if IsSpace(s[0]) then CountWords(s[1..])
    else 1 + CountWords(s[SpanWord(s)..])
  }

  lemma {:induction false} CountWordsSkipsSpace(s: string)
    ensures CountWords(s) == CountWords(s[SpanSpace(s)..])
    decreases |s|
  {
    if |s| > 0 && IsSpace(s[0]) {
      CountWordsSkipsSpace(s[1..]);
      assert s[1..][SpanSpace(s[1..])..] == s[SpanSpace(s)..];
    }
  }

  /** Leading whitespace adds no word. */
  lemma {:induction false} CountWordsSkipsBlank(p: string, q: string)
    requires AllSpace(p)
    ensures CountWords(p + q) == CountWords(q)
    decreases |p|
  {
    if |p| > 0 {
      assert (p + q)[0] == p[0] && IsSpace(p[0]);
      assert (p + q)[1..] == p[1..] + q;
      assert CountWords(p + q) == CountWords(p[1..] + q);
      assert AllSpace(p[1..]) by {
        forall i | 0 <= i < |p| - 1
          ensures IsSpace(p[1..][i])
        {
          assert p[1..][i] == p[i + 1];
        }
      }
      CountWordsSkipsBlank(p[1..], q);
    } else {
      assert p + q == q;
    }
  }

  /** Trailing whitespace adds no word. */
  lemma {:induction false} CountWordsDropsBlankTail(r: string, t: string)
    requires AllSpace(t)
    ensures CountWords(r + t) == CountWords(r)
    decreases |r|
  {
    if |r| == 0 {
      assert r + t == t + "";
      CountWordsSkipsBlank(t, "");
    } else if IsSpace(r[0]) {
      assert (r + t)[1..] == r[1..] + t;
      CountWordsDropsBlankTail(r[1..], t);
    } else {
      var n := SpanWord(r);
      SpanWordAppend(r, t);
      assert (r + t)[n..] == r[n..] + t;
      CountWordsDropsBlankTail(r[n..], t);
    }
  }

  /** A word ends where it ended before when whitespace (or nothing) follows. */
  lemma {:induction false} SpanWordAppend(r: string, t: string)
    requires AllSpace(t)
    ensures SpanWord(r + t) == SpanWord(r)
    decreases |r|
  {
    if |r| > 0 && !IsSpace(r[0]) {
      assert (r + t)[1..] == r[1..] + t;
      SpanWordAppend(r[1..], t);
    } else if |r| == 0 && |t| > 0 {
      assert (r + t)[0] == t[0];
    }
  }

  /** On trimmed, non-empty text the length of `split(/\s+/)` is the number of words. */
  lemma {:induction false} SplitCountsWords(s: string)
    requires Trimmed(s) && |s| > 0
    ensures |Split(s)| == CountWords(s)
    decreases |s|
  {
    var n := SpanWord(s);
    if n < |s| {
      var k := SpanSpace(s[n..]);
      var rest := s[n + k..];
      assert Trimmed(rest) && |rest| > 0 by {
        TrimmedAfterGap(s, n, k);
      }
      SplitUnfold(s);
      assert |Split(s)| == 1 + |Split(rest)|;
      assert CountWords(s) == 1 + CountWords(rest) by {
        CountWordsPastGap(s, n, k);
      }
      SplitCountsWords(rest);
    } else {
      assert Split(s) == [s];
      assert CountWords(s) == 1 + CountWords(s[n..]);
      assert s[n..] == "";
    }
  }

  /** Counting words from a solid start: one, plus the words after the first word and
      the whitespace that follows it. */
  lemma {:induction false} CountWordsPastGap(s: string, n: nat, k: nat)
    requires |s| > 0 && !IsSpace(s[0])
    requires n == SpanWord(s) && n <= |s| && k == SpanSpace(s[n..])
    ensures n + k <= |s| && CountWords(s) == 1 + CountWords(s[n + k..])
  {
    assert CountWords(s) == 1 + CountWords(s[n..]);
    CountWordsSkipsSpace(s[n..]);
    assert s[n..][k..] == s[n + k..];
  }

  /** In trimmed text, what follows the first word and the whitespace after it is again
      trimmed and non-empty, when the first word is not all of it. */
  lemma {:induction false} TrimmedAfterGap(s: string, n: nat, k: nat)
    requires Trimmed(s) && n == SpanWord(s) && n < |s| && k == SpanSpace(s[n..])
    ensures n + k < |s| && Trimmed(s[n + k..])
  {
    var t := s[n..];
    assert k < |t| by {
      assert t[|t| - 1] == s[|s| - 1];
      SpanSpaceStopsAtSolid(t);
    }
    assert !IsSpace(s[n + k]) by {
      SpanSpaceRun(t);
      assert t[k] == s[n + k];
    }
    assert s[n + k..][0] == s[n + k];
    assert s[n + k..][|s| - n - k - 1] == s[|s| - 1];
  }

  /** A whitespace run cannot cover a text whose last character is not whitespace. */
  lemma {:induction false} SpanSpaceStopsAtSolid(t: string)
    requires |t| > 0 && !IsSpace(t[|t| - 1])
    ensures SpanSpace(t) < |t|
    decreases |t|
  {
    if |t| > 1 && IsSpace(t[0]) {
      assert t[1..][|t| - 2] == t[|t| - 1];
      SpanSpaceStopsAtSolid(t[1..]);
    }
  }

  /** The concatenation of all pieces. */
  function Concat(ps: seq<string>): string
  {
    if |ps| == 0 then "" else ps[0] + Concat(ps[1..])
  }

  /** `s` with its whitespace removed. */
  function Squeeze(s: string): (r: string)
    ensures |r| <= |s|
  {
    if |s| == 0 then ""
    else if IsSpace(s[0]) then Squeeze(s[1..])
    else [s[0]] + Squeeze(s[1..])
  }

  lemma {:induction false} SqueezeAppend(a: string, b: string)
    ensures Squeeze(a + b) == Squeeze(a) + Squeeze(b)
    decreases |a|
  {
    if |a| > 0 {
      assert (a + b)[1..] == a[1..] + b;
      SqueezeAppend(a[1..], b);
    } else {
      assert a + b == b;
    }
  }

  lemma {:induction false} SqueezeOfSolid(s: string)
    requires NoSpace(s)
    ensures Squeeze(s) == s
    decreases |s|
  {
    if |s| > 0 {
      SqueezeOfSolid(s[1..]);
    }
  }

  lemma {:induction false} SqueezeOfSpace(s: string)
    requires AllSpace(s)
    ensures Squeeze(s) == ""
    decreases |s|
  {
    if |s| > 0 {
      SqueezeOfSpace(s[1..]);
    }
  }

  /** Splitting loses exactly the whitespace: gluing the pieces back together gives
      the input with its whitespace removed. */
  lemma {:induction false} SplitLosesOnlySpace(s: string)
    ensures Concat(Split(s)) == Squeeze(s)
    decreases |s|
  {
    var n := SpanWord(s);
    if n == |s| {
      SpanWordRun(s);
      assert s[..n] == s;
      SqueezeOfSolid(s);
    } else {
      var m := n + SpanSpace(s[n..]);
      SplitLosesOnlySpace(s[m..]);
      SplitFirstPiece(s);
      SqueezeFirstWord(s);
    }
  }

  /** Below a whitespace run, `split` emits the leading word and continues after the run. */
  lemma {:induction false} SplitFirstPiece(s: string)
    requires SpanWord(s) < |s|
    ensures Concat(Split(s)) == s[..SpanWord(s)] + Concat(Split(s[SpanWord(s) + SpanSpace(s[SpanWord(s)..])..]))
  {
    var n := SpanWord(s);
    var rest := s[n + SpanSpace(s[n..])..];
    SplitUnfold(s);
    ConcatCons(s[..n], Split(rest));
  }

  lemma {:induction false} SplitUnfold(s: string)
    requires SpanWord(s) < |s|
    ensures Split(s) == [s[..SpanWord(s)]] + Split(s[SpanWord(s) + SpanSpace(s[SpanWord(s)..])..])
  {
  }

  lemma {:induction false} ConcatCons(x: string, xs: seq<string>)
    ensures Concat([x] + xs) == x + Concat(xs)
  {
    assert ([x] + xs)[1..] == xs;
  }

  /** Removing whitespace keeps the leading word and drops the run after it. */
  lemma {:induction false} SqueezeFirstWord(s: string)
    requires SpanWord(s) < |s|
    ensures Squeeze(s) == s[..SpanWord(s)] + Squeeze(s[SpanWord(s) + SpanSpace(s[SpanWord(s)..])..])
  {
    var n := SpanWord(s);
    var k := SpanSpace(s[n..]);
    assert NoSpace(s[..n]) by {
      SpanWordRun(s);
    }
    assert AllSpace(s[n..][..k]) by {
      SpanSpaceRun(s[n..]);
    }
    SliceOfDrop(s, n, k);
    CutInThree(s, n, k);
    SqueezeWordGap(s, s[..n], s[n..n + k], s[n + k..]);
  }

  lemma {:induction false} SliceOfDrop(s: string, n: nat, k: nat)
    requires n + k <= |s|
    ensures s[n..][..k] == s[n..n + k]
  {
  }

  lemma {:induction false} CutInThree(s: string, n: nat, k: nat)
    requires n + k <= |s|
    ensures s == s[..n] + s[n..n + k] + s[n + k..]
  {
  }

  lemma {:induction false} SqueezeWordGap(s: string, w: string, gap: string, rest: string)
    requires s == w + gap + rest
    requires NoSpace(w) && AllSpace(gap)
    ensures Squeeze(s) == w + Squeeze(rest)
  {
    assert Squeeze(w + gap) == w by {
      SqueezeOfSolid(w);
      SqueezeOfSpace(gap);
      SqueezeAppend(w, gap);
    }
    SqueezeAppend(w + gap, rest);
  }

  // ---------------------------------------------------------------------------
  // String.prototype.length
  // ---------------------------------------------------------------------------

  /** `s.length` in JavaScript counts UTF-16 code units: a character outside the Basic
      Multilingual Plane counts twice. */
  function Utf16Length(s: string): (n: nat)
    ensures |s| <= n <= 2 * |s|
  {
    if |s| == 0 then 0
    else (if s[0] as int > 0xFFFF then 2 else 1) + Utf16Length(s[1..])
  }
}
