/** The final clean-up of an enhanced prompt: three global regular-expression
    replacements and a trim, each modelled as the left-to-right scan the regex engine
    performs (try a match at the current position; on a match emit the replacement and
    continue after it, otherwise copy one character). */
module Normalize {
  import opened Text

  // ---------------------------------------------------------------------------
  // Pass 1: /\n\s*\n\s*\n/g -> "\n\n"
  // ---------------------------------------------------------------------------

  /** The number of line feeds in `s`. */
  function Newlines(s: string): nat
    ensures Newlines(s) <= |s|
  {
    if |s| == 0 then 0 else (if s[0] == '\n' then 1 else 0) + Newlines(s[1..])
  }

  /** The position just after the last line feed of `s` (0 when there is none). */
  function AfterLastNewline(s: string): (e: nat)
    ensures e <= |s|
  {
    if |s| == 0 then 0
    else if AfterLastNewline(s[1..]) > 0 then 1 + AfterLastNewline(s[1..])
    else if s[0] == '\n' then 1
    else 0
  }

  /** The pattern matches at the start of `s`: a line feed opens a whitespace run that
      holds at least three line feeds. */
  predicate TripleAt(s: string)
  {
    |s| > 0 && s[0] == '\n' && Newlines(s[..SpanSpace(s)]) >= 3
  }

  /** Where a match at the start of `s` ends. Both `\s*` are greedy, so the match runs
      up to and including the last line feed of the whitespace run. */
  function TripleEnd(s: string): (e: nat)
    requires TripleAt(s)
    ensures 0 < e <= SpanSpace(s)
  {
    var run := s[..SpanSpace(s)];
    LastNewlineFound(run);
    AfterLastNewline(run)
  }

  lemma {:induction false} LastNewlineFound(s: string)
    requires Newlines(s) > 0
    ensures AfterLastNewline(s) > 0
  {
    if AfterLastNewline(s[1..]) == 0 && s[0] != '\n' {
      LastNewlineFound(s[1..]);
    }
  }

  /** `replace(/\n\s*\n\s*\n/g, '\n\n')`. */
  function CollapseBlankLines(s: string): string
    decreases |s|
  {
    if |s| == 0 then ""
    else if TripleAt(s) then "\n\n" + CollapseBlankLines(s[TripleEnd(s)..])
    else [s[0]] + CollapseBlankLines(s[1..])
  }

  // ---------------------------------------------------------------------------
  // "No whitespace run holds three line feeds", as a scan
  // ---------------------------------------------------------------------------

  /** Line feeds seen in the current whitespace run after reading `c`. */
  function Step(k: nat, c: char): nat
  {
    if c == '\n' then k + 1 else if IsSpace(c) then k else 0
  }

  /** Reading `s` with `k` line feeds already in the current whitespace run, no run ever
      reaches three line feeds. */
  predicate GoodFrom(s: string, k: nat)
    decreases |s|
  {
    k < 3 && (|s| == 0 || GoodFrom(s[1..], Step(k, s[0])))
  }

  /** No whitespace run of `s` holds three or more line feeds. */
  predicate FewBlankLines(s: string)
  {
    GoodFrom(s, 0)
  }

  /** The whitespace run at the start of a good text, added to the line feeds already
      seen, stays below three. */
  lemma {:induction false} GoodFromRun(s: string, k: nat)
    requires GoodFrom(s, k)
    ensures k + Newlines(s[..SpanSpace(s)]) <= 2
    decreases |s|
  {
    if |s| > 0 && IsSpace(s[0]) {
      GoodFromRun(s[1..], Step(k, s[0]));
      assert s[..SpanSpace(s)] == [s[0]] + s[1..][..SpanSpace(s[1..])];
      assert ([s[0]] + s[1..][..SpanSpace(s[1..])])[1..] == s[1..][..SpanSpace(s[1..])];
    } else {
      assert s[..SpanSpace(s)] == "";
    }
  }

  /** Fewer line feeds already seen never hurts. */
  lemma {:induction false} GoodFromMono(s: string, k: nat, j: nat)
    requires GoodFrom(s, k) && j <= k
    ensures GoodFrom(s, j)
    decreases |s|
  {
    if |s| > 0 {
      GoodFromMono(s[1..], Step(k, s[0]), Step(j, s[0]));
    }
  }

  lemma {:induction false} GoodFromPrefix(s: string, k: nat, m: nat)
    requires GoodFrom(s, k) && m <= |s|
    ensures GoodFrom(s[..m], k)
    decreases m
  {
    if m > 0 {
      GoodFromPrefix(s[1..], Step(k, s[0]), m - 1);
      assert s[..m][1..] == s[1..][..m - 1];
    }
  }

  lemma {:induction false} GoodFromSuffix(s: string, k: nat, m: nat)
    requires GoodFrom(s, k) && m <= |s|
    ensures GoodFrom(s[m..], 0)
    decreases m
  {
    if m == 0 {
      GoodFromMono(s, k, 0);
    } else {
      GoodFromSuffix(s[1..], Step(k, s[0]), m - 1);
      assert s[1..][m - 1..] == s[m..];
    }
  }

  /** The pattern of pass 1 matches nowhere in a text with few blank lines. */
  lemma {:induction false} FewBlankLinesNoMatch(s: string, i: nat)
    requires FewBlankLines(s) && i < |s|
    ensures !TripleAt(s[i..])
  {
    GoodFromSuffix(s, 0, i);
    GoodFromRun(s[i..], 0);
  }

  /** Pass 1 leaves a text with few blank lines unchanged. */
  lemma {:induction false} CollapseFixed(s: string, k: nat)
    requires GoodFrom(s, k)
    ensures CollapseBlankLines(s) == s
    decreases |s|
  {
    if |s| > 0 {
      GoodFromRun(s, k);
      CollapseFixed(s[1..], Step(k, s[0]));
    }
  }

  /** The whitespace run at the start of `s`, when `s` starts with whitespace, is its first
      character followed by the run at the start of `s[1..]`. */
  lemma {:induction false} RunCons(s: string)
    requires |s| > 0 && IsSpace(s[0])
    ensures Newlines(s[..SpanSpace(s)]) == (if s[0] == '\n' then 1 else 0) + Newlines(s[1..][..SpanSpace(s[1..])])
  {
    var run := s[..SpanSpace(s)];
    assert run == [s[0]] + s[1..][..SpanSpace(s[1..])];
    assert run[1..] == s[1..][..SpanSpace(s[1..])];
  }

  /** A whitespace run shortened at the front is the run of the shortened text. */
  lemma {:induction false} SpanSpaceDrop(s: string, e: nat)
    requires e <= SpanSpace(s)
    ensures SpanSpace(s[e..]) == SpanSpace(s) - e
    decreases e
  {
    if e > 0 {
      SpanSpaceDrop(s[1..], e - 1);
      assert s[1..][e - 1..] == s[e..];
    }
  }

  lemma {:induction false} NoNewlineWithoutLast(s: string)
    requires AfterLastNewline(s) == 0
    ensures Newlines(s) == 0
  {
    if Newlines(s) > 0 {
      LastNewlineFound(s);
      assert false;
    }
  }

  /** Nothing after the last line feed is a line feed. */
  lemma {:induction false} NoNewlineAfterLast(s: string)
    ensures Newlines(s[AfterLastNewline(s)..]) == 0
    decreases |s|
  {
    if |s| > 0 {
      var e := AfterLastNewline(s[1..]);
      if e > 0 {
        NoNewlineAfterLast(s[1..]);
        assert s[1..][e..] == s[AfterLastNewline(s)..];
      } else {
        NoNewlineWithoutLast(s[1..]);
        if s[0] == '\n' {
          assert s[AfterLastNewline(s)..] == s[1..];
        } else {
          assert s[AfterLastNewline(s)..] == s;
        }
      }
    }
  }

  /** After a match of pass 1 the rest of the whitespace run holds no line feed. */
  lemma {:induction false} AfterTriple(s: string)
    requires TripleAt(s)
    ensures Newlines(s[TripleEnd(s)..][..SpanSpace(s[TripleEnd(s)..])]) == 0
  {
    var n := SpanSpace(s);
    var run := s[..n];
    var e := TripleEnd(s);
    SpanSpaceDrop(s, e);
    NoNewlineAfterLast(run);
    assert s[e..][..n - e] == run[e..];
  }

  /** Pass 1 leaves no whitespace run with three line feeds, when the `k` line feeds
      already seen could not have started a match (`k` is 0, or the run continues
      without reaching three). */
  lemma {:induction false} CollapseGood(s: string, k: nat)
    requires k < 3 && (k == 0 || k + Newlines(s[..SpanSpace(s)]) <= 2)
    ensures GoodFrom(CollapseBlankLines(s), k)
    decreases |s|
  {
    if |s| == 0 {
    } else if TripleAt(s) {
      var e := TripleEnd(s);
      var rest := CollapseBlankLines(s[e..]);
      AfterTriple(s);
      CollapseGood(s[e..], 2);
      assert ("\n\n" + rest)[1..] == "\n" + rest;
      assert ("\n" + rest)[1..] == rest;
    } else {
      if IsSpace(s[0]) {
        RunCons(s);
      }
      CollapseGood(s[1..], Step(k, s[0]));
      assert ([s[0]] + CollapseBlankLines(s[1..]))[1..] == CollapseBlankLines(s[1..]);
    }
  }

  /** After pass 1 no whitespace run holds three or more line feeds. */
  lemma {:induction false} CollapseLeavesFewBlankLines(s: string)
    ensures FewBlankLines(CollapseBlankLines(s))
  {
    CollapseGood(s, 0);
  }

  // ---------------------------------------------------------------------------
  // Pass 2: /([.!?])\s*([A-Z])/g -> '$1 $2'
  // ---------------------------------------------------------------------------

  predicate IsStop(c: char)
  {
    c == '.' || c == '!' || c == '?'
  }

  /** The first position after `p` that is not whitespace (or the end): `\s*` is greedy,
      and backing off cannot help since whitespace is not a capital letter. */
  function GapEnd(s: string, p: nat): (j: nat)
    requires p < |s|
    ensures p < j <= |s|
  {
    p + 1 + SpanSpace(s[p + 1..])
  }

  /** The pattern of pass 2 matches at `p`: a sentence stop, whitespace, a capital. */
  predicate BreakAt(s: string, p: int)
  {
    0 <= p < |s| && IsStop(s[p]) && GapEnd(s, p) < |s| && IsUpper(s[GapEnd(s, p)])
  }

  /** `replace(/([.!?])\s*([A-Z])/g, '$1 $2')`: the gap between a sentence stop and the
      capital after it becomes exactly one space. */
  function SpaceSentences(s: string): string
    decreases |s|
  {
    if |s| == 0 then ""
    else if BreakAt(s, 0) then [s[0], ' ', s[GapEnd(s, 0)]] + SpaceSentences(s[GapEnd(s, 0) + 1..])
    else [s[0]] + SpaceSentences(s[1..])
  }

  /** Every sentence stop followed by whitespace and a capital is followed by exactly one
      space and the capital. */
  predicate SentencesSpaced(s: string)
  {
    forall p :: 0 <= p < |s| && BreakAt(s, p) ==> GapEnd(s, p) == p + 2 && s[p + 1] == ' '
  }

  /** Dropping `m` characters from the front moves every gap and match by `m`. */
  lemma {:induction false} BreakShift(s: string, m: nat, p: nat)
    requires m <= p < |s|
    ensures GapEnd(s[m..], p - m) == GapEnd(s, p) - m
    ensures BreakAt(s[m..], p - m) <==> BreakAt(s, p)
  {
    assert s[m..][p - m + 1..] == s[p + 1..];
  }

  lemma {:induction false} SpacedSuffix(s: string, m: nat)
    requires SentencesSpaced(s) && m <= |s|
    ensures SentencesSpaced(s[m..])
  {
    forall q | 0 <= q < |s[m..]| && BreakAt(s[m..], q)
      ensures GapEnd(s[m..], q) == q + 2 && s[m..][q + 1] == ' '
    {
      BreakShift(s, m, q + m);
    }
  }

  /** Pass 2 leaves spaced text unchanged. */
  lemma {:induction false} SpaceSentencesFixed(s: string)
    requires SentencesSpaced(s)
    ensures SpaceSentences(s) == s
    decreases |s|
  {
    if |s| > 0 {
      if BreakAt(s, 0) {
        SpacedSuffix(s, 3);
        SpaceSentencesFixed(s[3..]);
        assert s == [s[0], s[1], s[2]] + s[3..];
      } else {
        SpacedSuffix(s, 1);
        SpaceSentencesFixed(s[1..]);
        assert s == [s[0]] + s[1..];
      }
    }
  }

  /** Pass 2 copies the leading whitespace run and the character after it. */
  lemma {:induction false} SpaceSentencesLeadRun(t: string)
    ensures |SpaceSentences(t)| > 0 <==> |t| > 0
    ensures |t| > 0 ==> SpaceSentences(t)[0] == t[0]
    ensures SpanSpace(SpaceSentences(t)) == SpanSpace(t)
    ensures SpanSpace(t) < |t| ==> SpanSpace(t) < |SpaceSentences(t)| && SpaceSentences(t)[SpanSpace(t)] == t[SpanSpace(t)]
    ensures SpanSpace(t) == |t| ==> |SpaceSentences(t)| == |t|
    decreases |t|
  {
    if |t| > 0 && IsSpace(t[0]) {
      SpaceSentencesLeadRun(t[1..]);
      var y := SpaceSentences(t[1..]);
      assert SpaceSentences(t) == [t[0]] + y;
      assert ([t[0]] + y)[1..] == y;
    }
  }

  /** After pass 2 every sentence stop that whitespace and a capital follow is followed by
      exactly one space. */
  lemma {:induction false} SpaceSentencesSpaced(s: string)
    ensures SentencesSpaced(SpaceSentences(s))
    decreases |s|
  {
    if |s| > 0 {
      if BreakAt(s, 0) {
        var j := GapEnd(s, 0);
        var y := SpaceSentences(s[j + 1..]);
        SpaceSentencesSpaced(s[j + 1..]);
        SpacedAfterMatch(s[0], s[j], y);
      } else {
        var y := SpaceSentences(s[1..]);
        SpaceSentencesSpaced(s[1..]);
        SpaceSentencesLeadRun(s[1..]);
        SpacedAfterCopy(s, y);
      }
    }
  }

  /** A replaced match in front of spaced text gives spaced text. */
  lemma {:induction false} SpacedAfterMatch(stop: char, cap: char, y: string)
    requires IsStop(stop) && IsUpper(cap) && SentencesSpaced(y)
    ensures SentencesSpaced([stop, ' ', cap] + y)
  {
    var x := [stop, ' ', cap] + y;
    assert x[3..] == y;
    assert SpanSpace(x[1..]) == 1 by {
      assert x[1..][1..] == x[2..];
    }
    forall p | 0 <= p < |x| && BreakAt(x, p)
      ensures GapEnd(x, p) == p + 2 && x[p + 1] == ' '
    {
      if p >= 3 {
        BreakShift(x, 3, p);
      }
    }
  }

  /** A copied character in front of the rest of pass 2's output keeps the output spaced:
      a stop is copied only when no capital follows its whitespace, and pass 2 copies
      that whitespace and the character after it. */
  lemma {:induction false} SpacedAfterCopy(s: string, y: string)
    requires |s| > 0 && !BreakAt(s, 0) && SentencesSpaced(y)
    requires y == SpaceSentences(s[1..])
    requires SpanSpace(y) == SpanSpace(s[1..])
    requires SpanSpace(s[1..]) < |s[1..]| ==> SpanSpace(s[1..]) < |y| && y[SpanSpace(s[1..])] == s[1..][SpanSpace(s[1..])]
    requires SpanSpace(s[1..]) == |s[1..]| ==> |y| == SpanSpace(y)
    ensures SentencesSpaced([s[0]] + y)
  {
    var x := [s[0]] + y;
    assert x[1..] == y;
    NoBreakAfterCopy(s, y);
    forall p | 0 <= p < |x| && BreakAt(x, p)
      ensures GapEnd(x, p) == p + 2 && x[p + 1] == ' '
    {
      BreakShift(x, 1, p);
    }
  }

  /** The copied character sees the same gap and the same character after it as it
      did in the input, so it is not a match in the output either. */
  lemma {:induction false} NoBreakAfterCopy(s: string, y: string)
    requires |s| > 0 && !BreakAt(s, 0)
    requires SpanSpace(y) == SpanSpace(s[1..])
    requires SpanSpace(s[1..]) < |s[1..]| ==> SpanSpace(s[1..]) < |y| && y[SpanSpace(s[1..])] == s[1..][SpanSpace(s[1..])]
    requires SpanSpace(s[1..]) == |s[1..]| ==> |y| == SpanSpace(y)
    ensures !BreakAt([s[0]] + y, 0)
  {
    var x := [s[0]] + y;
    assert x[1..] == y;
    var n := SpanSpace(s[1..]);
    assert GapEnd(x, 0) == 1 + n;
    if n < |s[1..]| {
      assert x[1 + n] == y[n] == s[1 + n];
    }
  }

  /** Pass 2 never creates a whitespace run with three line feeds. */
  lemma {:induction false} SpaceSentencesGood(s: string, k: nat)
    requires GoodFrom(s, k)
    ensures GoodFrom(SpaceSentences(s), k)
    decreases |s|
  {
    if |s| > 0 {
      if BreakAt(s, 0) {
        var j := GapEnd(s, 0);
        var y := SpaceSentences(s[j + 1..]);
        GoodFromSuffix(s, k, j + 1);
        SpaceSentencesGood(s[j + 1..], 0);
        var x := [s[0], ' ', s[j]] + y;
        assert x[1..][1..][1..] == y;
      } else {
        SpaceSentencesGood(s[1..], Step(k, s[0]));
        assert ([s[0]] + SpaceSentences(s[1..]))[1..] == SpaceSentences(s[1..]);
      }
    }
  }

  // ---------------------------------------------------------------------------
  // Pass 3: /(^|\. )([a-z])/g -> prefix + upper-cased letter
  // ---------------------------------------------------------------------------

  /** `s[p]` comes right after a full stop and one space. */
  predicate AfterStopSpace(s: string, p: int)
  {
    2 <= p <= |s| && s[p - 2] == '.' && s[p - 1] == ' '
  }

  /** The `\. ([a-z])` alternative, tried at every position left to right. */
  function CapitalizeAfterStops(s: string): string
    decreases |s|
  {
    if |s| >= 3 && s[0] == '.' && s[1] == ' ' && IsLower(s[2]) then
      ['.', ' ', ToUpperChar(s[2])] + CapitalizeAfterStops(s[3..])
    else if |s| == 0 then ""
    else [s[0]] + CapitalizeAfterStops(s[1..])
  }

  /** `replace(/(^|\. )([a-z])/g, ...)`: a small letter at the very start, or after a full
      stop and a space, becomes a capital. Without the `m` flag `^` matches only at
      position 0, where it is tried before the other alternative. */
  function CapitalizeSentences(s: string): string
  {
    if |s| > 0 && IsLower(s[0]) then [ToUpperChar(s[0])] + CapitalizeAfterStops(s[1..])
    else CapitalizeAfterStops(s)
  }

  /** Position `p` starts a sentence for pass 3. */
  predicate SentenceStart(s: string, p: int)
  {
    p == 0 || AfterStopSpace(s, p)
  }

  /** The character pass 3 puts at position `p`. */
  function CapitalizedAt(s: string, p: nat, start: bool): char
    requires p < |s|
  {
    if IsLower(s[p]) && start then ToUpperChar(s[p]) else s[p]
  }

  /** Pass 3 character by character: only small letters right after a full stop and a
      space (the scan's matches never overlap such a letter) become capitals. */
  lemma {:induction false} CapitalizeAfterStopsPointwise(s: string)
    ensures |CapitalizeAfterStops(s)| == |s|
    ensures forall p :: 0 <= p < |s| ==> CapitalizeAfterStops(s)[p] == CapitalizedAt(s, p, AfterStopSpace(s, p))
    decreases |s|
  {
    if |s| >= 3 && s[0] == '.' && s[1] == ' ' && IsLower(s[2]) {
      var y := CapitalizeAfterStops(s[3..]);
      CapitalizeAfterStopsPointwise(s[3..]);
      var x := ['.', ' ', ToUpperChar(s[2])] + y;
      forall p | 3 <= p < |s|
        ensures x[p] == CapitalizedAt(s, p, AfterStopSpace(s, p))
      {
        assert x[p] == y[p - 3];
        assert s[3..][p - 3] == s[p];
        assert AfterStopSpace(s[3..], p - 3) <==> AfterStopSpace(s, p) by {
          if p >= 5 {
            assert s[3..][p - 5] == s[p - 2] && s[3..][p - 4] == s[p - 1];
          }
        }
      }
    } else if |s| > 0 {
      var y := CapitalizeAfterStops(s[1..]);
      CapitalizeAfterStopsPointwise(s[1..]);
      var x := [s[0]] + y;
      forall p | 1 <= p < |s|
        ensures x[p] == CapitalizedAt(s, p, AfterStopSpace(s, p))
      {
        assert x[p] == y[p - 1];
        assert s[1..][p - 1] == s[p];
        if p >= 3 {
          assert AfterStopSpace(s[1..], p - 1) <==> AfterStopSpace(s, p) by {
            assert s[1..][p - 3] == s[p - 2] && s[1..][p - 2] == s[p - 1];
          }
        }
      }
    }
  }

  /** Pass 3 character by character: a small letter at a sentence start becomes a capital,
      and nothing else changes. */
  lemma {:induction false} CapitalizePointwise(s: string)
    ensures |CapitalizeSentences(s)| == |s|
    ensures forall p :: 0 <= p < |s| ==> CapitalizeSentences(s)[p] == CapitalizedAt(s, p, SentenceStart(s, p))
  {
    if |s| > 0 && IsLower(s[0]) {
      var y := CapitalizeAfterStops(s[1..]);
      CapitalizeAfterStopsPointwise(s[1..]);
      var x := [ToUpperChar(s[0])] + y;
      forall p | 1 <= p < |s|
        ensures x[p] == CapitalizedAt(s, p, SentenceStart(s, p))
      {
        assert x[p] == y[p - 1];
        assert s[1..][p - 1] == s[p];
        assert AfterStopSpace(s[1..], p - 1) <==> AfterStopSpace(s, p) by {
          if p >= 3 {
            assert s[1..][p - 3] == s[p - 2] && s[1..][p - 2] == s[p - 1];
          }
        }
      }
    } else {
      CapitalizeAfterStopsPointwise(s);
    }
  }

  /** No sentence of `s` starts with a small letter. */
  predicate SentencesCapitalized(s: string)
  {
    forall p :: 0 <= p < |s| && SentenceStart(s, p) ==> !IsLower(s[p])
  }

  /** After pass 3 no sentence starts with a small letter. */
  lemma {:induction false} CapitalizeEstablishes(s: string)
    ensures SentencesCapitalized(CapitalizeSentences(s))
  {
    var x := CapitalizeSentences(s);
    CapitalizePointwise(s);
    forall p | 0 <= p < |x| && SentenceStart(x, p)
      ensures !IsLower(x[p])
    {
      if p >= 2 {
        assert x[p - 2] == s[p - 2] && x[p - 1] == s[p - 1];
      }
    }
  }

  /** Pass 3 leaves capitalized text unchanged. */
  lemma {:induction false} CapitalizeFixed(s: string)
    requires SentencesCapitalized(s)
    ensures CapitalizeSentences(s) == s
  {
    CapitalizePointwise(s);
  }

  /** `a` and `b` have line feeds and whitespace at the same places. */
  predicate SameLayout(a: string, b: string)
  {
    |a| == |b| && forall p :: 0 <= p < |a| ==> (a[p] == '\n' <==> b[p] == '\n') && (IsSpace(a[p]) <==> IsSpace(b[p]))
  }

  lemma {:induction false} GoodFromLayout(a: string, b: string, k: nat)
    requires SameLayout(a, b) && GoodFrom(a, k)
    ensures GoodFrom(b, k)
    decreases |a|
  {
    if |a| > 0 {
      assert Step(k, a[0]) == Step(k, b[0]);
      GoodFromLayout(a[1..], b[1..], Step(k, a[0]));
    }
  }

  lemma {:induction false} SpanSpaceLayout(a: string, b: string)
    requires |a| == |b| && forall p :: 0 <= p < |a| ==> (IsSpace(a[p]) <==> IsSpace(b[p]))
    ensures SpanSpace(a) == SpanSpace(b)
    decreases |a|
  {
    if |a| > 0 {
      SpanSpaceLayout(a[1..], b[1..]);
    }
  }

  /** Pass 3 only turns letters into letters, so the layout of whitespace is kept. */
  lemma {:induction false} CapitalizeLayout(s: string)
    ensures SameLayout(s, CapitalizeSentences(s))
  {
    CapitalizePointwise(s);
  }

  /** Pass 3 never creates a whitespace run with three line feeds. */
  lemma {:induction false} CapitalizeGood(s: string, k: nat)
    requires GoodFrom(s, k)
    ensures GoodFrom(CapitalizeSentences(s), k)
  {
    CapitalizeLayout(s);
    GoodFromLayout(s, CapitalizeSentences(s), k);
  }

  /** Pass 3 keeps sentences spaced: a letter it capitalizes comes right after a full
      stop and one space, so the gap before it is already a single space. */
  lemma {:induction false} CapitalizeSpaced(s: string)
    requires SentencesSpaced(s)
    ensures SentencesSpaced(CapitalizeSentences(s))
  {
    var x := CapitalizeSentences(s);
    CapitalizePointwise(s);
    forall p | 0 <= p < |x| && BreakAt(x, p)
      ensures GapEnd(x, p) == p + 2 && x[p + 1] == ' '
    {
      assert x[p + 1..] == CapitalizeSentences(s)[p + 1..];
      SpanSpaceLayout(s[p + 1..], x[p + 1..]);
      var j := GapEnd(s, p);
      assert GapEnd(x, p) == j;
      if IsUpper(s[j]) {
        assert BreakAt(s, p);
      } else {
        CapitalizedAfterGap(s, p, j);
      }
    }
  }

  /** A small letter that pass 3 capitalizes at the end of a stop's whitespace gap sits
      two places after the stop, behind a single space. */
  lemma {:induction false} CapitalizedAfterGap(s: string, p: nat, j: nat)
    requires p < |s| && IsStop(s[p]) && j == GapEnd(s, p) && j < |s|
    requires AfterStopSpace(s, j)
    ensures j == p + 2 && s[p + 1] == ' '
  {
    var t := s[p + 1..];
    SpanSpaceRun(t);
    forall i | p + 1 <= i < j
      ensures IsSpace(s[i])
    {
      assert t[..SpanSpace(t)][i - p - 1] == s[i];
    }
  }

  // ---------------------------------------------------------------------------
  // Cutting the ends
  // ---------------------------------------------------------------------------

  /** A whitespace run that stops inside a prefix stops at the same place in the whole
      text. */
  lemma {:induction false} SpanSpacePrefix(t: string, n: nat)
    requires n <= |t| && SpanSpace(t[..n]) < n
    ensures SpanSpace(t) == SpanSpace(t[..n])
    decreases n
  {
    if IsSpace(t[0]) {
      assert t[..n][1..] == t[1..][..n - 1];
      SpanSpacePrefix(t[1..], n - 1);
    }
  }

  lemma {:induction false} SpacedPrefix(s: string, m: nat)
    requires SentencesSpaced(s) && m <= |s|
    ensures SentencesSpaced(s[..m])
  {
    var u := s[..m];
    forall p | 0 <= p < |u| && BreakAt(u, p)
      ensures GapEnd(u, p) == p + 2 && u[p + 1] == ' '
    {
      assert u[p + 1..] == s[p + 1..][..m - p - 1];
      SpanSpacePrefix(s[p + 1..], m - p - 1);
      assert BreakAt(s, p);
    }
  }

  lemma {:induction false} CapitalizedPrefix(s: string, m: nat)
    requires SentencesCapitalized(s) && m <= |s|
    ensures SentencesCapitalized(s[..m])
  {
    var u := s[..m];
    forall p | 0 <= p < |u| && SentenceStart(u, p)
      ensures !IsLower(u[p])
    {
      assert SentenceStart(s, p);
    }
  }

  /** A spaced text has no sentence stop directly followed by a capital. */
  lemma {:induction false} SpacedNoStopBeforeCapital(s: string, p: nat)
    requires SentencesSpaced(s) && p + 1 < |s| && IsStop(s[p])
    ensures !IsUpper(s[p + 1])
  {
    if !IsSpace(s[p + 1]) {
      assert s[p + 1..][0] == s[p + 1];
      assert GapEnd(s, p) == p + 1;
    }
  }

  // ---------------------------------------------------------------------------
  // optimizePrompt
  // ---------------------------------------------------------------------------

  /** The three passes, before the final trim. */
  function Passes(s: string): string
  {
    CapitalizeSentences(SpaceSentences(CollapseBlankLines(s)))
  }

  /** `optimizePrompt`: the three passes in order, then `trim()`. */
  function OptimizePrompt(s: string): (r: string)
    ensures Trimmed(r)
  {
    Trim(Passes(s))
  }

  /** After the three passes no whitespace run holds three line feeds and every
      stop-then-capital gap is a single space. */
  lemma {:induction false} PassesNormalForm(s: string)
    ensures FewBlankLines(Passes(s)) && SentencesSpaced(Passes(s))
  {
    var a := CollapseBlankLines(s);
    var b := SpaceSentences(a);
    CollapseGood(s, 0);
    SpaceSentencesGood(a, 0);
    CapitalizeGood(b, 0);
    SpaceSentencesSpaced(a);
    CapitalizeSpaced(b);
  }

  /** The optimized prompt has no whitespace at either end, no whitespace run with three
      or more line feeds, and every gap between a sentence stop and a capital is a single
      space (so no stop is directly followed by a capital). */
  lemma {:induction false} OptimizeNormalForm(s: string)
    ensures Trimmed(OptimizePrompt(s))
    ensures FewBlankLines(OptimizePrompt(s))
    ensures SentencesSpaced(OptimizePrompt(s))
  {
    PassesNormalForm(s);
    TrimKeepsNormalForm(Passes(s));
  }

  lemma {:induction false} TrimKeepsNormalForm(x: string)
    requires FewBlankLines(x) && SentencesSpaced(x)
    ensures FewBlankLines(Trim(x)) && SentencesSpaced(Trim(x))
  {
    TrimIsSlice(x);
    NormalFormSlice(x, SpanSpace(x), Trim(x));
  }

  /** Both properties survive cutting a piece out of the text. */
  lemma {:induction false} NormalFormSlice(x: string, a: nat, y: string)
    requires FewBlankLines(x) && SentencesSpaced(x) && a + |y| <= |x| && y == x[a..a + |y|]
    ensures FewBlankLines(y) && SentencesSpaced(y)
  {
    GoodFromSuffix(x, 0, a);
    GoodFromPrefix(x[a..], 0, |y|);
    SpacedSuffix(x, a);
    SpacedPrefix(x[a..], |y|);
    assert x[a..][..|y|] == y;
  }

  /** The passes keep the first character, up to capitalizing it. */
  lemma {:induction false} PassesKeepSolidStart(s: string)
    requires |s| > 0 && !IsSpace(s[0])
    ensures |Passes(s)| > 0 && !IsSpace(Passes(s)[0])
  {
    var a := CollapseBlankLines(s);
    var b := SpaceSentences(a);
    assert a[0] == s[0];
    SpaceSentencesLeadRun(a);
    CapitalizePointwise(b);
  }

  /** When the input starts with a non-space character, the trim only cuts the end, so
      the optimized prompt does not start with a small letter, nor does any sentence in
      it. */
  lemma {:induction false} OptimizeCapitalized(s: string)
    requires |s| > 0 && !IsSpace(s[0])
    ensures |OptimizePrompt(s)| > 0 && !IsLower(OptimizePrompt(s)[0])
    ensures SentencesCapitalized(OptimizePrompt(s))
  {
    var x := Passes(s);
    PassesKeepSolidStart(s);
    TrimKeepsSolidStart(x);
    CapitalizeEstablishes(SpaceSentences(CollapseBlankLines(s)));
    CapitalizedPrefix(x, |OptimizePrompt(s)|);
  }

  /** `optimizePrompt` is idempotent on text that does not start with whitespace. */
  lemma {:induction false} OptimizeIdempotent(s: string)
    requires |s| == 0 || !IsSpace(s[0])
    ensures OptimizePrompt(OptimizePrompt(s)) == OptimizePrompt(s)
  {
    var r := OptimizePrompt(s);
    if |s| > 0 {
      OptimizeNormalForm(s);
      OptimizeCapitalized(s);
      CollapseFixed(r, 0);
      SpaceSentencesFixed(r);
      CapitalizeFixed(r);
      TrimOfTrimmed(r);
    } else {
      assert r == "";
    }
  }

  /** Without a solid start the property fails: a leading space hides the first letter
      from pass 3 and is only then trimmed away. */
  lemma OptimizeNeedsSolidStart()
    ensures OptimizePrompt(" a") == "a"
    ensures OptimizePrompt("a") == "A"
  {
    LeadingSpaceKept();
    assert SpanSpace(" a") == 1;
    assert Trim(" a") == "a";
  }

  lemma LeadingSpaceKept()
    ensures Passes(" a") == " a"
  {
    var s := " a";
    assert s[1..] == "a";
    assert CollapseBlankLines(s) == s;
    assert SpaceSentences(s) == s;
  }

  /** The gap rule of pass 2 for any input: a stop, then any whitespace run (a
      paragraph break included), then a capital become the stop, one space and the
      capital, and the scan goes on after the capital. */
  lemma {:induction false} StopGapCapital(stop: char, gap: string, cap: char, y: string)
    requires IsStop(stop) && AllSpace(gap) && IsUpper(cap)
    ensures SpaceSentences([stop] + gap + [cap] + y) == [stop, ' ', cap] + SpaceSentences(y)
  {
    var s := [stop] + gap + [cap] + y;
    assert s[1..] == gap + ([cap] + y);
    SpanSpaceOverRun(gap, [cap] + y);
    assert GapEnd(s, 0) == 1 + |gap|;
    assert s[1 + |gap|] == cap;
    assert BreakAt(s, 0);
    assert s[1 + |gap| + 1..] == y;
  }

  /** A whitespace run in front of a non-space character is exactly what `SpanSpace`
      measures. */
  lemma {:induction false} SpanSpaceOverRun(gap: string, t: string)
    requires AllSpace(gap) && |t| > 0 && !IsSpace(t[0])
    ensures SpanSpace(gap + t) == |gap|
    decreases |gap|
  {
    if |gap| > 0 {
      assert (gap + t)[1..] == gap[1..] + t;
      SpanSpaceOverRun(gap[1..], t);
    } else {
      assert gap + t == t;
    }
  }

  /** An example of `StopGapCapital`: a paragraph break after a full stop becomes a
      single space. */
  lemma ParagraphAfterStopCollapses()
    ensures SpaceSentences("x.\n\nY") == "x. Y"
  {
    var s := "x.\n\nY";
    var t := s[1..];
    var u: string := "\n\nY";
    assert t[1..] == u && u[1..] == "\nY" && u[1..][1..] == "Y";
    assert SpanSpace("Y") == 0;
    assert SpanSpace(u[1..]) == 1;
    assert SpanSpace(u) == 2;
    assert BreakAt(t, 0);
    assert t[4..] == "";
  }
}
