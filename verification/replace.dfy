/** `String.prototype.replace(pattern, replacement)` with a STRING pattern: only the
    first occurrence is replaced, and the replacement text is expanded the way the
    ECMAScript GetSubstitution operation does it (`$$`, `$&`, `` $` ``, `$'`; a string
    pattern has no capture groups, so every other `$` stays literal). */
module Replace {
  import opened Wrappers
  import opened Text

  /** Index of the first occurrence of `pat` in `s`, if any (the scan `indexOf` does). */
  function FirstIndex(s: string, pat: string): (r: Option<nat>)
    ensures r.Some? ==> r.value + |pat| <= |s|
    decreases |s|
  {
    if pat <= s then Some(0)
    else if |s| == 0 then None
    else
      match FirstIndex(s[1..], pat)
      case None => None
      case Some(i) => Some(i + 1)
  }

  /** The scan finds an occurrence, and no earlier one; when it finds none there is
      none. */
  lemma {:induction false} FirstIndexSpec(s: string, pat: string)
    ensures FirstIndex(s, pat).Some? ==> OccursAt(s, pat, FirstIndex(s, pat).value)
    ensures FirstIndex(s, pat).Some? ==> forall j :: 0 <= j < FirstIndex(s, pat).value ==> !OccursAt(s, pat, j)
    ensures FirstIndex(s, pat).None? ==> forall j :: !OccursAt(s, pat, j)
    decreases |s|
  {
    if pat <= s {
      assert OccursAt(s, pat, 0);
    } else if |s| > 0 {
      FirstIndexSpec(s[1..], pat);
      assert !OccursAt(s, pat, 0);
      forall j | 1 <= j {
        OccursShift(s, pat, j);
      }
    }
  }

  /** The replacement text after `$`-pattern expansion: `matched` is the matched text,
      `before` / `after` the parts of the subject string around the match. */
  function Substitution(repl: string, matched: string, before: string, after: string): string
    decreases |repl|
  {
    if |repl| == 0 then ""
    else if repl[0] == '$' && |repl| >= 2 && repl[1] == '$' then
      "$" + Substitution(repl[2..], matched, before, after)
    else if repl[0] == '$' && |repl| >= 2 && repl[1] == '&' then
      matched + Substitution(repl[2..], matched, before, after)
    else if repl[0] == '$' && |repl| >= 2 && repl[1] == '`' then
      before + Substitution(repl[2..], matched, before, after)
    else if repl[0] == '$' && |repl| >= 2 && repl[1] == '\'' then
      after + Substitution(repl[2..], matched, before, after)
    else
      [repl[0]] + Substitution(repl[1..], matched, before, after)
  }

  /** Without a `$`, the replacement text is used verbatim. */
  lemma {:induction false} SubstitutionPlain(repl: string, matched: string, before: string, after: string)
    requires '$' !in repl
    ensures Substitution(repl, matched, before, after) == repl
    decreases |repl|
  {
    if |repl| > 0 {
      assert repl[0] != '$';
      SubstitutionPlain(repl[1..], matched, before, after);
      assert [repl[0]] + repl[1..] == repl;
    }
  }

  /** `s.replace(pat, repl)`. */
  function ReplaceFirst(s: string, pat: string, repl: string): (r: string)
  {
    match FirstIndex(s, pat)
    case None => s
    case Some(i) => s[..i] + Substitution(repl, pat, s[..i], s[i + |pat|..]) + s[i + |pat|..]
  }

  /** Replacing a pattern that does not occur changes nothing; a plain replacement
      (no `$`) is spliced in place of the FIRST occurrence, and nothing else moves. */
  lemma {:induction false} ReplaceFirstSplices(s: string, pat: string, repl: string)
    ensures !Contains(s, pat) ==> ReplaceFirst(s, pat, repl) == s
    ensures '$' !in repl && Contains(s, pat) ==>
              exists i :: OccursAt(s, pat, i)
                          && (forall j :: 0 <= j < i ==> !OccursAt(s, pat, j))
                          && ReplaceFirst(s, pat, repl) == s[..i] + repl + s[i + |pat|..]
  {
    ContainsIff(s, pat);
    FirstIndexSpec(s, pat);
    match FirstIndex(s, pat)
    case None =>
    case Some(i) =>
      if '$' !in repl {
        PlainSplice(s, pat, repl, i);
        assert OccursAt(s, pat, i)
               && (forall j :: 0 <= j < i ==> !OccursAt(s, pat, j))
               && ReplaceFirst(s, pat, repl) == s[..i] + repl + s[i + |pat|..];
      }
  }

  /** When the text does not start with the pattern's first character, no occurrence
      sits at position 0, so the first character survives the replacement. */
  lemma {:induction false} ReplaceFirstKeepsHead(s: string, pat: string, repl: string)
    requires |s| > 0 && |pat| > 0 && s[0] != pat[0]
    ensures |ReplaceFirst(s, pat, repl)| > 0 && ReplaceFirst(s, pat, repl)[0] == s[0]
  {
    FirstIndexSpec(s, pat);
    match FirstIndex(s, pat)
    case None =>
    case Some(i) =>
      assert s[i] == pat[0];
      var before := s[..i];
      assert before[0] == s[0];
      assert ReplaceFirst(s, pat, repl) == before + (Substitution(repl, pat, before, s[i + |pat|..]) + s[i + |pat|..]);
  }

  /** With no `$` in the replacement, the replacement text is spliced in verbatim at the
      first occurrence. */
  lemma {:induction false} PlainSplice(s: string, pat: string, repl: string, i: nat)
    requires FirstIndex(s, pat) == Some(i) && '$' !in repl
    ensures i + |pat| <= |s|
    ensures ReplaceFirst(s, pat, repl) == s[..i] + repl + s[i + |pat|..]
  {
    SubstitutionPlain(repl, pat, s[..i], s[i + |pat|..]);
  }

  /** Occurrences in `p + q` that start at or after `|p|` are the occurrences in `q`. */
  lemma {:induction false} OccursAfterPrefix(p: string, q: string, pat: string, j: int)
    requires 0 <= j
    ensures OccursAt(p + q, pat, j + |p|) <==> OccursAt(q, pat, j)
  {
    if j + |p| + |pat| <= |p + q| {
      assert (p + q)[j + |p|..j + |p| + |pat|] == q[j..j + |pat|];
    }
  }

  /** No occurrence of `pat` starts inside a prefix that lacks `pat[0]`. */
  lemma {:induction false} NoOccurrenceInPrefix(p: string, q: string, pat: string, j: int)
    requires |pat| > 0 && pat[0] !in p
    requires 0 <= j < |p|
    ensures !OccursAt(p + q, pat, j)
  {
    if j + |pat| <= |p + q| {
      assert (p + q)[j..j + |pat|][0] == p[j];
    }
  }

  /** A prefix that lacks the pattern's first character only shifts where the first
      occurrence is found. */
  lemma {:induction false} FirstIndexAfterPrefix(p: string, q: string, pat: string)
    requires |pat| > 0 && pat[0] !in p
    ensures FirstIndex(q, pat).None? ==> FirstIndex(p + q, pat).None?
    ensures FirstIndex(q, pat).Some? ==> FirstIndex(p + q, pat) == Some(FirstIndex(q, pat).value + |p|)
    decreases |p|
  {
    if |p| == 0 {
      assert p + q == q;
    } else {
      assert !(pat <= p + q) by {
        assert (p + q)[0] == p[0];
      }
      assert (p + q)[1..] == p[1..] + q;
      FirstIndexAfterPrefix(p[1..], q, pat);
    }
  }

  /** When the pattern starts with a character the prefix `p` lacks, the first occurrence
      lies in `q`, so replacing in `p + q` leaves `p` alone. */
  lemma {:induction false} ReplaceFirstSkipsPrefix(p: string, q: string, pat: string, repl: string)
    requires |pat| > 0 && pat[0] !in p
    requires '$' !in repl
    ensures ReplaceFirst(p + q, pat, repl) == p + ReplaceFirst(q, pat, repl)
  {
    FirstIndexAfterPrefix(p, q, pat);
    if FirstIndex(q, pat).Some? {
      SkipsPrefixFound(p, q, pat, repl, FirstIndex(q, pat).value);
    } else {
      PlainAbsent(p + q, pat, repl);
      PlainAbsent(q, pat, repl);
    }
  }

  lemma {:induction false} SkipsPrefixFound(p: string, q: string, pat: string, repl: string, k: nat)
    requires FirstIndex(q, pat) == Some(k) && FirstIndex(p + q, pat) == Some(k + |p|)
    requires '$' !in repl
    ensures ReplaceFirst(p + q, pat, repl) == p + ReplaceFirst(q, pat, repl)
  {
    calc {
      ReplaceFirst(p + q, pat, repl);
      == { PlainSplice(p + q, pat, repl, k + |p|); }
      (p + q)[..k + |p|] + repl + (p + q)[k + |p| + |pat|..];
      == { SpliceAfterPrefix(p, q, repl, k, |pat|); }
      p + (q[..k] + repl + q[k + |pat|..]);
      == { PlainSplice(q, pat, repl, k); }
      p + ReplaceFirst(q, pat, repl);
    }
  }

  lemma {:induction false} PlainAbsent(s: string, pat: string, repl: string)
    requires FirstIndex(s, pat).None?
    ensures ReplaceFirst(s, pat, repl) == s
  {
  }

  lemma {:induction false} SpliceAfterPrefix(p: string, q: string, repl: string, k: nat, m: nat)
    requires k + m <= |q|
    ensures (p + q)[..k + |p|] + repl + (p + q)[k + |p| + m..] == p + (q[..k] + repl + q[k + m..])
  {
    assert (p + q)[..k + |p|] == p + q[..k];
    assert (p + q)[k + |p| + m..] == q[k + m..];
  }

  /** `$&` inserts the matched text, `$$` a single dollar, and a `$` followed by anything
      else (here `$1`, since a string pattern has no groups) is kept literally. */
  lemma {:induction false} SubstitutionPatterns(m: string, b: string, a: string)
    ensures Substitution("[$&]", m, b, a) == "[" + m + "]"
    ensures Substitution("$$", m, b, a) == "$"
    ensures Substitution("$`|$'", m, b, a) == b + "|" + a
    ensures Substitution("$1", m, b, a) == "$1"
  {
    assert "[$&]"[1..] == "$&]" && "$&]"[2..] == "]";
    assert Substitution("]", m, b, a) == "]";
    assert Substitution("$&]", m, b, a) == m + "]";
    assert "$$"[2..] == "";
    assert "$`|$'"[2..] == "|$'" && "|$'"[1..] == "$'" && "$'"[2..] == "";
    assert Substitution("$'", m, b, a) == a;
    assert Substitution("|$'", m, b, a) == "|" + a;
    assert "$1"[1..] == "1";
    assert Substitution("1", m, b, a) == "1";
  }
}
