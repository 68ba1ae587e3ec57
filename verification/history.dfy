/** The prompt history and favourites lists: a bounded newest-first history, a
    favourites list without repeated ids, and the read-only views over them (the most
    recent entries, the first favourites, and the past prompts that share words with the
    current one). Identifiers and timestamps are parameters. */
module History {
  import opened Wrappers
  import opened Text

  /** One saved prompt. `favoriteDate` is set only on the copy kept in the favourites. */
  datatype Entry = Entry(
    id: string,
    original: string,
    enhanced: string,
    style: string,
    category: string,
    timestamp: string,
    wordCount: nat,
    improvement: int,
    favoriteDate: Option<string>)

  /** The two lists, newest first. */
  datatype State = State(history: seq<Entry>, favorites: seq<Entry>)

  /** The history keeps at most this many entries. */
  const HistoryLimit := 50

  // ---------------------------------------------------------------------------
  // List helpers: filter, slice, subsequence
  // ---------------------------------------------------------------------------

  /** `s.filter(keep)`: the kept elements, in their order. */
  function Filter<T>(s: seq<T>, keep: T -> bool): (r: seq<T>)
    ensures |r| <= |s|
  {
    if |s| == 0 then []
    else (if keep(s[0]) then [s[0]] else []) + Filter(s[1..], keep)
  }

  /** An element is kept exactly when it is in the list and passes the test. */
  lemma {:induction false} FilterMembers<T>(s: seq<T>, keep: T -> bool, x: T)
    ensures x in Filter(s, keep) <==> x in s && keep(x)
  {
    if |s| > 0 {
      FilterMembers(s[1..], keep, x);
      assert x in s <==> x == s[0] || x in s[1..];
    }
  }

  /** Filtering a concatenation filters each part and keeps them in order. */
  lemma {:induction false} FilterAppend<T>(a: seq<T>, b: seq<T>, keep: T -> bool)
    ensures Filter(a + b, keep) == Filter(a, keep) + Filter(b, keep)
  {
    if |a| > 0 {
      assert (a + b)[0] == a[0];
      assert (a + b)[1..] == a[1..] + b;
      FilterAppend(a[1..], b, keep);
    } else {
      assert a + b == b;
    }
  }

  /** A list whose every element passes is kept whole. */
  lemma {:induction false} FilterAllKept<T>(s: seq<T>, keep: T -> bool)
    requires forall i :: 0 <= i < |s| ==> keep(s[i])
    ensures Filter(s, keep) == s
  {
    if |s| > 0 {
      FilterAllKept(s[1..], keep);
    }
  }

  /** `a` is `b` with some elements left out, the rest in order. */
  predicate IsSubsequence<T(==)>(a: seq<T>, b: seq<T>)
    decreases |b|
  {
    if |a| == 0 then true
    else if |b| == 0 then false
    else (a[0] == b[0] && IsSubsequence(a[1..], b[1..])) || IsSubsequence(a, b[1..])
  }

  lemma {:induction false} FilterIsSubsequence<T>(s: seq<T>, keep: T -> bool)
    ensures IsSubsequence(Filter(s, keep), s)
  {
    if |s| > 0 {
      FilterIsSubsequence(s[1..], keep);
      if keep(s[0]) {
        assert Filter(s, keep) == [s[0]] + Filter(s[1..], keep);
        assert Filter(s, keep)[1..] == Filter(s[1..], keep);
      } else {
        assert Filter(s, keep) == Filter(s[1..], keep);
      }
    }
  }

  /** A prefix of a subsequence is a subsequence. */
  lemma {:induction false} PrefixOfSubsequence<T>(a: seq<T>, b: seq<T>, k: nat)
    requires k <= |a| && IsSubsequence(a, b)
    ensures IsSubsequence(a[..k], b)
    decreases |b|
  {
    if k > 0 {
      if a[0] == b[0] && IsSubsequence(a[1..], b[1..]) {
        PrefixOfSubsequence(a[1..], b[1..], k - 1);
        assert a[..k][1..] == a[1..][..k - 1];
      } else {
        PrefixOfSubsequence(a, b[1..], k);
      }
    }
  }

  /** Where `slice(0, limit)` stops: a negative limit counts back from the end, and the
      end never passes the length. */
  function SliceEnd(len: nat, limit: int): (n: nat)
    ensures n <= len
  {
    if limit < 0 then (if len + limit > 0 then len + limit else 0)
    else if limit < len then limit
    else len
  }

  /** `s.slice(0, limit)`. */
  function Take<T>(s: seq<T>, limit: int): (r: seq<T>)
    ensures |r| == SliceEnd(|s|, limit)
    ensures r == s[..|r|]
  {
    s[..SliceEnd(|s|, limit)]
  }

  // ---------------------------------------------------------------------------
  // Saving a prompt
  // ---------------------------------------------------------------------------

  /** The record `savePrompt` builds. `wordCount` is the number of pieces
      `split(/\s+/)` cuts the untrimmed enhanced text into; a missing category is
      `general`. The improvement score is computed by the caller. */
  function NewEntry(id: string, original: string, enhanced: string, style: string, category: Option<string>,
                    timestamp: string, improvement: int): Entry
  {
    Entry(id, original, enhanced, style, category.GetOr("general"), timestamp, |Split(enhanced)|, improvement, None)
  }

  /** Put the entry in front, and keep only the first fifty when that makes too many. */
  function Push(h: seq<Entry>, e: Entry): seq<Entry>
  {
    var grown := [e] + h;
    if |grown| > HistoryLimit then grown[..HistoryLimit] else grown
  }

  /** `savePrompt`: the new state and the entry it returns. */
  function SavePrompt(st: State, id: string, original: string, enhanced: string, style: string,
                      category: Option<string>, timestamp: string, improvement: int): (State, Entry)
  {
    var e := NewEntry(id, original, enhanced, style, category, timestamp, improvement);
    (st.(history := Push(st.history, e)), e)
  }

  /** The saved entry comes first, followed by the newest of the old entries, fifty at
      most in all; the favourites are not touched. */
  lemma {:induction false} SaveKeepsNewest(st: State, id: string, original: string, enhanced: string, style: string,
                        category: Option<string>, timestamp: string, improvement: int)
    ensures var (r, e) := SavePrompt(st, id, original, enhanced, style, category, timestamp, improvement);
            var n := |r.history|;
            n == (if |st.history| + 1 < HistoryLimit then |st.history| + 1 else HistoryLimit)
            && r.history[0] == e && r.history[1..] == st.history[..n - 1]
            && r.favorites == st.favorites
            && e.id == id && e.original == original && e.enhanced == enhanced && e.favoriteDate.None?
  {
  }

  /** For a trimmed, non-empty enhanced text the recorded word count is its number of
      words. */
  lemma {:induction false} SavedWordCount(enhanced: string, id: string, original: string, style: string, category: Option<string>,
                       timestamp: string, improvement: int)
    requires Trimmed(enhanced) && |enhanced| > 0
    ensures NewEntry(id, original, enhanced, style, category, timestamp, improvement).wordCount == CountWords(enhanced)
  {
    SplitCountsWords(enhanced);
  }

  // ---------------------------------------------------------------------------
  // Favourites
  // ---------------------------------------------------------------------------

  /** `find(p => p.id === id)` as a position: the first entry with that id. */
  function FindById(s: seq<Entry>, id: string): (r: Option<nat>)
    ensures r.Some? ==> r.value < |s| && s[r.value].id == id
                        && forall j :: 0 <= j < r.value ==> s[j].id != id
    ensures r.None? ==> forall j :: 0 <= j < |s| ==> s[j].id != id
  {
    if |s| == 0 then None
    else if s[0].id == id then Some(0)
    else
      match FindById(s[1..], id)
      case None => None
      case Some(i) => Some(i + 1)
  }

  /** No id occurs twice. */
  predicate DistinctIds(s: seq<Entry>)
  {
    forall i, j :: 0 <= i < j < |s| ==> s[i].id != s[j].id
  }

  /** `addToFavorites`: a copy of the history entry, stamped with `now`, goes in front of
      the favourites, unless the id is not in the history or already a favourite. */
  function AddToFavorites(st: State, id: string, now: string): State
  {
    match FindById(st.history, id)
    case None => st
    case Some(i) =>
      if FindById(st.favorites, id).Some? then st
      else st.(favorites := [st.history[i].(favoriteDate := Some(now))] + st.favorites)
  }

  /** The three cases of adding a favourite; the history never changes. */
  lemma {:induction false} AddFavoriteCases(st: State, id: string, now: string)
    ensures AddToFavorites(st, id, now).history == st.history
    ensures (forall j :: 0 <= j < |st.history| ==> st.history[j].id != id) ==> AddToFavorites(st, id, now) == st
    ensures (exists j :: 0 <= j < |st.favorites| && st.favorites[j].id == id) ==> AddToFavorites(st, id, now) == st
    ensures (exists i :: 0 <= i < |st.history| && st.history[i].id == id)
            && (forall j :: 0 <= j < |st.favorites| ==> st.favorites[j].id != id)
            ==> var r := AddToFavorites(st, id, now).favorites;
                |r| == |st.favorites| + 1 && r[1..] == st.favorites
                && r[0].id == id && r[0].favoriteDate == Some(now)
                && r[0] == st.history[FindById(st.history, id).value].(favoriteDate := Some(now))
  {
  }

  /** Adding a favourite never repeats an id. */
  lemma {:induction false} AddFavoriteKeepsDistinct(st: State, id: string, now: string)
    requires DistinctIds(st.favorites)
    ensures DistinctIds(AddToFavorites(st, id, now).favorites)
  {
    var r := AddToFavorites(st, id, now).favorites;
    if r != st.favorites {
      forall i, j | 0 <= i < j < |r|
        ensures r[i].id != r[j].id
      {
        assert r[j] == st.favorites[j - 1];
        if i > 0 {
          assert r[i] == st.favorites[i - 1];
        }
      }
    }
  }

  /** Adding the same favourite again changes nothing. */
  lemma {:induction false} AddFavoriteIdempotent(st: State, id: string, now: string, later: string)
    ensures AddToFavorites(AddToFavorites(st, id, now), id, later) == AddToFavorites(st, id, now)
  {
    var once := AddToFavorites(st, id, now);
    if once != st {
      assert once.favorites[0].id == id;
    }
  }

  /** The favourites without the entries that carry `id`. */
  function Without(s: seq<Entry>, id: string): (r: seq<Entry>)
  {
    Filter(s, (e: Entry) => e.id != id)
  }

  /** `removeFromFavorites`. */
  function RemoveFromFavorites(st: State, id: string): State
  {
    st.(favorites := Without(st.favorites, id))
  }

  /** Exactly the entries with other ids stay, in their order; the history is not
      touched; removing twice is removing once. */
  lemma {:induction false} RemoveFavoriteSpec(st: State, id: string)
    ensures var r := RemoveFromFavorites(st, id);
            r.history == st.history
            && (forall e :: e in r.favorites <==> e in st.favorites && e.id != id)
            && IsSubsequence(r.favorites, st.favorites)
            && RemoveFromFavorites(r, id) == r
  {
    var r := RemoveFromFavorites(st, id);
    forall e
      ensures e in r.favorites <==> e in st.favorites && e.id != id
    {
      FilterMembers(st.favorites, (e: Entry) => e.id != id, e);
    }
    FilterIsSubsequence(st.favorites, (e: Entry) => e.id != id);
    forall i | 0 <= i < |r.favorites|
      ensures r.favorites[i].id != id
    {
      assert r.favorites[i] in r.favorites;
    }
    FilterAllKept(r.favorites, (e: Entry) => e.id != id);
  }

  /** Removing a favourite keeps the ids distinct. */
  lemma {:induction false} WithoutKeepsDistinct(s: seq<Entry>, id: string)
    requires DistinctIds(s)
    ensures DistinctIds(Without(s, id))
  {
    if |s| > 0 {
      assert DistinctIds(s[1..]) by {
        forall i, j | 0 <= i < j < |s| - 1
          ensures s[1..][i].id != s[1..][j].id
        {
          assert s[1..][i] == s[i + 1] && s[1..][j] == s[j + 1];
        }
      }
      WithoutKeepsDistinct(s[1..], id);
      var rest := Without(s[1..], id);
      if s[0].id != id {
        assert Without(s, id) == [s[0]] + rest;
        forall j | 0 <= j < |rest|
          ensures rest[j].id != s[0].id
        {
          assert rest[j] in rest;
          FilterMembers(s[1..], (e: Entry) => e.id != id, rest[j]);
          var k :| 0 <= k < |s[1..]| && s[1..][k] == rest[j];
          assert s[k + 1] == rest[j];
        }
      } else {
        assert Without(s, id) == rest;
      }
    }
  }

  // ---------------------------------------------------------------------------
  // Views
  // ---------------------------------------------------------------------------

  /** `getRecentPrompts(limit = 5)`: `None` is the omitted argument. */
  function GetRecentPrompts(st: State, limit: Option<int>): seq<Entry>
  {
    Take(st.history, limit.GetOr(5))
  }

  /** `getFavorites(limit = 5)`. */
  function GetFavorites(st: State, limit: Option<int>): seq<Entry>
  {
    Take(st.favorites, limit.GetOr(5))
  }

  /** Both views return the newest entries: the first `min(limit, length)` of the list,
      five when no limit is given; a negative limit leaves that many off the end. */
  lemma {:induction false} ViewsAreNewest(st: State, limit: Option<int>)
    ensures var n := limit.GetOr(5);
            var r := GetRecentPrompts(st, limit);
            var f := GetFavorites(st, limit);
            r == st.history[..|r|] && f == st.favorites[..|f|]
            && (n >= 0 ==> |r| == (if n < |st.history| then n else |st.history|)
                           && |f| == (if n < |st.favorites| then n else |st.favorites|))
    ensures limit.None? ==> |GetRecentPrompts(st, limit)| == (if |st.history| < 5 then |st.history| else 5)
    ensures limit.Some? && limit.value < 0 && |st.history| + limit.value >= 0
            ==> GetRecentPrompts(st, limit) == st.history[..|st.history| + limit.value]
  {
  }

  /** The number of the current prompt's tokens (with repeats) that also occur among the
      entry's tokens: `words.filter(w => promptWords.includes(w)).length`. */
  function CommonCount(words: seq<string>, promptWords: seq<string>): (n: nat)
    ensures n <= |words|
  {
    if |words| == 0 then 0
    else (if words[0] in promptWords then 1 else 0) + CommonCount(words[1..], promptWords)
  }

  /** At least two common tokens means two different positions of the current prompt's
      tokens whose words occur in the entry, and the other way round. */
  lemma {:induction false} CommonCountAtLeastTwo(words: seq<string>, promptWords: seq<string>)
    ensures CommonCount(words, promptWords) >= 2
            <==> exists i, j :: 0 <= i < j < |words| && words[i] in promptWords && words[j] in promptWords
  {
    if |words| > 0 {
      CommonCountAtLeastTwo(words[1..], promptWords);
      CommonCountAtLeastOne(words[1..], promptWords);
      var tail := words[1..];
      if CommonCount(words, promptWords) >= 2 {
        if words[0] in promptWords {
          var j :| 0 <= j < |tail| && tail[j] in promptWords;
          assert words[j + 1] == tail[j];
        } else {
          var i, j :| 0 <= i < j < |tail| && tail[i] in promptWords && tail[j] in promptWords;
          assert words[i + 1] == tail[i] && words[j + 1] == tail[j];
        }
      }
      if exists i, j :: 0 <= i < j < |words| && words[i] in promptWords && words[j] in promptWords {
        var i, j :| 0 <= i < j < |words| && words[i] in promptWords && words[j] in promptWords;
        assert tail[j - 1] == words[j];
        if i > 0 {
          assert tail[i - 1] == words[i];
        }
      }
    }
  }

  lemma {:induction false} CommonCountAtLeastOne(words: seq<string>, promptWords: seq<string>)
    ensures CommonCount(words, promptWords) >= 1
            <==> exists i :: 0 <= i < |words| && words[i] in promptWords
  {
    if |words| > 0 {
      CommonCountAtLeastOne(words[1..], promptWords);
      var tail := words[1..];
      if exists i :: 0 <= i < |tail| && tail[i] in promptWords {
        var i :| 0 <= i < |tail| && tail[i] in promptWords;
        assert words[i + 1] == tail[i];
      }
      if exists i :: 0 <= i < |words| && words[i] in promptWords {
        var i :| 0 <= i < |words| && words[i] in promptWords;
        if i > 0 {
          assert tail[i - 1] == words[i];
        }
      }
    }
  }

  /** The entry shares at least two of the current prompt's lower-cased tokens. */
  predicate SimilarTo(words: seq<string>, e: Entry)
  {
    CommonCount(words, Split(Lower(e.original))) >= 2
  }

  /** `getSimilarPrompts(currentPrompt, limit = 3)`. */
  function GetSimilarPrompts(st: State, current: string, limit: Option<int>): seq<Entry>
  {
    var words := Split(Lower(current));
    Take(Filter(st.history, (e: Entry) => SimilarTo(words, e)), limit.GetOr(3))
  }

  /** The similar prompts are history entries in history order, no more than the limit
      (three by default), each sharing two tokens with the current prompt. They are the
      FIRST similar entries of the history: a prefix of all of them, as many as the limit
      allows, and a similar entry is left out only when the limit is reached. */
  lemma {:induction false} SimilarSpec(st: State, current: string, limit: Option<int>)
    ensures var r := GetSimilarPrompts(st, current, limit);
            var words := Split(Lower(current));
            IsSubsequence(r, st.history)
            && (limit.GetOr(3) >= 0 ==> |r| <= limit.GetOr(3))
            && (forall k :: 0 <= k < |r| ==> SimilarTo(words, r[k]))
            && (limit.GetOr(3) >= |st.history| ==>
                  forall e :: e in st.history && SimilarTo(words, e) ==> e in r)
    ensures var r := GetSimilarPrompts(st, current, limit);
            var words := Split(Lower(current));
            var all := Filter(st.history, (e: Entry) => SimilarTo(words, e));
            r == all[..|r|]
            && (limit.GetOr(3) >= 0 ==> |r| == if limit.GetOr(3) < |all| then limit.GetOr(3) else |all|)
    ensures var r := GetSimilarPrompts(st, current, limit);
            var words := Split(Lower(current));
            limit.GetOr(3) >= 0 ==>
              forall e :: e in st.history && SimilarTo(words, e) && e !in r ==> |r| == limit.GetOr(3)
  {
    var words := Split(Lower(current));
    var keep := (e: Entry) => SimilarTo(words, e);
    var all := Filter(st.history, keep);
    var r := GetSimilarPrompts(st, current, limit);
    assert r == Take(all, limit.GetOr(3));
    FilterIsSubsequence(st.history, keep);
    PrefixOfSubsequence(all, st.history, |r|);
    forall k | 0 <= k < |r|
      ensures SimilarTo(words, r[k])
    {
      assert r[k] == all[k] && all[k] in all;
      FilterMembers(st.history, keep, all[k]);
    }
    forall e | e in st.history && SimilarTo(words, e) && e !in r
      ensures |r| < |all| && (limit.GetOr(3) >= 0 ==> |r| == limit.GetOr(3))
    {
      FilterMembers(st.history, keep, e);
      assert all[..|all|] == all;
    }
    if limit.GetOr(3) >= |st.history| {
      assert |all| <= |st.history|;
      assert r == all;
    }
  }
}
