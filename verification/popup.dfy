/** The popup's decisions: the daily quota gate, the order "gate, count, enhance" of the
    generate action, the improvement label, the new-day reset on opening, and when the
    Next and Make-prompt buttons are enabled. */
module Popup {
  import opened Wrappers
  import opened Text
  import opened Storage
  import opened Enhance

  /** `checkUsageLimit`: `read` is the result of reading the store, `None` when the
      read failed. Pro users always pass; free users pass while under the limit; a
      failed read denies. */
  function CheckUsageLimit(read: Option<Store>): (allowed: bool)
  {
    match read
    case None => false
    case Some(s) => s.Pro() || s.Usage() < FreeDailyLimit
  }

  /** The gate's three cases, each in both directions. */
  lemma {:induction false} UsageLimitCases(read: Option<Store>)
    ensures read.None? ==> !CheckUsageLimit(read)
    ensures read.Some? && read.value.Pro() ==> CheckUsageLimit(read)
    ensures read.Some? && !read.value.Pro() ==> (CheckUsageLimit(read) <==> read.value.Usage() < FreeDailyLimit)
  {
  }

  /** `incrementUsage`: only `dailyUsage` goes up, by one; the lifetime total and the
      day are not touched. */
  function IncrementUsage(s: Store): Store
  {
    Merge(s, EmptyStore.(dailyUsage := Some(s.Usage() + 1)))
  }

  lemma {:induction false} PopupIncrementOnlyDaily(s: Store)
    ensures IncrementUsage(s).Usage() == s.Usage() + 1
    ensures IncrementUsage(s).(dailyUsage := s.dailyUsage) == s
  {
  }

  /** The quota step of `generatePrompt`: the gate, then the count. `None` when the
      use is denied, otherwise the store after counting the use. `readOk` says whether
      the gate's read of the store succeeded. */
  function Admit(s: Store, readOk: bool): (r: Option<Store>)
  {
    if CheckUsageLimit(if readOk then Some(s) else None) then Some(IncrementUsage(s)) else None
  }

  /** What `generatePrompt` leaves behind: the store after the action, and the enhanced
      prompt shown, if any (`None` when the upgrade dialog is shown instead). */
  datatype Outcome = Outcome(store: Store, output: Option<string>)

  /** `generatePrompt`: a denied use shows the upgrade dialog and changes nothing; an
      allowed one is counted, then the prompt is enhanced. */
  function GeneratePrompt(s: Store, readOk: bool, original: string, style: string, custom: string): Outcome
  {
    match Admit(s, readOk)
    case None => Outcome(s, None)
    case Some(counted) => Outcome(counted, Some(EnhancePrompt(original, style, custom)))
  }

  /** A denied use changes nothing and shows nothing; an allowed use is counted exactly
      once and shows the enhanced prompt. */
  lemma {:induction false} GenerateGatesThenCounts(s: Store, readOk: bool, original: string, style: string, custom: string)
    ensures var o := GeneratePrompt(s, readOk, original, style, custom);
            (o.output.None? <==> !readOk || (!s.Pro() && s.Usage() >= FreeDailyLimit))
            && (o.output.None? ==> o.store == s)
            && (o.output.Some? ==>
                  o.store.Usage() == s.Usage() + 1 && o.output.value == EnhancePrompt(original, style, custom))
  {
  }

  /** How many of `n` uses in a row, each with a successful read, are admitted. */
  function Admitted(s: Store, n: nat): nat
    decreases n
  {
    if n == 0 then 0
    else
      match Admit(s, true)
      case None => Admitted(s, n - 1)
      case Some(counted) => 1 + Admitted(counted, n - 1)
  }

  /** A free user gets at most five uses a day: from `s.Usage()` uses so far, `n`
      attempts succeed `min(n, max(0, 5 - s.Usage()))` times. */
  lemma {:induction false} FreeUsesPerDay(s: Store, n: nat)
    requires !s.Pro() && s.Usage() >= 0
    ensures Admitted(s, n)
            == if n < FreeDailyLimit - s.Usage() then n
               else if FreeDailyLimit - s.Usage() > 0 then FreeDailyLimit - s.Usage() else 0
    decreases n
  {
    if n > 0 {
      match Admit(s, true)
      case None =>
        FreeUsesPerDay(s, n - 1);
      case Some(counted) =>
        FreeUsesPerDay(counted, n - 1);
    }
  }

  /** A Pro user is admitted every time. */
  lemma {:induction false} ProUsesUnlimited(s: Store, n: nat)
    requires s.Pro()
    ensures Admitted(s, n) == n
    decreases n
  {
    if n > 0 {
      var counted := IncrementUsage(s);
      assert Admit(s, true) == Some(counted) && counted.Pro();
      ProUsesUnlimited(counted, n - 1);
    }
  }

  // ---------------------------------------------------------------------------
  // Improvement label
  // ---------------------------------------------------------------------------

  datatype Improvement = GreatlyEnhanced | Enhanced | Improved | Refined

  /** `text.trim().split(/\s+/).length`: one more than the number of gaps, so a blank
      text counts as one word. */
  function WordsOf(text: string): nat
  {
    |Split(Trim(text))|
  }

  /** `calculateImprovement`: the first tier that applies. `e > 1.5 * o` is `2e > 3o`
      in integers. */
  function CalculateImprovement(original: string, enhanced: string): Improvement
  {
    var o := WordsOf(original);
    var e := WordsOf(enhanced);
    if e > o * 2 then GreatlyEnhanced
    else if 2 * e > 3 * o then Enhanced
    else if e > o then Improved
    else Refined
  }

  /** Each label in terms of the word ratio alone, both directions. */
  lemma {:induction false} ImprovementTiers(original: string, enhanced: string)
    ensures var o := WordsOf(original);
            var e := WordsOf(enhanced);
            var r := CalculateImprovement(original, enhanced);
            (r == GreatlyEnhanced <==> e > 2 * o)
            && (r == Enhanced <==> 2 * o >= e && 2 * e > 3 * o)
            && (r == Improved <==> 2 * e <= 3 * o && e > o)
            && (r == Refined <==> e <= o)
  {
  }

  /** The word counts are the counts of words, with a blank text counting as one. */
  lemma {:induction false} WordsOfCountsWords(text: string)
    ensures WordsOf(text) == if AllSpace(text) then 1 else CountWords(text)
  {
    var t := Trim(text);
    if AllSpace(text) {
      TrimOfBlank(text);
    } else {
      TrimOfNonBlank(text);
      SplitCountsWords(t);
      TrimKeepsWords(text);
    }
  }

  /** `trim()` removes no word. */
  lemma {:induction false} TrimKeepsWords(text: string)
    ensures CountWords(Trim(text)) == CountWords(text)
  {
    var a := SpanSpace(text);
    var t := text[a..];
    var r := t[..|t| - SpanSpaceEnd(t)];
    TrimParts(text, a, t, r);
    assert Trim(text) == r;
    CountWordsInsideBorder(text, a, r);
  }

  // ---------------------------------------------------------------------------
  // Opening the popup and enabling the buttons
  // ---------------------------------------------------------------------------

  /** The new-day check in `initializeExtension`: a stale or missing day resets the
      count for today; anything else is left alone. */
  function InitializeExtension(s: Store, today: Day): Store
  {
    if !s.Current(today) then Merge(s, ResetKeys(today)) else s
  }

  lemma {:induction false} InitializeResetsStaleDay(s: Store, today: Day)
    ensures InitializeExtension(s, today).Current(today)
    ensures !s.Current(today) ==> InitializeExtension(s, today).Usage() == 0
    ensures s.Current(today) ==> InitializeExtension(s, today) == s
    ensures InitializeExtension(s, today).(dailyUsage := s.dailyUsage, lastUsageDate := s.lastUsageDate) == s
  {
  }

  /** Minimum prompt length (in UTF-16 code units, JavaScript's `length`) before Next
      is enabled. */
  const MinPromptLength := 3

  /** The form state the enable rules act on. */
  datatype Form = Form(original: string, style: string, customStyle: string, nextDisabled: bool, makeDisabled: bool)

  /** `handlePromptInput`: store the raw text; Next is disabled below three code
      units. */
  function HandlePromptInput(f: Form, value: string): Form
  {
    f.(original := value, nextDisabled := Utf16Length(value) < MinPromptLength)
  }

  lemma {:induction false} NextEnabledRule(f: Form, value: string)
    ensures |value| >= MinPromptLength ==> !HandlePromptInput(f, value).nextDisabled
    ensures |value| <= 1 ==> HandlePromptInput(f, value).nextDisabled
    ensures HandlePromptInput(f, value).original == value
  {
  }

  /** `handleStyleSelection`: `selected` is the checked radio's value, `None` when
      none is checked (then nothing changes). `customText` is the custom field's raw
      text. */
  function HandleStyleSelection(f: Form, selected: Option<string>, customText: string): Form
  {
    match selected
    case None => f
    case Some(v) => f.(style := v, makeDisabled := v == "custom" && Trim(customText) == "")
  }

  /** `handleCustomStyleInput`: the trimmed text is stored; Make-prompt is disabled
      exactly when it is empty, whichever style is selected. */
  function HandleCustomStyleInput(f: Form, customText: string): Form
  {
    f.(customStyle := Trim(customText), makeDisabled := Trim(customText) == "")
  }

  lemma {:induction false} MakePromptEnableRules(f: Form, selected: Option<string>, customText: string)
    ensures selected.Some? ==>
              (HandleStyleSelection(f, selected, customText).makeDisabled
               <==> selected.value == "custom" && AllSpace(customText))
    ensures selected.None? ==> HandleStyleSelection(f, selected, customText) == f
    ensures HandleCustomStyleInput(f, customText).makeDisabled <==> AllSpace(customText)
    ensures Trimmed(HandleCustomStyleInput(f, customText).customStyle)
  {
    if AllSpace(customText) {
      TrimOfBlank(customText);
    } else {
      TrimOfNonBlank(customText);
    }
  }
}
