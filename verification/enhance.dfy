/** The enhancement pipeline: trim the prompt, answer a blank one with a fixed request,
    expand a short one (fewer than eight words) with the topic catalog, apply the chosen
    style, and normalise the layout of the result. */
module Enhance {
  import opened Text
  import opened Catalog
  import opened Expand
  import opened Style
  import opened Normalize

  /** Prompts with fewer words than this are expanded before styling. */
  const ExpansionThreshold := 8

  /** `enhancePrompt(originalPrompt, style, customStyle)`. The word count is the number
      of pieces `split(/\s+/)` cuts the trimmed prompt into. */
  function EnhancePrompt(original: string, style: string, custom: string): string
  {
    var clean := Trim(original);
    if clean == "" then EmptyPromptReply
    else
      var expanded := if |Split(clean)| < ExpansionThreshold then AutoExpand(clean) else clean;
      OptimizePrompt(StyleStage(expanded, style, custom))
  }

  /** A prompt of nothing but whitespace gets the fixed request for a prompt. */
  lemma {:induction false} EnhanceBlank(original: string, style: string, custom: string)
    requires AllSpace(original)
    ensures EnhancePrompt(original, style, custom) == EmptyPromptReply
  {
    TrimOfBlank(original);
  }

  /** A prompt of eight words or more is not expanded: the style stage and the
      normaliser work on the trimmed prompt itself. */
  lemma {:induction false} EnhanceLongPrompt(original: string, style: string, custom: string)
    requires CountWords(Trim(original)) >= ExpansionThreshold
    ensures EnhancePrompt(original, style, custom) == OptimizePrompt(StyleStage(Trim(original), style, custom))
  {
    var clean := Trim(original);
    assert |clean| > 0;
    SplitCountsWords(clean);
  }

  /** A prompt of one to seven words is expanded first. */
  lemma {:induction false} EnhanceShortPrompt(original: string, style: string, custom: string)
    requires 0 < CountWords(Trim(original)) < ExpansionThreshold
    ensures EnhancePrompt(original, style, custom) == OptimizePrompt(StyleStage(AutoExpand(Trim(original)), style, custom))
  {
    var clean := Trim(original);
    assert |clean| > 0;
    SplitCountsWords(clean);
  }

  /** Every prompt that is not blank has at least one word, so the two cases above
      cover every non-blank prompt. */
  lemma {:induction false} NonBlankHasWords(original: string)
    requires !AllSpace(original)
    ensures CountWords(Trim(original)) >= 1
  {
    var clean := Trim(original);
    TrimOfNonBlank(original);
    SplitCountsWords(clean);
  }

  /** Whatever the input, the result is trimmed, has no run of three line feeds, puts
      exactly one space between a sentence stop and the capital after it, is non-empty,
      and starts every sentence (the first, and any after `. `) without a small
      letter. */
  lemma {:induction false} EnhanceNormalForm(original: string, style: string, custom: string)
    ensures var r := EnhancePrompt(original, style, custom);
            Trimmed(r) && FewBlankLines(r) && SentencesSpaced(r)
            && |r| > 0 && !IsLower(r[0]) && SentencesCapitalized(r)
  {
    var clean := Trim(original);
    if clean == "" {
      ReplyIsNormal();
    } else {
      var expanded := if |Split(clean)| < ExpansionThreshold then AutoExpand(clean) else clean;
      if |Split(clean)| < ExpansionThreshold {
        AutoExpandHead(clean);
      }
      var styled := StyleStage(expanded, style, custom);
      StyleStageStartsSolid(expanded, style, custom);
      OptimizeNormalForm(styled);
      OptimizeCapitalized(styled);
    }
  }

  /** The fixed reply is already in normal form. */
  lemma ReplyIsNormal()
    ensures Trimmed(EmptyPromptReply) && FewBlankLines(EmptyPromptReply) && SentencesSpaced(EmptyPromptReply)
    ensures |EmptyPromptReply| > 0 && !IsLower(EmptyPromptReply[0]) && SentencesCapitalized(EmptyPromptReply)
  {
    var body := "Please provide a " + "prompt to enhance";
    assert EmptyPromptReply == body + ".";
    ReplyBodyPlain();
    NoNewlineGood(EmptyPromptReply, 0);
    StopOnlyAtEnd(body);
  }

  /** The reply has no line feed and no sentence stop before its final full stop. */
  lemma ReplyBodyPlain()
    ensures forall i :: 0 <= i < |"Please provide a " + "prompt to enhance"| ==>
                          !IsStop(("Please provide a " + "prompt to enhance")[i])
                          && ("Please provide a " + "prompt to enhance")[i] != '\n'
  {
  }

  /** A text without line feeds has no blank lines at all. */
  lemma {:induction false} NoNewlineGood(s: string, k: nat)
    requires k < 3 && forall i :: 0 <= i < |s| ==> s[i] != '\n'
    ensures GoodFrom(s, k)
    decreases |s|
  {
    if |s| > 0 {
      assert Step(k, s[0]) <= k;
      NoNewlineGood(s[1..], Step(k, s[0]));
    }
  }

  /** A capitalised text whose only sentence stop is a final full stop is spaced and
      capitalised. */
  lemma {:induction false} StopOnlyAtEnd(body: string)
    requires |body| > 0 && !IsLower(body[0])
    requires forall i :: 0 <= i < |body| ==> !IsStop(body[i])
    ensures SentencesSpaced(body + ".") && SentencesCapitalized(body + ".")
  {
    var s := body + ".";
    forall p | 0 <= p < |s|
      ensures !BreakAt(s, p)
    {
      if p < |body| {
        assert s[p] == body[p];
      } else {
        assert GapEnd(s, p) == |s|;
      }
    }
    forall q | 0 <= q < |body|
      ensures s[q] != '.'
    {
      assert s[q] == body[q];
    }
  }

  /** `trim()` of whitespace is empty. */
  lemma {:induction false} TrimOfBlank(s: string)
    requires AllSpace(s)
    ensures Trim(s) == ""
  {
    TrimIsSlice(s);
    SpanSpaceRun(s);
    assert SpanSpace(s) == |s|;
  }

  /** `trim()` of a text with a non-space character is not empty. */
  lemma {:induction false} TrimOfNonBlank(s: string)
    requires !AllSpace(s)
    ensures |Trim(s)| > 0
  {
    var a := SpanSpace(s);
    var t := s[a..];
    var r := t[..|t| - SpanSpaceEnd(t)];
    TrimParts(s, a, t, r);
    assert Trim(s) == r;
    SolidInsideBorder(s, a, r);
  }
}
