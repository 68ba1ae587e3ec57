/** The expander: topic extraction, placeholder substitution into the chosen template,
    and the word-count tiers used when no template matches. */
module Expand {
  import opened Wrappers
  import opened Text
  import opened Replace
  import opened Catalog
  import opened Classify

  predicate IsSuffix(r: string, s: string)
  {
    |r| <= |s| && r == s[|s| - |r|..]
  }

  /** `w` starts `s` in any letter case and is followed by whitespace: the condition under
      which `^(...|w|...)\s+` (case-insensitive) can use the alternative `w`. */
  predicate LeadsWith(s: string, w: string)
  {
    |w| < |s| && EqualsIgnoringCase(s[..|w|], w) && IsSpace(s[|w|])
  }

  /** `x` is the word `w` (in any letter case) followed by at least one whitespace
      character and nothing else. */
  predicate IsWordThenSpace(x: string, w: string)
  {
    |w| < |x| && EqualsIgnoringCase(x[..|w|], w) && AllSpace(x[|w|..])
  }

  /** `x` is one of `words` followed by whitespace and nothing else. */
  predicate WordThenSpace(x: string, words: seq<string>)
  {
    exists j :: 0 <= j < |words| && IsWordThenSpace(x, words[j])
  }

  /** Going from `s` to its suffix `r` cut nothing, or cut one of `words` and the
      whitespace after it and stopped at a non-space character. */
  predicate CutsOneWord(s: string, r: string, words: seq<string>)
  {
    IsSuffix(r, s)
    && (|r| < |s| ==> WordThenSpace(s[..|s| - |r|], words) && (|r| == 0 || !IsSpace(r[0])))
  }

  /** `s.replace(/^(w1|w2|...)\s+/i, '')`: the first alternative that can start the text is
      removed together with the whole whitespace run after it (`\s+` is greedy). */
  function StripLeadingWord(s: string, words: seq<string>): (r: string)
    ensures IsSuffix(r, s)
    decreases |words|
  {
    if |words| == 0 then s
    else if LeadsWith(s, words[0]) then
      var rest := s[|words[0]|..];
      rest[SpanSpace(rest)..]
    else
      StripLeadingWord(s, words[1..])
  }

  /** What the strip removes is one of the words and the whitespace after it, and what
      it leaves starts with a non-space character. */
  lemma {:induction false} StripLeadingWordCut(s: string, words: seq<string>)
    ensures CutsOneWord(s, StripLeadingWord(s, words), words)
    decreases |words|
  {
    if |words| == 0 {
    } else if LeadsWith(s, words[0]) {
      var w := words[0];
      var k := SpanSpace(s[|w|..]);
      assert StripLeadingWord(s, words) == s[|w| + k..] by {
        assert s[|w|..][k..] == s[|w| + k..];
      }
      StripOneWord(s, w, k);
      assert s[..|s| - |s[|w| + k..]|] == s[..|w| + k];
      assert IsWordThenSpace(s[..|w| + k], words[0]);
    } else {
      var r := StripLeadingWord(s, words[1..]);
      StripLeadingWordCut(s, words[1..]);
      assert StripLeadingWord(s, words) == r;
      if |r| < |s| {
        var j :| 0 <= j < |words[1..]| && IsWordThenSpace(s[..|s| - |r|], words[1..][j]);
        assert IsWordThenSpace(s[..|s| - |r|], words[j + 1]);
      }
    }
  }

  /** Cutting a leading word and the whitespace run after it cuts a word-then-space
      text and stops at a non-space character. */
  lemma {:induction false} StripOneWord(s: string, w: string, k: nat)
    requires LeadsWith(s, w) && k == SpanSpace(s[|w|..])
    ensures |w| + k <= |s| && IsWordThenSpace(s[..|w| + k], w)
    ensures |w| + k < |s| ==> !IsSpace(s[|w| + k])
  {
    var rest := s[|w|..];
    SpanSpaceRun(rest);
    assert AllSpace(s[..|w| + k][|w|..]) by {
      assert s[..|w| + k][|w|..] == rest[..k];
    }
    assert s[..|w| + k][..|w|] == s[..|w|];
    assert 0 < k by {
      assert IsSpace(rest[0]);
    }
    if |w| + k < |s| {
      assert rest[k] == s[|w| + k];
    }
  }

  /** The strip changes the text exactly when one of the words leads it. */
  lemma {:induction false} StripLeadingWordChanges(s: string, words: seq<string>)
    ensures StripLeadingWord(s, words) == s <==> forall i :: 0 <= i < |words| ==> !LeadsWith(s, words[i])
    decreases |words|
  {
    if |words| > 0 && !LeadsWith(s, words[0]) {
      StripLeadingWordChanges(s, words[1..]);
      forall i | 0 <= i < |words| && LeadsWith(s, words[i]) ensures StripLeadingWord(s, words) != s {
        assert words[1..][i - 1] == words[i];
      }
    }
  }

  /** What two strip passes with word lists `first` and then `second` may cut from the
      front of a text: nothing, a word of either list, or a word of `first` and then a
      word of `second`, each with the whitespace that follows it. */
  predicate CutShape(cut: string, first: seq<string>, second: seq<string>)
  {
    || cut == ""
    || WordThenSpace(cut, first)
    || WordThenSpace(cut, second)
    || exists k :: 0 < k < |cut| && WordThenSpace(cut[..k], first) && WordThenSpace(cut[k..], second)
  }

  /** The two strip passes of `extractTopic`, before the empty-result fallback. */
  function StripBoth(prompt: string): (r: string)
    ensures IsSuffix(r, prompt)
  {
    StripLeadingWord(StripLeadingWord(prompt, TriggerWords), Articles)
  }

  /** `extractTopic`: strip at most one leading trigger word and then at most one leading
      article (each only when whitespace follows it); if nothing is left, keep the prompt.
      The topic is a suffix of the prompt, so it keeps the prompt's letter case. */
  function ExtractTopic(prompt: string): (topic: string)
    ensures IsSuffix(topic, prompt)
  {
    var twice := StripBoth(prompt);
    if twice == "" then prompt else twice
  }

  /** A non-empty prompt never yields an empty topic. */
  lemma {:induction false} ExtractTopicNonEmpty(prompt: string)
    ensures |prompt| > 0 ==> |ExtractTopic(prompt)| > 0
  {
  }

  /** What `extractTopic` removes is nothing, a trigger word, an article, or a trigger word
      followed by an article, each with the whitespace after it. */
  lemma {:induction false} ExtractTopicCut(prompt: string)
    ensures CutShape(prompt[..|prompt| - |ExtractTopic(prompt)|], TriggerWords, Articles)
  {
    if StripBoth(prompt) == "" {
      assert prompt[..0] == "";
    } else {
      StripTwiceShape(prompt, TriggerWords, Articles);
    }
  }

  /** The topic of a trimmed prompt is trimmed: the cuts stop at a non-space character. */
  lemma {:induction false} ExtractTopicTrimmed(prompt: string)
    requires Trimmed(prompt)
    ensures Trimmed(ExtractTopic(prompt))
  {
    var twice := StripBoth(prompt);
    if twice != "" {
      StripTwiceShape(prompt, TriggerWords, Articles);
      assert twice[|twice| - 1] == prompt[|prompt| - 1];
    }
  }

  /** Two strip passes cut a `CutShape` and leave a text that starts solid. */
  lemma {:induction false} StripTwiceShape(s: string, first: seq<string>, second: seq<string>)
    ensures CutShape(s[..|s| - |StripLeadingWord(StripLeadingWord(s, first), second)|], first, second)
    ensures 0 < |StripLeadingWord(StripLeadingWord(s, first), second)| < |s| ==>
              !IsSpace(StripLeadingWord(StripLeadingWord(s, first), second)[0])
  {
    var once := StripLeadingWord(s, first);
    var twice := StripLeadingWord(once, second);
    StripLeadingWordCut(s, first);
    StripLeadingWordCut(once, second);
    CutsCompose(s, once, twice, first, second);
  }

  /** Two consecutive cuts from the front of `s`, each either empty or a word of its list
      and the whitespace after it, together make a `CutShape`. */
  lemma {:induction false} CutsCompose(s: string, once: string, twice: string, first: seq<string>, second: seq<string>)
    requires CutsOneWord(s, once, first) && CutsOneWord(once, twice, second)
    ensures CutShape(s[..|s| - |twice|], first, second)
    ensures 0 < |twice| < |s| ==> !IsSpace(twice[0])
  {
    var cut := s[..|s| - |twice|];
    if |twice| < |once| < |s| {
      var k := |s| - |once|;
      assert cut[..k] == s[..|s| - |once|];
      assert cut[k..] == once[..|once| - |twice|];
      assert 0 < k < |cut| && WordThenSpace(cut[..k], first) && WordThenSpace(cut[k..], second);
    } else if |once| < |s| {
      assert twice == once;
      assert WordThenSpace(cut, first);
    } else if |twice| < |once| {
      assert once == s;
      assert cut == once[..|once| - |twice|];
      assert WordThenSpace(cut, second);
    } else {
      assert |cut| == 0;
    }
  }

  /** `expandWithTemplate`: substitute the topic, then the detected audience, then the
      detected tone, each with a first-occurrence `replace`. */
  function ExpandWithTemplate(prompt: string, t: Topic): string
  {
    Fill(TemplateText(t), ExtractTopic(prompt), DetectAudience(prompt), DetectTone(prompt))
  }

  /** The three first-occurrence substitutions, in order. */
  function Fill(text: string, topic: string, audience: string, tone: string): string
  {
    FillRest(ReplaceFirst(text, TopicSlot, topic), audience, tone)
  }

  /** The text after the topic placeholder with its audience and tone placeholders (if
      any) filled in. */
  function FillRest(rest: string, audience: string, tone: string): string
  {
    ReplaceFirst(ReplaceFirst(rest, AudienceSlot, audience), ToneSlot, tone)
  }

  /** For a prompt without `$` and `{`, the expansion is the template's lead-in, the
      extracted topic verbatim, and the rest of the template with the audience and tone
      filled in: the topic lands where `{topic}` was and nothing in it is reinterpreted. */
  lemma {:induction false} ExpandWithTemplateShape(prompt: string, t: Topic)
    requires '$' !in prompt && '{' !in prompt
    ensures ExpandWithTemplate(prompt, t)
            == Lead(t) + ExtractTopic(prompt) + FillRest(Rest(t), DetectAudience(prompt), DetectTone(prompt))
  {
    var topic := ExtractTopic(prompt);
    var audience := DetectAudience(prompt);
    var tone := DetectTone(prompt);
    var lead := Lead(t);
    var rest := Rest(t);
    SuffixLacks(topic, prompt, '$');
    SuffixLacks(topic, prompt, '{');
    LeadLacksBrace(t);
    LabelsArePlain(prompt);
    calc {
      ExpandWithTemplate(prompt, t);
      { FillTopic(lead, rest, topic); }
      ReplaceFirst(ReplaceFirst(lead + topic + rest, AudienceSlot, audience), ToneSlot, tone);
      { FillAfterPrefix(lead + topic, rest, audience, tone); }
      lead + topic + FillRest(rest, audience, tone);
    }
  }

  /** A character missing from a text is missing from each of its suffixes. */
  lemma {:induction false} SuffixLacks(r: string, s: string, c: char)
    requires IsSuffix(r, s) && c !in s
    ensures c !in r
  {
    forall i | 0 <= i < |r|
      ensures r[i] != c
    {
      assert r[i] == s[|s| - |r| + i];
    }
  }

  /** With a lead-in free of `{`, the topic placeholder is the first one, and a topic
      without `$` is inserted verbatim. */
  lemma {:induction false} FillTopic(lead: string, rest: string, topic: string)
    requires '{' !in lead && '$' !in topic
    ensures ReplaceFirst(lead + TopicSlot + rest, TopicSlot, topic) == lead + topic + rest
  {
    var tail := TopicSlot + rest;
    assert lead + TopicSlot + rest == lead + tail;
    ReplaceFirstSkipsPrefix(lead, tail, TopicSlot, topic);
    assert FirstIndex(tail, TopicSlot) == Some(0);
    PlainSplice(tail, TopicSlot, topic, 0);
    assert tail[|TopicSlot|..] == rest;
  }

  /** Filling the audience and tone never touches a prefix free of `{`. */
  lemma {:induction false} FillAfterPrefix(p: string, rest: string, audience: string, tone: string)
    requires '{' !in p && '$' !in audience && '$' !in tone
    ensures FillRest(p + rest, audience, tone) == p + FillRest(rest, audience, tone)
  {
    ReplaceFirstSkipsPrefix(p, rest, AudienceSlot, audience);
    ReplaceFirstSkipsPrefix(p, ReplaceFirst(rest, AudienceSlot, audience), ToneSlot, tone);
  }

  /** No audience or tone label holds a `$`. */
  lemma {:induction false} LabelsArePlain(prompt: string)
    ensures '$' !in DetectAudience(prompt) && '$' !in DetectTone(prompt)
  {
    AudienceIsPlain(prompt);
    ToneIsPlain(prompt);
  }

  lemma {:induction false} AudienceIsPlain(prompt: string)
    ensures '$' !in DetectAudience(prompt)
  {
    match FirstMatch(prompt, Audiences, (l: Label) => l.pattern)
    case None =>
      assert DetectAudience(prompt) == DefaultAudience;
    case Some(i) =>
      assert DetectAudience(prompt) == Audiences[i].name;
      LabelNamePlain(Audiences, i);
  }

  lemma {:induction false} ToneIsPlain(prompt: string)
    ensures '$' !in DetectTone(prompt)
  {
    match FirstMatch(prompt, Tones, (l: Label) => l.pattern)
    case None =>
      assert DetectTone(prompt) == DefaultTone;
    case Some(i) =>
      assert DetectTone(prompt) == Tones[i].name;
      LabelNamePlain(Tones, i);
  }

  /** No label of either table has a `$` in its name. */
  lemma {:induction false} LabelNamePlain(table: seq<Label>, i: nat)
    requires table == Audiences || table == Tones
    requires i < |table|
    ensures '$' !in table[i].name
  {
    var name := table[i].name;
    assert forall k :: 0 <= k < |name| ==> name[k] != '$';
  }

  /** The three framings `expandGeneric` chooses between. */
  datatype Framing = Overview | Detailed | Elaborate

  /** The framing for a prompt that `split(/\s+/)` cuts into `pieces` pieces. */
  function FramingFor(pieces: nat): (f: Framing)
    ensures f == Overview <==> pieces <= 3
    ensures f == Elaborate <==> pieces > 6
  {
    if pieces <= 3 then Overview else if pieces <= 6 then Detailed else Elaborate
  }

  /** The prompt inside one of the fixed framings. */
  function Frame(f: Framing, prompt: string): string
  {
    FrameLead(f) + prompt + FrameTail(f)
  }

  /** The text a framing puts before the prompt: only the overview has one. */
  function FrameLead(f: Framing): string
  {
    if f == Overview then OverviewLead else ""
  }

  /** The request a framing puts after the prompt. */
  function FrameTail(f: Framing): string
  {
    match f
    case Overview => OverviewTail
    case Detailed => DetailTail
    case Elaborate => ElaborateTail
  }

  /** `expandGeneric`: the fallback when no template matches. */
  function ExpandGeneric(prompt: string): string
  {
    Frame(FramingFor(|Split(prompt)|), prompt)
  }

  /** On a trimmed non-empty prompt the framing is chosen by the number of words: up to
      three words get the overview, four to six the detailed request, more the short
      request to elaborate. */
  lemma {:induction false} ExpandGenericByWords(prompt: string)
    requires Trimmed(prompt) && |prompt| > 0
    ensures ExpandGeneric(prompt) == Frame(FramingFor(CountWords(prompt)), prompt)
  {
    SplitCountsWords(prompt);
  }

  /** Every framing keeps the prompt verbatim. */
  lemma {:induction false} FrameKeepsPrompt(f: Framing, prompt: string)
    ensures Contains(Frame(f, prompt), prompt)
  {
    var r := Frame(f, prompt);
    var at := |FrameLead(f)|;
    assert r[at..at + |prompt|] == prompt;
    ContainsWitness(r, prompt, at);
  }

  /** `autoExpandPrompt`: the first template whose pattern matches the lower-cased prompt
      expands it; with no match the generic expansion is used. */
  function AutoExpand(prompt: string): string
  {
    match FindTemplate(prompt)
    case None => ExpandGeneric(prompt)
    case Some(i) => ExpandWithTemplate(prompt, Expansions[i])
  }

  /** The template used is the first, in catalog order, whose pattern matches. */
  lemma {:induction false} AutoExpandPicksFirstMatch(prompt: string, i: nat)
    requires i < |Expansions| && PatternMatches(Lower(prompt), Expansions[i].Pattern())
    requires forall j :: 0 <= j < i ==> !PatternMatches(Lower(prompt), Expansions[j].Pattern())
    ensures AutoExpand(prompt) == ExpandWithTemplate(prompt, Expansions[i])
  {
    var r := FindTemplate(prompt);
    assert r.Some? && r.value == i;
  }

  /** When no pattern matches, the generic expansion is used. */
  lemma {:induction false} AutoExpandFallsBack(prompt: string)
    requires forall j :: 0 <= j < |Expansions| ==> !PatternMatches(Lower(prompt), Expansions[j].Pattern())
    ensures AutoExpand(prompt) == ExpandGeneric(prompt)
  {
    assert FindTemplate(prompt).None?;
  }

  /** A template expansion starts with the capital letter its template text starts
      with: the placeholders all start with `{`, so no substitution happens at the
      front. */
  lemma {:induction false} ExpandWithTemplateHead(prompt: string, t: Topic)
    ensures |ExpandWithTemplate(prompt, t)| > 0 && IsUpper(ExpandWithTemplate(prompt, t)[0])
  {
    FilledTemplateStartsUpper(t, ExtractTopic(prompt), DetectAudience(prompt), DetectTone(prompt));
  }

  /** Whatever is filled in, a template text keeps its leading capital. */
  lemma {:induction false} FilledTemplateStartsUpper(t: Topic, topic: string, audience: string, tone: string)
    ensures |Fill(TemplateText(t), topic, audience, tone)| > 0
    ensures IsUpper(Fill(TemplateText(t), topic, audience, tone)[0])
  {
    TemplateStartsUpper(t);
    FillKeepsUpperHead(TemplateText(t), topic, audience, tone);
  }

  lemma {:induction false} FillKeepsUpperHead(text: string, topic: string, audience: string, tone: string)
    requires |text| > 0 && IsUpper(text[0])
    ensures |Fill(text, topic, audience, tone)| > 0 && IsUpper(Fill(text, topic, audience, tone)[0])
  {
    FillKeepsHead(text, topic, audience, tone);
  }

  /** Filling the three placeholders keeps the first character of a text that does not
      start with `{`. */
  lemma {:induction false} FillKeepsHead(text: string, topic: string, audience: string, tone: string)
    requires |text| > 0 && text[0] != '{'
    ensures |Fill(text, topic, audience, tone)| > 0 && Fill(text, topic, audience, tone)[0] == text[0]
  {
    var withTopic := ReplaceFirst(text, TopicSlot, topic);
    ReplaceFirstKeepsHead(text, TopicSlot, topic);
    var withAudience := ReplaceFirst(withTopic, AudienceSlot, audience);
    ReplaceFirstKeepsHead(withTopic, AudienceSlot, audience);
    ReplaceFirstKeepsHead(withAudience, ToneSlot, tone);
  }

  /** The generic expansion of a prompt that starts with a non-space character starts
      with a non-space character: the overview lead-in, or the prompt itself. */
  lemma {:induction false} ExpandGenericHead(prompt: string)
    requires |prompt| > 0 && !IsSpace(prompt[0])
    ensures |ExpandGeneric(prompt)| > 0 && !IsSpace(ExpandGeneric(prompt)[0])
  {
    var f := FramingFor(|Split(prompt)|);
    var lead := FrameLead(f);
    FrameLeadHead(f);
    assert Frame(f, prompt) == lead + (prompt + FrameTail(f));
    assert Frame(f, prompt)[0] == if |lead| > 0 then lead[0] else prompt[0];
  }

  /** The overview lead-in starts with a capital letter. */
  lemma {:induction false} FrameLeadHead(f: Framing)
    ensures |FrameLead(f)| == 0 || FrameLead(f)[0] == 'P'
  {
  }

  /** The auto-expansion of a prompt that starts with a non-space character starts with
      a non-space character. */
  lemma {:induction false} AutoExpandHead(prompt: string)
    requires |prompt| > 0 && !IsSpace(prompt[0])
    ensures |AutoExpand(prompt)| > 0 && !IsSpace(AutoExpand(prompt)[0])
  {
    var found := FindTemplate(prompt);
    if found.None? {
      ExpandGenericHead(prompt);
    } else {
      var t := Expansions[found.value];
      assert AutoExpand(prompt) == ExpandWithTemplate(prompt, t);
      ExpandWithTemplateHead(prompt, t);
    }
  }

  /** Every template text starts with the capital letter of its lead-in. */
  lemma {:induction false} TemplateStartsUpper(t: Topic)
    ensures |TemplateText(t)| > 0 && IsUpper(TemplateText(t)[0])
  {
    TemplateNonEmpty(t);
    TemplateHeadUpper(t);
  }

  lemma {:induction false} TemplateNonEmpty(t: Topic)
    ensures |TemplateText(t)| > 0
  {
    LeadStartsUpper(t);
    SlottedHead(Lead(t), Rest(t));
  }

  lemma {:induction false} TemplateHeadUpper(t: Topic)
    ensures IsUpper(TemplateText(t)[0])
  {
    LeadStartsUpper(t);
    SlottedHead(Lead(t), Rest(t));
  }

  /** A lead-in's capital stays in front of the placeholder and the rest. */
  lemma {:induction false} SlottedHead(lead: string, rest: string)
    requires |lead| > 0 && IsUpper(lead[0])
    ensures |lead + TopicSlot + rest| > 0 && IsUpper((lead + TopicSlot + rest)[0])
  {
    HeadOfAppend(lead, TopicSlot + rest);
    assert lead + TopicSlot + rest == lead + (TopicSlot + rest);
  }

  /** Every lead-in starts with a capital letter. */
  lemma {:induction false} LeadStartsUpper(t: Topic)
    ensures |Lead(t)| > 0 && IsUpper(Lead(t)[0])
  {
  }

  /** No template text has a `{` before its topic placeholder. */
  lemma {:induction false} LeadLacksBrace(t: Topic)
    ensures '{' !in Lead(t)
  {
    match t
    case Blog => BlogLeadLacksBrace();
    case Email => EmailLeadLacksBrace();
    case Explain => ExplainLeadLacksBrace();
    case Compare => CompareLeadLacksBrace();
    case Solve => SolveLeadLacksBrace();
    case Design => DesignLeadLacksBrace();
    case Research => ResearchLeadLacksBrace();
    case Learn => LearnLeadLacksBrace();
    case Social => SocialLeadLacksBrace();
    case Twitter => TwitterLeadLacksBrace();
    case Linkedin => LinkedinLeadLacksBrace();
    case Business => BusinessLeadLacksBrace();
    case Proposal => ProposalLeadLacksBrace();
    case Presentation => PresentationLeadLacksBrace();
    case Product => ProductLeadLacksBrace();
    case Creative => CreativeLeadLacksBrace();
    case Resume => ResumeLeadLacksBrace();
    case Code => CodeLeadLacksBrace();
  }

  lemma BlogLeadLacksBrace()
    ensures '{' !in Lead(Blog)
  {
  }

  lemma EmailLeadLacksBrace()
    ensures '{' !in Lead(Email)
  {
  }

  lemma ExplainLeadLacksBrace()
    ensures '{' !in Lead(Explain)
  {
  }

  lemma CompareLeadLacksBrace()
    ensures '{' !in Lead(Compare)
  {
  }

  lemma SolveLeadLacksBrace()
    ensures '{' !in Lead(Solve)
  {
  }

  lemma DesignLeadLacksBrace()
    ensures '{' !in Lead(Design)
  {
  }

  lemma ResearchLeadLacksBrace()
    ensures '{' !in Lead(Research)
  {
  }

  lemma LearnLeadLacksBrace()
    ensures '{' !in Lead(Learn)
  {
  }

  lemma SocialLeadLacksBrace()
    ensures '{' !in Lead(Social)
  {
  }

  lemma TwitterLeadLacksBrace()
    ensures '{' !in Lead(Twitter)
  {
  }

  lemma LinkedinLeadLacksBrace()
    ensures '{' !in Lead(Linkedin)
  {
  }

  lemma BusinessLeadLacksBrace()
    ensures '{' !in Lead(Business)
  {
  }

  lemma ProposalLeadLacksBrace()
    ensures '{' !in Lead(Proposal)
  {
  }

  lemma PresentationLeadLacksBrace()
    ensures '{' !in Lead(Presentation)
  {
  }

  lemma ProductLeadLacksBrace()
    ensures '{' !in Lead(Product)
  {
  }

  lemma CreativeLeadLacksBrace()
    ensures '{' !in Lead(Creative)
  {
  }

  lemma ResumeLeadLacksBrace()
    ensures '{' !in Lead(Resume)
  {
  }

  lemma CodeLeadLacksBrace()
    ensures '{' !in Lead(Code)
  {
  }
}
