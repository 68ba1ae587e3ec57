/** The style stage of the enhancer: a named style wraps the text in its prefix and
    suffix and appends one sentence per enabled expansion rule, in a fixed order; a
    custom style appends a request to follow the user's own style text. */
module Style {
  import opened Wrappers
  import opened Text
  import opened Catalog

  /** The separator the style stage puts between its paragraphs. */
  const ParagraphBreak := "\n\n"

  /** The rules of `order` that are enabled, in the order of `order`. */
  function EnabledRules(order: seq<Rule>, rules: set<Rule>): seq<Rule>
  {
    if |order| == 0 then []
    else (if order[0] in rules then [order[0]] else []) + EnabledRules(order[1..], rules)
  }

  /** One paragraph per rule, each opened by a paragraph break. */
  function Paragraphs(rs: seq<Rule>): string
  {
    if |rs| == 0 then "" else ParagraphBreak + RuleSentence(rs[0]) + Paragraphs(rs[1..])
  }

  /** The flag tests of `applyExpansionRules`, one after the other: each enabled flag
      appends a paragraph break and its sentence to the text built so far. */
  function AppendRules(text: string, order: seq<Rule>, rules: set<Rule>): string
    decreases |order|
  {
    if |order| == 0 then text
    else
      var next := if order[0] in rules then text + ParagraphBreak + RuleSentence(order[0]) else text;
      AppendRules(next, order[1..], rules)
  }

  /** `applyExpansionRules`. */
  function ApplyExpansionRules(text: string, rules: set<Rule>): string
  {
    AppendRules(text, RuleOrder, rules)
  }

  /** The appended text is one paragraph per enabled rule, in the fixed order. */
  lemma {:induction false} AppendRulesParagraphs(text: string, order: seq<Rule>, rules: set<Rule>)
    ensures AppendRules(text, order, rules) == text + Paragraphs(EnabledRules(order, rules))
    decreases |order|
  {
    if |order| > 0 {
      var r := order[0];
      var rest := EnabledRules(order[1..], rules);
      if r in rules {
        var w := RuleSentence(r);
        AppendRulesParagraphs(text + ParagraphBreak + w, order[1..], rules);
        assert EnabledRules(order, rules) == [r] + rest;
        ParagraphsCons(r, rest);
        ParagraphAssoc(text, w, Paragraphs(rest));
      } else {
        AppendRulesParagraphs(text, order[1..], rules);
        assert EnabledRules(order, rules) == rest;
      }
    }
  }

  lemma {:induction false} ParagraphsCons(r: Rule, rest: seq<Rule>)
    ensures Paragraphs([r] + rest) == ParagraphBreak + RuleSentence(r) + Paragraphs(rest)
  {
    assert ([r] + rest)[1..] == rest;
  }

  lemma {:induction false} ParagraphAssoc(text: string, w: string, tail: string)
    ensures text + ParagraphBreak + w + tail == text + (ParagraphBreak + w + tail)
  {
  }

  /** `applyExpansionRules` keeps the text and appends the enabled rules' paragraphs. */
  lemma {:induction false} ExpansionRulesAppend(text: string, rules: set<Rule>)
    ensures ApplyExpansionRules(text, rules) == text + Paragraphs(EnabledRules(RuleOrder, rules))
  {
    AppendRulesParagraphs(text, RuleOrder, rules);
  }

  /** Exactly the enabled rules are used. */
  lemma {:induction false} EnabledRulesMembers(order: seq<Rule>, rules: set<Rule>, x: Rule)
    ensures x in EnabledRules(order, rules) <==> x in order && x in rules
    decreases |order|
  {
    if |order| > 0 {
      EnabledRulesMembers(order[1..], rules, x);
      assert x in order <==> x == order[0] || x in order[1..];
    }
  }

  /** Every rule has its place in the fixed order, so every enabled rule is used. */
  lemma {:induction false} RuleOrderComplete(x: Rule)
    ensures x in RuleOrder
  {
    match x
    case Context => assert RuleOrder[0] == x;
    case Examples => assert RuleOrder[1] == x;
    case Structure => assert RuleOrder[2] == x;
    case Steps => assert RuleOrder[3] == x;
    case TechnicalDetails => assert RuleOrder[4] == x;
    case BestPractices => assert RuleOrder[5] == x;
    case Benefits => assert RuleOrder[6] == x;
  }

  /** The rule sentences of the three named styles, in the order they are appended. */
  lemma StyleRuleSequences()
    ensures EnabledRules(RuleOrder, StyleOf(Simple).rules) == [Context, Examples]
    ensures EnabledRules(RuleOrder, StyleOf(Professional).rules) == [Context, Structure, Benefits]
    ensures EnabledRules(RuleOrder, StyleOf(Technical).rules) == [Context, Steps, TechnicalDetails, BestPractices]
  {
    SimpleRules();
    ProfessionalRules();
    TechnicalRules();
  }

  lemma SimpleRules()
    ensures EnabledRules(RuleOrder, StyleOf(Simple).rules) == [Context, Examples]
  {
  }

  lemma ProfessionalRules()
    ensures EnabledRules(RuleOrder, StyleOf(Professional).rules) == [Context, Structure, Benefits]
  {
  }

  lemma TechnicalRules()
    ensures EnabledRules(RuleOrder, StyleOf(Technical).rules) == [Context, Steps, TechnicalDetails, BestPractices]
  {
  }

  /** The prefix and suffix around the text, each set off by a paragraph break and each
      left out when empty. */
  function Envelope(text: string, d: StyleDef): string
  {
    (if d.prefix != "" then d.prefix + ParagraphBreak else "")
    + text
    + (if d.suffix != "" then ParagraphBreak + d.suffix else "")
  }

  /** `applyStyleTemplate`: a recognised style wraps the text and applies its rules;
      anything else leaves the text alone. */
  function ApplyStyleTemplate(text: string, style: string): string
  {
    match LookupStyle(style)
    case None => text
    case Some(n) => ApplyExpansionRules(Envelope(text, StyleOf(n)), StyleOf(n).rules)
  }

  /** Every named style has a prefix, which starts with a capital, and a suffix. */
  predicate Framed(d: StyleDef)
  {
    |d.prefix| > 0 && |d.suffix| > 0 && d.prefix[0] == 'P'
  }

  lemma {:induction false} StyleFramed(n: StyleName)
    ensures Framed(StyleOf(n))
  {
    match n
    case Simple => SimpleFramed();
    case Professional => ProfessionalFramed();
    case Technical => TechnicalFramed();
  }

  lemma SimpleFramed()
    ensures Framed(StyleOf(Simple))
  {
  }

  lemma ProfessionalFramed()
    ensures Framed(StyleOf(Professional))
  {
  }

  lemma TechnicalFramed()
    ensures Framed(StyleOf(Technical))
  {
  }

  /** A named style gives its prefix, a paragraph break, the text, a paragraph break, its
      suffix, and then the paragraphs of its enabled rules. */
  lemma {:induction false} NamedStyleShape(text: string, style: string, n: StyleName)
    requires LookupStyle(style) == Some(n)
    ensures ApplyStyleTemplate(text, style)
            == StyleOf(n).prefix + ParagraphBreak + text + ParagraphBreak + StyleOf(n).suffix
               + Paragraphs(EnabledRules(RuleOrder, StyleOf(n).rules))
  {
    var d := StyleOf(n);
    StyleFramed(n);
    FramedEnvelope(text, d);
    ExpansionRulesAppend(Envelope(text, d), d.rules);
  }

  lemma {:induction false} FramedEnvelope(text: string, d: StyleDef)
    requires Framed(d)
    ensures Envelope(text, d) == d.prefix + ParagraphBreak + text + ParagraphBreak + d.suffix
  {
  }

  /** Any other style name leaves the text unchanged. */
  lemma {:induction false} UnknownStyleUnchanged(text: string, style: string)
    requires style !in {"simple", "professional", "technical"}
    ensures ApplyStyleTemplate(text, style) == text
  {
  }

  /** `applyCustomStyle`: the text, a paragraph break, the request to follow the custom
      style, and the custom text. */
  function ApplyCustomStyle(text: string, custom: string): string
  {
    text + CustomStyleLead + custom
  }

  /** The style dispatch of `enhancePrompt`: a non-empty custom text under the `custom`
      style wins; otherwise a recognised style name applies its template; otherwise the
      text passes through. */
  function StyleStage(text: string, style: string, custom: string): string
  {
    if style == "custom" && custom != "" then ApplyCustomStyle(text, custom)
    else if style != "" && LookupStyle(style).Some? then ApplyStyleTemplate(text, style)
    else text
  }

  /** A non-empty custom text under the `custom` style is appended after the request to
      follow it, and no named style applies. */
  lemma {:induction false} StyleStageCustom(text: string, style: string, custom: string)
    requires style == "custom" && custom != ""
    ensures StyleStage(text, style, custom) == text + CustomStyleLead + custom
  {
  }

  /** A recognised style name wraps the text in that style's envelope and rules. */
  lemma {:induction false} StyleStageNamed(text: string, style: string, custom: string, n: StyleName)
    requires LookupStyle(style) == Some(n)
    ensures StyleStage(text, style, custom)
            == StyleOf(n).prefix + ParagraphBreak + text + ParagraphBreak + StyleOf(n).suffix
               + Paragraphs(EnabledRules(RuleOrder, StyleOf(n).rules))
  {
    StyleStageIsTemplate(text, style, custom);
    NamedStyleShape(text, style, n);
  }

  /** A recognised style name is never `custom`, so the template applies. */
  lemma {:induction false} StyleStageIsTemplate(text: string, style: string, custom: string)
    requires LookupStyle(style).Some?
    ensures StyleStage(text, style, custom) == ApplyStyleTemplate(text, style)
  {
    CustomIsNotAStyle();
    assert style != "custom";
  }

  lemma CustomIsNotAStyle()
    ensures LookupStyle("custom").None?
  {
  }

  /** Any other style (an empty or unknown name, or `custom` with an empty custom text)
      leaves the text unchanged. */
  lemma {:induction false} StyleStagePlain(text: string, style: string, custom: string)
    requires LookupStyle(style).None? && (style != "custom" || custom == "")
    ensures StyleStage(text, style, custom) == text
  {
  }

  /** The style stage keeps the first character of a text that starts with a non-space
      character, or puts a style prefix (which starts with a capital) in front. */
  lemma {:induction false} StyleStageStartsSolid(text: string, style: string, custom: string)
    requires |text| > 0 && !IsSpace(text[0])
    ensures |StyleStage(text, style, custom)| > 0 && !IsSpace(StyleStage(text, style, custom)[0])
  {
    match LookupStyle(style)
    case None =>
      StyleStageOtherHead(text, style, custom);
    case Some(n) =>
      StyleStageIsTemplate(text, style, custom);
      TemplateHead(text, style, n);
  }

  /** Without a recognised style name the stage keeps the text's first character. */
  lemma {:induction false} StyleStageOtherHead(text: string, style: string, custom: string)
    requires |text| > 0 && LookupStyle(style).None?
    ensures |StyleStage(text, style, custom)| > 0 && StyleStage(text, style, custom)[0] == text[0]
  {
    if style == "custom" && custom != "" {
      assert StyleStage(text, style, custom) == text + (CustomStyleLead + custom);
    }
  }

  /** A named style's output starts with its prefix's capital. */
  lemma {:induction false} TemplateHead(text: string, style: string, n: StyleName)
    requires LookupStyle(style) == Some(n)
    ensures |ApplyStyleTemplate(text, style)| > 0 && ApplyStyleTemplate(text, style)[0] == 'P'
  {
    var d := StyleOf(n);
    StyleFramed(n);
    FramedHead(text, d);
    assert ApplyStyleTemplate(text, style) == ApplyExpansionRules(Envelope(text, d), d.rules);
  }

  /** The envelope of a framed style, with its rules appended, starts with the prefix. */
  lemma {:induction false} FramedHead(text: string, d: StyleDef)
    requires Framed(d)
    ensures |ApplyExpansionRules(Envelope(text, d), d.rules)| > 0
    ensures ApplyExpansionRules(Envelope(text, d), d.rules)[0] == d.prefix[0]
  {
    var env := Envelope(text, d);
    FramedEnvelope(text, d);
    assert env == d.prefix + (ParagraphBreak + text + ParagraphBreak + d.suffix);
    ExpansionRulesAppend(env, d.rules);
  }
}
