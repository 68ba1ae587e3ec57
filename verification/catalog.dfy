/** The constant catalogs of the prompt-enhancement engine: the named style envelopes,
    the ordered topic-expansion templates, the audience and tone keyword tables, the
    trigger words stripped from a topic, and the fixed sentences the expander and the
    style stage append. Every pattern of the original is a case-insensitive alternation
    of literal lower-case words with no anchors or word boundaries, so a pattern is kept
    here as the sequence of its alternatives, in the order written. */
module Catalog {
  import opened Wrappers

  const TopicSlot := "{topic}"
  const AudienceSlot := "{audience}"
  const ToneSlot := "{tone}"

  // ---------------------------------------------------------------------------
  // Topic expansion templates
  // ---------------------------------------------------------------------------

  /** The topics of the auto-expansion catalog, one per template. */
  datatype Topic = Blog | Email | Explain | Compare | Solve | Design | Research | Learn | Social | Twitter | Linkedin
    | Business | Proposal | Presentation | Product | Creative | Resume | Code
  {
    /** The literals the topic's pattern alternates between, in the order written. */
    function Pattern(): seq<string>
    {
      match this
      case Blog => ["blog", "article", "post", "content", "write"]
      case Email => ["email", "message", "letter"]
      case Explain => ["explain", "describe", "what is", "how does"]
      case Compare => ["compare", "versus", "vs", "difference", "similarities"]
      case Solve => ["solve", "fix", "troubleshoot", "problem", "issue"]
      case Design => ["design", "create", "build", "make"]
      case Research => ["research", "analyze", "study", "investigate"]
      case Learn => ["learn", "teach", "tutorial", "guide", "how to"]
      case Social => ["social", "post", "tweet", "instagram", "linkedin", "facebook"]
      case Twitter => ["twitter", "tweet"]
      case Linkedin => ["linkedin", "professional post"]
      case Business => ["business", "proposal", "report", "presentation"]
      case Proposal => ["proposal", "pitch", "offer"]
      case Presentation => ["presentation", "slides", "deck"]
      case Product => ["product", "description", "listing", "ecommerce"]
      case Creative => ["story", "poem", "script", "creative writing"]
      case Resume => ["resume", "cv", "cover letter", "job application"]
      case Code => ["code", "programming", "development", "software"]
    }
  }

  /** The expansion templates in declaration order; the first entry whose pattern
      matches wins, so the order is part of the behaviour. */
  const Expansions: seq<Topic> :=
    [Blog, Email, Explain, Compare, Solve, Design, Research, Learn, Social, Twitter, Linkedin,
     Business, Proposal, Presentation, Product, Creative, Resume, Code]

  /** A topic's template text as the catalog writes it: the text around its single
      `{topic}` placeholder. */
  function TemplateText(t: Topic): string
  {
    Lead(t) + TopicSlot + Rest(t)
  }

  /** The part of a topic's template text before its `{topic}` placeholder (each text is
      written as a concatenation of short pieces). */
  function Lead(t: Topic): string
  {
    match t
    case Blog => "Write a comprehensive " + "blog post about "
    case Email => "Compose a professional " + "email about "
    case Explain => "Provide a clear " + "explanation of "
    case Compare => "Create a detailed " + "comparison of "
    case Solve => "Analyze and provide " + "solutions for "
    case Design => "Provide detailed " + "guidance for " + "designing/creating "
    case Research => "Conduct a thorough " + "analysis of "
    case Learn => "Create a comprehensive " + "learning guide for "
    case Social => "Create engaging social " + "media content about "
    case Twitter => "Compose a Twitter " + "thread about "
    case Linkedin => "Write a professional " + "LinkedIn post about "
    case Business => "Create a comprehensive " + "business document " + "about "
    case Proposal => "Draft a compelling " + "business proposal for "
    case Presentation => "Structure a powerful " + "presentation about "
    case Product => "Write compelling " + "product descriptions " + "for "
    case Creative => "Create engaging " + "creative content about "
    case Resume => "Write professional " + "career documents for "
    case Code => "Provide comprehensive " + "coding assistance for "
  }

  /** The part of a topic's template text after its `{topic}` placeholder; only the
      `Blog` and `Email` texts hold further placeholders. */
  function Rest(t: Topic): string
  {
    match t
    case Blog =>
        ". Include an engaging " + "introduction, main " + "points with supporting " + "details, real-world "
         + "examples, and a " + "compelling conclusion. " + "Target audience: " + "{audience}. Tone: "
         + "{tone}."
    case Email =>
        ". Include a clear " + "subject line, proper " + "greeting, concise main " + "message, "
         + "call-to-action if " + "needed, and " + "appropriate closing. " + "Tone: {tone}."
    case Explain =>
        ". Break down complex " + "concepts into " + "understandable parts, " + "include relevant "
         + "examples, and explain " + "the practical " + "implications or " + "applications."
    case Compare =>
        ". Highlight key " + "similarities and " + "differences, provide " + "specific examples, and "
         + "include a summary of " + "when each option might " + "be preferred."
    case Solve =>
        ". Include step-by-step " + "troubleshooting " + "approaches, potential " + "root causes, "
         + "preventive measures, " + "and alternative " + "solutions if the " + "primary approach fails."
    case Design =>
        ". Include planning " + "considerations, " + "step-by-step process, " + "best practices, common "
         + "pitfalls to avoid, and " + "tips for optimization."
    case Research =>
        ". Include current " + "trends, key findings, " + "data sources, " + "methodology "
         + "considerations, and " + "actionable " + "recommendations based " + "on the research."
    case Learn =>
        ". Structure the " + "content from beginner " + "to advanced concepts, " + "include practical "
         + "exercises, common " + "mistakes to avoid, and " + "additional resources " + "for further learning."
    case Social =>
        ". Include " + "attention-grabbing " + "headlines, compelling " + "visuals descriptions, "
         + "relevant hashtags, " + "call-to-action, and " + "platform-specific " + "optimizations for "
         + "maximum engagement."
    case Twitter =>
        ". Start with a hook " + "tweet, break down key " + "points across multiple " + "tweets (under 280 "
         + "characters each), " + "include relevant " + "hashtags, and end with " + "a strong "
         + "call-to-action."
    case Linkedin =>
        ". Include industry " + "insights, personal " + "experience or " + "expertise, actionable "
         + "advice, professional " + "tone, and relevant " + "hashtags to increase " + "visibility in "
         + "professional networks."
    case Business =>
        ". Include executive " + "summary, market " + "analysis, strategic " + "recommendations, "
         + "implementation " + "timeline, budget " + "considerations, and " + "measurable success "
         + "metrics."
    case Proposal =>
        ". Include problem " + "statement, proposed " + "solution, benefits and " + "ROI, implementation "
         + "plan, timeline, " + "pricing structure, and " + "next steps for " + "decision-makers."
    case Presentation =>
        ". Include compelling " + "opening, clear agenda, " + "key talking points " + "with supporting data, "
         + "visual aids " + "suggestions, audience " + "engagement strategies, " + "and strong closing "
         + "with clear takeaways."
    case Product =>
        ". Include key features " + "and benefits, target " + "audience appeal, " + "unique selling "
         + "propositions, " + "technical " + "specifications if " + "relevant, customer "
         + "pain points addressed, " + "and clear " + "call-to-action."
    case Creative =>
        ". Include vivid " + "descriptions, " + "compelling characters " + "or elements, emotional "
         + "resonance, proper " + "narrative structure, " + "and immersive details " + "that captivate the "
         + "audience."
    case Resume =>
        ". Include relevant " + "skills and " + "achievements, " + "quantifiable results, "
         + "industry keywords, " + "proper formatting " + "guidelines, and " + "compelling narratives "
         + "that align with target " + "opportunities."
    case Code =>
        ". Include clear code " + "examples, best " + "practices, error " + "handling, "
         + "documentation, testing " + "considerations, and " + "step-by-step " + "implementation "
         + "guidance."
  }

  // Positions of the entries the dispatch lemmas talk about.
  const BlogIndex := 0
  const SocialIndex := 8
  const TwitterIndex := 9
  const LinkedinIndex := 10
  const BusinessIndex := 11
  const ProposalIndex := 12
  const PresentationIndex := 13

  // ---------------------------------------------------------------------------
  // Audience and tone detection tables
  // ---------------------------------------------------------------------------

  /** A detection label with the literals of its case-insensitive pattern. */
  datatype Label = Label(name: string, pattern: seq<string>)

  const Audiences: seq<Label> :=
    [
      Label("beginners", ["beginner", "start", "basic", "simple", "new", "intro"]),
      Label("professionals", ["professional", "business", "corporate", "enterprise"]),
      Label("students", ["student", "learn", "study", "education", "school"]),
      Label("technical specialists", ["technical", "advanced", "expert", "developer", "engineer"])
    ]

  const DefaultAudience := "general readers"

  const Tones: seq<Label> :=
    [
      Label("professional", ["professional", "business", "formal", "corporate"]),
      Label("casual", ["casual", "friendly", "informal", "relaxed"]),
      Label("educational", ["learn", "teach", "explain", "educational", "tutorial"]),
      Label("authoritative", ["expert", "definitive", "comprehensive", "thorough"])
    ]

  const DefaultTone := "clear and engaging"

  // ---------------------------------------------------------------------------
  // Topic extraction
  // ---------------------------------------------------------------------------

  /** Leading words removed from a topic (first pass), in pattern order. */
  const TriggerWords: seq<string> :=
    ["write", "create", "make", "explain", "describe", "blog", "article", "email", "about", "on"]

  /** Leading articles removed from a topic (second pass), in pattern order. */
  const Articles: seq<string> := ["a", "an", "the"]

  // ---------------------------------------------------------------------------
  // Generic expansion and the fixed sentences
  // ---------------------------------------------------------------------------

  const EmptyPromptReply := "Please provide a " + "prompt to enhance."

  const OverviewLead := "Provide a " + "comprehensive overview " + "of "
  const OverviewTail :=
    ". Include key " + "concepts, practical " + "applications, current " + "trends, and actionable "
     + "insights. Structure " + "your response clearly " + "with examples and " + "real-world context."
  const DetailTail :=
    ". Please provide " + "detailed information " + "including background " + "context, step-by-step "
     + "explanations where " + "relevant, practical " + "examples, and key " + "takeaways that readers "
     + "can apply."
  const ElaborateTail :=
    ". Please elaborate " + "with specific details, " + "supporting examples, " + "and practical guidance."

  const CustomStyleLead := "\n\nPlease respond " + "using the following " + "style and approach: "

  // ---------------------------------------------------------------------------
  // Style envelopes
  // ---------------------------------------------------------------------------

  /** The expansion-rule flags, in the fixed order their sentences are appended. */
  datatype Rule = Context | Examples | Structure | Steps | TechnicalDetails | BestPractices | Benefits

  const RuleOrder: seq<Rule> := [Context, Examples, Structure, Steps, TechnicalDetails, BestPractices, Benefits]

  function RuleSentence(r: Rule): string
  {
    match r
    case Context =>
      "Please provide " + "relevant background " + "context and explain " + "why this topic is "
       + "important."
    case Examples => "Include specific, " + "real-world examples to " + "illustrate key points."
    case Structure => "Organize your response " + "with clear headings " + "and logical flow."
    case Steps => "Break down the process " + "into clear, actionable " + "steps."
    case TechnicalDetails =>
      "Include technical " + "specifications, " + "methodologies, and " + "implementation "
       + "considerations."
    case BestPractices =>
      "Highlight industry " + "best practices and " + "common pitfalls to " + "avoid."
    case Benefits =>
      "Explain the benefits " + "and potential impact " + "of implementing these " + "ideas."
  }

  /** A named style: the prefix and suffix around the prompt and the set of rule flags
      that are switched on (a flag the original leaves out is off). The numeric
      `minWords` / `targetWords` settings are never read and are not kept. The texts are
      written as concatenations of short pieces, so that facts about their characters
      (no `{`, no `$`) are proved piece by piece. */
  datatype StyleDef = StyleDef(prefix: string, suffix: string, rules: set<Rule>)

  /** The named styles of the catalog. */
  datatype StyleName = Simple | Professional | Technical

  function StyleOf(n: StyleName): StyleDef
  {
    match n
    case Simple =>
      StyleDef(
        "Please explain this in " + "simple, " + "easy-to-understand " + "language:",
        "Keep the response " + "clear and " + "straightforward, " + "avoiding technical " + "jargon.",
        {Context, Examples})
    case Professional =>
      StyleDef(
        "Please provide a " + "comprehensive, " + "professional analysis " + "of:",
        "Structure your " + "response in a clear, " + "business-appropriate " + "format with actionable " + "insights.",
        {Context, Structure, Benefits})
    case Technical =>
      StyleDef(
        "Please provide a " + "detailed technical " + "breakdown of:",
        "Include specific " + "methodologies, " + "technical " + "considerations, and " + "implementation details " + "where applicable.",
        {Context, Steps, TechnicalDetails, BestPractices})
  }

  /** The style catalog lookup. Only the three declared names are styles; any other
      key (an inherited object property such as `toString` included) finds no prefix,
      suffix or rules, which the style stage treats as "leave the text alone". */
  function LookupStyle(name: string): (r: Option<StyleName>)
    ensures r.Some? <==> name in {"simple", "professional", "technical"}
    ensures r == Some(Simple) <==> name == "simple"
    ensures r == Some(Professional) <==> name == "professional"
    ensures r == Some(Technical) <==> name == "technical"
  {
    if name == "simple" then Some(Simple)
    else if name == "professional" then Some(Professional)
    else if name == "technical" then Some(Technical)
    else None
  }
}
