/** The classifier: first-match-wins dispatch over the ordered topic catalog and the
    audience and tone tables. A pattern matches when one of its literals occurs in the
    lower-cased text, which is what an unanchored case-insensitive alternation of
    lower-case ASCII literals does. */
module Classify {
  import opened Wrappers
  import opened Text
  import opened Catalog

  /** `/a|b|c/i.test(text)` for lower-case literals `a`, `b`, `c`. */
  predicate PatternMatches(text: string, pattern: seq<string>)
  {
    exists k :: 0 <= k < |pattern| && Contains(Lower(text), pattern[k])
  }

  /** Index of the first entry whose pattern matches `text` (the loop over
      `Object.entries`, which keeps declaration order, returning on the first hit). */
  function FirstMatch<T>(text: string, entries: seq<T>, pattern: T -> seq<string>): (r: Option<nat>)
    ensures r.Some? ==> r.value < |entries| && PatternMatches(text, pattern(entries[r.value]))
    ensures r.Some? ==> forall j :: 0 <= j < r.value ==> !PatternMatches(text, pattern(entries[j]))
    ensures r.None? ==> forall j :: 0 <= j < |entries| ==> !PatternMatches(text, pattern(entries[j]))
  {
    if |entries| == 0 then None
    else if PatternMatches(text, pattern(entries[0])) then Some(0)
    else
      match FirstMatch(text, entries[1..], pattern)
      case None => None
      case Some(i) => Some(i + 1)
  }

  /** Which expansion template `autoExpandPrompt` picks: the patterns are tested against
      the lower-cased prompt. */
  function FindTemplate(prompt: string): (r: Option<nat>)
    ensures r.Some? ==> r.value < |Expansions|
  {
    FirstMatch(Lower(prompt), Expansions, (t: Topic) => t.Pattern())
  }

  /** `detectAudience`: the first audience whose keywords occur (any case), else the
      default. */
  function DetectAudience(prompt: string): (r: string)
    ensures forall i :: 0 <= i < |Audiences| && PatternMatches(prompt, Audiences[i].pattern)
                        && (forall j :: 0 <= j < i ==> !PatternMatches(prompt, Audiences[j].pattern))
                        ==> r == Audiences[i].name
    ensures (forall j :: 0 <= j < |Audiences| ==> !PatternMatches(prompt, Audiences[j].pattern))
            ==> r == DefaultAudience
  {
    match FirstMatch(prompt, Audiences, (l: Label) => l.pattern)
    case None => DefaultAudience
    case Some(i) => Audiences[i].name
  }

  /** `detectTone`: the first tone whose keywords occur (any case), else the default. */
  function DetectTone(prompt: string): (r: string)
    ensures forall i :: 0 <= i < |Tones| && PatternMatches(prompt, Tones[i].pattern)
                        && (forall j :: 0 <= j < i ==> !PatternMatches(prompt, Tones[j].pattern))
                        ==> r == Tones[i].name
    ensures (forall j :: 0 <= j < |Tones| ==> !PatternMatches(prompt, Tones[j].pattern))
            ==> r == DefaultTone
  {
    match FirstMatch(prompt, Tones, (l: Label) => l.pattern)
    case None => DefaultTone
    case Some(i) => Tones[i].name
  }

  /** Both detectors always answer with one of their labels or their default. */
  lemma {:induction false} DetectorsAreTotal(prompt: string)
    ensures DetectAudience(prompt) in {"beginners", "professionals", "students", "technical specialists", "general readers"}
    ensures DetectTone(prompt) in {"professional", "casual", "educational", "authoritative", "clear and engaging"}
  {
    AudienceIsListed(prompt);
    ToneIsListed(prompt);
  }

  lemma {:induction false} AudienceIsListed(prompt: string)
    ensures DetectAudience(prompt) in {"beginners", "professionals", "students", "technical specialists", "general readers"}
  {
    match FirstMatch(prompt, Audiences, (l: Label) => l.pattern)
    case None =>
    case Some(i) =>
      assert i == 0 || i == 1 || i == 2 || i == 3;
  }

  lemma {:induction false} ToneIsListed(prompt: string)
    ensures DetectTone(prompt) in {"professional", "casual", "educational", "authoritative", "clear and engaging"}
  {
    match FirstMatch(prompt, Tones, (l: Label) => l.pattern)
    case None =>
    case Some(i) =>
      assert i == 0 || i == 1 || i == 2 || i == 3;
  }

  lemma {:induction false} LowerIdempotent(s: string)
    ensures Lower(Lower(s)) == Lower(s)
  {
  }

  /** The template dispatch matches on the prompt lower-cased; testing the lower-cased
      text again with a case-insensitive pattern sees the same words. */
  lemma {:induction false} TemplateMatchesOnLowered(prompt: string, pattern: seq<string>)
    ensures PatternMatches(Lower(prompt), pattern) <==> PatternMatches(prompt, pattern)
  {
    LowerIdempotent(prompt);
  }

  /** The `linkedin` template can never be chosen: its literal `linkedin` is also a
      literal of the earlier `social` entry, and `professional post` contains `post`,
      a literal of the earlier `blog` entry. */
  lemma {:induction false} LinkedinUnreachable(prompt: string)
    ensures FindTemplate(prompt) != Some(LinkedinIndex)
  {
    LinkedinShadowed(Lower(prompt));
  }

  /** Whatever matches the `linkedin` pattern matches the `social` or the `blog` one. */
  lemma {:induction false} LinkedinShadowed(text: string)
    ensures PatternMatches(text, Expansions[LinkedinIndex].Pattern()) ==>
              PatternMatches(text, Expansions[SocialIndex].Pattern())
              || PatternMatches(text, Expansions[BlogIndex].Pattern())
  {
    var l := Lower(text);
    var linkedin := Expansions[LinkedinIndex].Pattern();
    assert linkedin == ["linkedin", "professional post"];
    if Contains(l, "linkedin") {
      assert Expansions[SocialIndex].Pattern()[4] == "linkedin";
    }
    if Contains(l, "professional post") {
      assert "professional " + "post" + "" == "professional post";
      ContainsInfix(l, "professional ", "post", "");
      assert Expansions[BlogIndex].Pattern()[2] == "post";
    }
  }

  /** The `proposal` template is reached only through `pitch` or `offer`: the word
      `proposal` itself is caught first by the `business` entry. */
  lemma {:induction false} ProposalOnlyViaPitchOrOffer(prompt: string)
    requires FindTemplate(prompt) == Some(ProposalIndex)
    ensures !Contains(Lower(prompt), "proposal")
    ensures Contains(Lower(prompt), "pitch") || Contains(Lower(prompt), "offer")
  {
    LowerIdempotent(prompt);
    assert !Contains(Lower(prompt), Expansions[BusinessIndex].Pattern()[1]);
  }

  /** The `presentation` template is reached only through `slides` or `deck`. */
  lemma {:induction false} PresentationOnlyViaSlidesOrDeck(prompt: string)
    requires FindTemplate(prompt) == Some(PresentationIndex)
    ensures !Contains(Lower(prompt), "presentation")
    ensures Contains(Lower(prompt), "slides") || Contains(Lower(prompt), "deck")
  {
    LowerIdempotent(prompt);
    assert !Contains(Lower(prompt), Expansions[BusinessIndex].Pattern()[3]);
  }

  /** The `twitter` template is reached only through the word `twitter`: `tweet` is a
      literal of the earlier `social` entry. */
  lemma {:induction false} TwitterOnlyViaTwitter(prompt: string)
    requires FindTemplate(prompt) == Some(TwitterIndex)
    ensures Contains(Lower(prompt), "twitter") && !Contains(Lower(prompt), "tweet")
  {
    LowerIdempotent(prompt);
    assert !Contains(Lower(prompt), Expansions[SocialIndex].Pattern()[2]);
  }

  /** Any prompt containing `post`, in any case, gets the generic blog template: `blog`
      is the first catalog entry and `post` is one of its literals. */
  lemma {:induction false} PostGoesToBlog(prompt: string)
    ensures Contains(Lower(prompt), "post") ==> FindTemplate(prompt) == Some(BlogIndex)
  {
    if Contains(Lower(prompt), "post") {
      LowerIdempotent(prompt);
      assert Expansions[BlogIndex].Pattern()[2] == "post";
      assert PatternMatches(Lower(prompt), Expansions[BlogIndex].Pattern());
    }
  }

  /** An example of `PostGoesToBlog`: a request for a LinkedIn post gets the blog
      template. */
  lemma LinkedinPostGoesToBlog()
    ensures FindTemplate("I need help with a linkedin post") == Some(BlogIndex)
  {
    var l := Lower("I need help with a linkedin post");
    assert l[28..32] == "post";
    ContainsWitness(l, "post", 28);
    PostGoesToBlog("I need help with a linkedin post");
  }
}
