# Prompt Maker core, modelled in Dafny

Prompt Maker is a browser extension. It rewrites a short text prompt into a longer,
style-specific prompt and enforces a daily free-usage quota. This project models three
parts of it and proves properties about each.

The first part is the enhancement engine, `enhancePrompt` in `templates.js`. It runs this pipeline:
1. Trim the prompt.
2. Answer a blank prompt with a fixed request.
3. Expand a prompt of fewer than eight words, using either the ordered topic-template catalog or the generic length tiers.
4. Wrap the result in a named style's envelope and rule sentences, or append a custom style request.
5. Normalise the layout with three regex passes and a final trim.

The second part is the history and analytics bookkeeping in `enhanced-features.js`.

The third part is the quota state machine shared by the background worker (`background.js`) and the popup (`popup.js`).

Each module lives in its own file:

| file | module | what it holds |
|---|---|---|
| `wrappers.dfy` | `Wrappers` | `Option`, with `GetOr` for JavaScript's `x \|\| default` |
| `text.dfy` | `Text` | ASCII `\s`, `toLowerCase`, `trim()`, `split(/\s+/)`, word counts, UTF-16 length |
| `replace.dfy` | `Replace` | `String.prototype.replace` with a string pattern, including `$`-patterns |
| `catalog.dfy` | `Catalog` | styles, topic templates, audience and tone tables, trigger words, rule sentences |
| `classify.dfy` | `Classify` | first-match template dispatch, `detectAudience`, `detectTone` |
| `expand.dfy` | `Expand` | `extractTopic`, `expandWithTemplate`, `expandGeneric`, `autoExpandPrompt` |
| `style.dfy` | `Style` | `applyStyleTemplate`, `applyExpansionRules`, `applyCustomStyle`, the style dispatch |
| `normalize.dfy` | `Normalize` | the three passes of `optimizePrompt` and the trim |
| `enhance.dfy` | `Enhance` | `enhancePrompt` |
| `history.dfy` | `History` | `PromptHistory`'s list operations |
| `analytics.dfy` | `Analytics` | `PromptAnalytics.trackPrompt` |
| `storage.dfy` | `Storage` | the local store as a record of optional keys; `set` as a merge |
| `background.dfy` | `Background` | install, daily reset, update migration, message handlers |
| `popup.dfy` | `Popup` | the quota gate, "gate, count, enhance", improvement label, enable rules |

**Regexes.** The topic, audience and tone patterns are case-insensitive alternations of literal words. The model keeps each one as the list of its alternatives, in the order written. The anchored `^(...)\s+` patterns of `extractTopic` and the three `optimizePrompt` patterns are modelled as functions of their own. A global replace is modelled as the scan JavaScript performs: try a match at the current position, and either emit the replacement and skip past it, or copy one character.

**External inputs.** The clock appears only as parameters:
- `Day`, for the `toDateString()` text;
- ISO timestamp strings;
- history ids.

Reading the store is likewise a parameter: the value read, or `None` when the read failed.

**Where the code and its design description differ, the model follows the code:**
- **Template choice.** The catalog tests `blog` first, and `post` is one of `blog`'s words. So any prompt containing `post`, "I need help with a linkedin post" among them, gets the blog template (`Classify.PostGoesToBlog`). The `linkedin` template is never chosen at all (`Classify.LinkedinUnreachable`).
- **Sentence spacing.** The second normaliser pass uses `\s*`, not "no space". So any whitespace between a stop and a capital, a paragraph break included, becomes one space (`Normalize.StopGapCapital`).
- **Idempotence.** The normaliser is idempotent only on text that does not start with whitespace. `" a"` normalises to `"a"`, which normalises to `"A"` (`Normalize.OptimizeNeedsSolidStart`).
- **Matching on lower case.** Template dispatch tests the lower-cased prompt. The patterns are case-insensitive anyway, so this is equivalent (`Classify.TemplateMatchesOnLowered`).

## Model

| member | source | states |
|---|---|---|
| Text.Lower | templates.js:213 | lower-casing keeps the length, maps each character to its lower-case form, and leaves no capital |
| Text.EqualsIgnoringCaseIsLower | templates.js:47 | a case-insensitive literal match is exactly a match of the lower-cased text |
| Text.ContainsIff | templates.js:217 | the unanchored literal search succeeds exactly when the literal occurs at some position |
| Text.Trim | templates.js:181 | `trim()` yields a text with no whitespace at either end that is the original minus a whitespace prefix and a whitespace suffix |
| Text.TrimIsSlice | templates.js:181 | the trimmed text starts where the leading whitespace run ends |
| Text.TrimKeepsSolidStart | templates.js:382 | trimming a text that starts with a non-space character only cuts its end |
| Text.TrimOfTrimmed | templates.js:382 | trimming is the identity on trimmed text |
| Text.Split | templates.js:188 | `split(/\s+/)` always yields at least one piece |
| Text.SplitPiecesSolid | templates.js:188 | no piece of a split contains whitespace |
| Text.SplitLosesOnlySpace | templates.js:188 | gluing the pieces back together gives the input with only its whitespace removed |
| Text.SplitCountsWords | templates.js:188 | on trimmed non-empty text the number of pieces is the number of words |
| Text.CountWordsSkipsBlank | popup.js:263 | leading whitespace adds no word |
| Text.CountWordsDropsBlankTail | popup.js:263 | trailing whitespace adds no word |
| Text.Utf16Length | popup.js:111 | JavaScript's `length` lies between the number of characters and twice that |
| Replace.FirstIndexSpec | templates.js:233 | the search finds the first occurrence of the placeholder, and finds none only when there is none |
| Replace.SubstitutionPlain | templates.js:233-235 | a replacement without `$` is inserted verbatim |
| Replace.ReplaceFirstSplices | templates.js:233-235 | `replace` with a string pattern changes nothing when the pattern is absent, and otherwise splices the replacement over the first occurrence only |
| Replace.ReplaceFirstKeepsHead | templates.js:233-235 | a replacement never changes a first character that cannot start the pattern |
| Replace.ReplaceFirstSkipsPrefix | templates.js:233-235 | a prefix without the pattern's first character is left alone by the replacement |
| Catalog.LookupStyle | templates.js:5-41 | exactly `simple`, `professional` and `technical` name a style, and each selects the style of its own name |
| Classify.FirstMatch | templates.js:216-220 | the chosen entry matches, no earlier entry matches, and no result means no entry matches |
| Classify.DetectAudience | templates.js:251-266 | the result is the label of the first audience whose keywords occur, and the default when none does |
| Classify.DetectTone | templates.js:269-284 | the result is the label of the first tone whose keywords occur, and the default when none does |
| Classify.DetectorsAreTotal | templates.js:251-284 | both detectors always answer with one of their labels or their default |
| Classify.TemplateMatchesOnLowered | templates.js:213-217 | testing the lower-cased prompt against a case-insensitive pattern is testing the prompt itself |
| Classify.LinkedinUnreachable | templates.js:92-105 | no prompt ever selects the `linkedin` template |
| Classify.LinkedinShadowed | templates.js:92-105 | every text the `linkedin` pattern matches is matched by the earlier `social` or `blog` pattern |
| Classify.ProposalOnlyViaPitchOrOffer | templates.js:108-116 | the `proposal` template is chosen only for `pitch` or `offer`, never for the word `proposal` |
| Classify.PresentationOnlyViaSlidesOrDeck | templates.js:108-121 | the `presentation` template is chosen only for `slides` or `deck` |
| Classify.TwitterOnlyViaTwitter | templates.js:92-100 | the `twitter` template is chosen only for `twitter`, never for `tweet` |
| Classify.PostGoesToBlog | templates.js:46-49 | every prompt containing `post`, in any case, gets the blog template, because `blog` is tested first |
| Classify.LinkedinPostGoesToBlog | templates.js:46-49 | one example of `Classify.PostGoesToBlog`: "I need help with a linkedin post" gets the blog template |
| Expand.StripLeadingWord | templates.js:244 | a leading-word strip leaves a suffix of its input |
| Expand.StripLeadingWordCut | templates.js:244 | what a strip removes is nothing, or one listed word plus the whole whitespace run after it |
| Expand.StripLeadingWordChanges | templates.js:244 | the strip changes the text exactly when a listed word followed by whitespace leads it |
| Expand.ExtractTopic | templates.js:241-248 | the topic is a suffix of the prompt, so its letter case is kept |
| Expand.ExtractTopicNonEmpty | templates.js:247 | a non-empty prompt never gives an empty topic |
| Expand.ExtractTopicCut | templates.js:243-245 | what is cut off is nothing, a trigger word, an article, or a trigger word then an article, each with the whitespace after it |
| Expand.ExtractTopicTrimmed | templates.js:243-247 | the topic of a trimmed prompt is trimmed |
| Expand.ExpandWithTemplate | templates.js:227-238 | `expandWithTemplate`; its contract is stated by `Expand.ExpandWithTemplateShape`, `Expand.ExpandWithTemplateHead` and `Expand.FillTopic` |
| Expand.ExpandWithTemplateShape | templates.js:227-238 | for a prompt without `$` or `{`, the expansion is the template's lead-in, the topic verbatim, then the rest of the template with audience and tone filled in |
| Expand.FillTopic | templates.js:233 | the topic lands exactly where `{topic}` stood |
| Expand.FillAfterPrefix | templates.js:234-235 | the audience and tone substitutions never touch text before the first `{` |
| Expand.LabelsArePlain | templates.js:251-284 | no audience or tone label contains `$`, so each is inserted verbatim |
| Expand.ExpandGeneric | templates.js:287-297 | `expandGeneric`; its contract is stated by `Expand.ExpandGenericByWords`, `Expand.FrameKeepsPrompt` and `Expand.ExpandGenericHead` |
| Expand.FramingFor | templates.js:290-296 | the overview is chosen exactly for at most three pieces, the short elaboration exactly for more than six |
| Expand.ExpandGenericByWords | templates.js:287-297 | on trimmed non-empty text the generic tier is chosen by the number of words |
| Expand.FrameKeepsPrompt | templates.js:291-295 | every generic tier contains the prompt verbatim |
| Expand.AutoExpand | templates.js:212-224 | `autoExpandPrompt`; its contract is stated by `Expand.AutoExpandPicksFirstMatch`, `Expand.AutoExpandFallsBack` and `Expand.AutoExpandHead` |
| Expand.AutoExpandPicksFirstMatch | templates.js:212-220 | the expansion uses the first template, in catalog order, whose pattern matches |
| Expand.AutoExpandFallsBack | templates.js:222-223 | with no matching template the generic expansion is used |
| Expand.ExpandWithTemplateHead | templates.js:227-238 | a template expansion is non-empty and starts with a capital, whatever is substituted |
| Expand.FillKeepsHead | templates.js:232-235 | the three substitutions keep the first character of a text that does not start with `{` |
| Expand.ExpandGenericHead | templates.js:287-297 | the generic expansion of a prompt starting with a non-space character starts with a non-space character |
| Expand.AutoExpandHead | templates.js:212-224 | the auto-expansion of a prompt starting with a non-space character starts with a non-space character |
| Expand.TemplateStartsUpper | templates.js:46-145 | every template text starts with a capital |
| Expand.LeadLacksBrace | templates.js:46-145 | no template text has a `{` before its topic placeholder |
| Style.ApplyExpansionRules | templates.js:334-366 | `applyExpansionRules`; its contract is stated by `Style.ExpansionRulesAppend` and `Style.EnabledRulesMembers` |
| Style.AppendRulesParagraphs | templates.js:334-366 | the rule tests append exactly one paragraph per enabled rule, in the fixed order, and keep the text in front |
| Style.ExpansionRulesAppend | templates.js:334-366 | `applyExpansionRules` is the text followed by the paragraphs of the enabled rules |
| Style.EnabledRulesMembers | templates.js:334-366 | a rule's sentence is used exactly when the rule is in the order and enabled |
| Style.RuleOrderComplete | templates.js:337-363 | every rule has its place in the fixed order |
| Style.StyleRuleSequences | templates.js:9-38 | the sentences each named style appends, in order |
| Style.StyleFramed | templates.js:5-41 | every named style has a non-empty prefix starting with `P`, and a non-empty suffix |
| Style.ApplyStyleTemplate | templates.js:300-326 | `applyStyleTemplate`; its contract is stated by `Style.NamedStyleShape` and `Style.UnknownStyleUnchanged` |
| Style.ApplyCustomStyle | templates.js:329-331 | `applyCustomStyle`; its contract is stated by `Style.StyleStageCustom` |
| Style.StyleStage | templates.js:199-203 | the style dispatch of `enhancePrompt`; its contract is stated by `Style.StyleStageCustom`, `Style.StyleStageNamed`, `Style.StyleStagePlain` and `Style.StyleStageStartsSolid` |
| Style.NamedStyleShape | templates.js:300-326 | a named style gives prefix, blank line, text, blank line, suffix, then its rule paragraphs |
| Style.UnknownStyleUnchanged | templates.js:301-305 | an unknown style leaves the text unchanged |
| Style.StyleStageCustom | templates.js:199-200 | a non-empty custom text under `custom` appends the custom request and no named style |
| Style.StyleStageNamed | templates.js:201-202 | a recognised style name applies its full envelope and rules |
| Style.StyleStagePlain | templates.js:199-203 | any other style, including `custom` with an empty text, leaves the text unchanged |
| Style.StyleStageStartsSolid | templates.js:199-203 | the style stage keeps a non-space first character, or puts a prefix starting with a capital in front |
| Normalize.CollapseBlankLines | templates.js:371 | pass 1 of `optimizePrompt`; its contract is stated by `Normalize.CollapseLeavesFewBlankLines` and `Normalize.CollapseFixed` |
| Normalize.CollapseLeavesFewBlankLines | templates.js:371 | after pass 1 no whitespace run holds three line feeds |
| Normalize.CollapseFixed | templates.js:371 | pass 1 leaves text with few blank lines unchanged |
| Normalize.SpaceSentences | templates.js:374 | pass 2 of `optimizePrompt`; its contract is stated by `Normalize.StopGapCapital`, `Normalize.SpaceSentencesSpaced`, `Normalize.SpaceSentencesFixed` and `Normalize.SpaceSentencesGood` |
| Normalize.SpaceSentencesSpaced | templates.js:374 | after pass 2 every stop that whitespace and a capital follow is followed by exactly one space |
| Normalize.SpaceSentencesFixed | templates.js:374 | pass 2 leaves spaced text unchanged |
| Normalize.SpaceSentencesGood | templates.js:371-374 | pass 2 never creates a run of three line feeds |
| Normalize.CapitalizeSentences | templates.js:377-379 | pass 3 of `optimizePrompt`; its contract is stated by `Normalize.CapitalizePointwise`, `Normalize.CapitalizeEstablishes` and `Normalize.CapitalizeFixed` |
| Normalize.CapitalizePointwise | templates.js:377-379 | pass 3 capitalises exactly the small letters at a sentence start, and nothing else changes |
| Normalize.CapitalizeEstablishes | templates.js:377-379 | after pass 3 no sentence starts with a small letter |
| Normalize.CapitalizeFixed | templates.js:377-379 | pass 3 leaves capitalised text unchanged |
| Normalize.CapitalizeSpaced | templates.js:374-379 | pass 3 keeps sentences spaced |
| Normalize.OptimizePrompt | templates.js:369-385 | the optimised prompt is trimmed |
| Normalize.OptimizeNormalForm | templates.js:369-385 | the optimised prompt is trimmed, has no run of three line feeds, and spaces every stop before a capital with one space |
| Normalize.OptimizeCapitalized | templates.js:369-385 | from a text starting with a non-space character, the result is non-empty and no sentence of it starts with a small letter |
| Normalize.OptimizeIdempotent | templates.js:369-385 | optimising twice is optimising once, for text that does not start with whitespace |
| Normalize.OptimizeNeedsSolidStart | templates.js:377-382 | a leading space hides the first letter from pass 3, so idempotence fails without a solid start |
| Normalize.StopGapCapital | templates.js:374 | for any input, a stop, any whitespace run (a paragraph break included) and a capital become the stop, one space and the capital, and the scan goes on after the capital |
| Normalize.ParagraphAfterStopCollapses | templates.js:374 | one example of `Normalize.StopGapCapital`: `"x.\n\nY"` becomes `"x. Y"` |
| Enhance.EnhancePrompt | templates.js:179-209 | `enhancePrompt`; its contract is stated by `Enhance.EnhanceBlank`, `Enhance.EnhanceLongPrompt`, `Enhance.EnhanceShortPrompt` and `Enhance.EnhanceNormalForm` |
| Enhance.EnhanceBlank | templates.js:181-185 | a whitespace-only prompt gets exactly the fixed request |
| Enhance.EnhanceLongPrompt | templates.js:188-206 | a prompt of eight or more words is styled and optimised without expansion |
| Enhance.EnhanceShortPrompt | templates.js:188-206 | a prompt of one to seven words is auto-expanded first |
| Enhance.NonBlankHasWords | templates.js:183-189 | every non-blank prompt has at least one word, so the two cases cover it |
| Enhance.EnhanceNormalForm | templates.js:179-209 | for every input the result is non-empty, trimmed, has no triple line feeds, single-spaces its sentences, and starts every sentence without a small letter |
| Enhance.ReplyIsNormal | templates.js:184 | the fixed request is already in normal form |
| History.Filter | enhanced-features.js:51 | filtering never lengthens a list |
| History.FilterMembers | enhanced-features.js:51 | an element is kept exactly when it is in the list and passes the test |
| History.FilterAppend | enhanced-features.js:51 | filtering keeps the relative order of the parts of a list |
| History.FilterIsSubsequence | enhanced-features.js:82-87 | a filter result is a subsequence of its input |
| History.PrefixOfSubsequence | enhanced-features.js:88 | a prefix of a subsequence is a subsequence |
| History.SavePrompt | enhanced-features.js:19-40 | `savePrompt`; its contract is stated by `History.SaveKeepsNewest` and `History.SavedWordCount` |
| History.SaveKeepsNewest | enhanced-features.js:19-40 | the new entry comes first, followed by the newest old entries, fifty at most; favourites are untouched |
| History.SavedWordCount | enhanced-features.js:27 | the recorded word count of a trimmed non-empty text is its number of words |
| History.FindById | enhanced-features.js:43-44 | the lookup finds the first entry with the id, or reports that no entry has it |
| History.AddToFavorites | enhanced-features.js:42-48 | `addToFavorites`; its contract is stated by `History.AddFavoriteCases`, `History.AddFavoriteKeepsDistinct` and `History.AddFavoriteIdempotent` |
| History.AddFavoriteCases | enhanced-features.js:42-48 | adding a favourite changes nothing when the id is absent from the history or already a favourite, and otherwise prepends a stamped copy of the history entry; the history never changes |
| History.AddFavoriteKeepsDistinct | enhanced-features.js:42-48 | favourite ids stay pairwise distinct |
| History.AddFavoriteIdempotent | enhanced-features.js:42-48 | adding the same favourite twice is adding it once |
| History.RemoveFromFavorites | enhanced-features.js:50-53 | `removeFromFavorites`; its contract is stated by `History.RemoveFavoriteSpec` and `History.WithoutKeepsDistinct` |
| History.RemoveFavoriteSpec | enhanced-features.js:50-53 | exactly the favourites with other ids remain, in their order; the history is untouched; removing twice is removing once |
| History.WithoutKeepsDistinct | enhanced-features.js:50-53 | removing favourites keeps their ids distinct |
| History.GetRecentPrompts | enhanced-features.js:72-74 | `getRecentPrompts`; its contract is stated by `History.ViewsAreNewest` |
| History.GetFavorites | enhanced-features.js:76-78 | `getFavorites`; its contract is stated by `History.ViewsAreNewest` |
| History.ViewsAreNewest | enhanced-features.js:72-78 | the views return the first `min(limit, length)` entries (five by default); a negative limit leaves that many off the end |
| History.CommonCount | enhanced-features.js:85 | the common-token count never exceeds the current prompt's token count |
| History.CommonCountAtLeastTwo | enhanced-features.js:85-86 | two common tokens means two distinct positions of the current prompt whose tokens occur in the entry, and conversely |
| History.GetSimilarPrompts | enhanced-features.js:80-89 | `getSimilarPrompts`; its contract is stated by `History.SimilarSpec` |
| History.SimilarSpec | enhanced-features.js:80-89 | similar prompts come from the history in order, at most `limit` of them (three by default), each sharing two tokens; they are the first similar entries in history order, `min(limit, count)` of them, and a similar entry is left out only when the limit is reached |
| Analytics.HalfRounded | enhanced-features.js:176-178 | halving with `Math.round` gives `r` with `2r` equal to the sum or one more |
| Analytics.TrackPrompt | enhanced-features.js:172-182 | `trackPrompt`; its contract is stated by `Analytics.TrackPromptSpec`, `Analytics.TrackFixedPoint` and `Analytics.TrackAllSpec` |
| Analytics.TrackPromptSpec | enhanced-features.js:172-182 | the counter goes up by one, style and category are the latest arguments, and the score lands between the old score and the new improvement |
| Analytics.TrackFixedPoint | enhanced-features.js:176-178 | tracking an improvement equal to the score leaves the score as it is |
| Analytics.TrackAllSpec | enhanced-features.js:172-182 | over a run of prompts the counter grows by their number, the last style and category win, and the score stays in any range holding the start score and all improvements |
| Storage.MergeLaws | background.js:109-112 | writing nothing changes nothing, and writing the same keys twice is writing them once |
| Storage.MergeTwice | background.js:109-112 | two writes in a row are one write of both, the later winning |
| Background.RemainingFree | background.js:235 | the remaining allowance is never negative, is zero exactly at or past the limit, and otherwise completes the count to five |
| Background.OnInstalled | background.js:5-19 | `onInstalled`; its contract is stated by `Background.InstallDefaults`, and by `Background.MigrationOnlyFills` for an update |
| Background.InstallDefaults | background.js:5-19 | after install, usage is zero for today, the user is not Pro, the theme is light, the total is zero, and the install date is set |
| Background.ResetDailyUsage | background.js:105-122 | `resetDailyUsage`; its contract is stated by `Background.ResetOnlyTouchesUsage` |
| Background.ResetOnlyTouchesUsage | background.js:105-122 | the daily reset zeroes usage for today and changes no other key |
| Background.CheckAndResetDailyUsage | background.js:91-102 | `checkAndResetDailyUsage`; its contract is stated by `Background.CheckAndResetLeavesToday` |
| Background.CheckAndResetLeavesToday | background.js:91-102 | the check always leaves today's record, resets only a stale day, and is idempotent |
| Background.HandleExtensionUpdate | background.js:125-159 | `handleExtensionUpdate`; its contract is stated by `Background.MigrationOnlyFills` and `Background.MigrationIdempotent` |
| Background.MigrationOnlyFills | background.js:125-159 | the migration fills exactly the missing keys (total from the daily count, light theme, install date) and overwrites nothing |
| Background.MigrationIdempotent | background.js:125-159 | running the migration again changes nothing |
| Background.HandleGetUsageStats | background.js:212-241 | `handleGetUsageStats`; its contract is stated by `Background.StatsAfterNewDay` and `Background.StatsRemainingInRange` |
| Background.StatsAfterNewDay | background.js:212-241 | on a new day the statistics report zero uses and the full allowance, after a reset |
| Background.StatsRemainingInRange | background.js:235 | the reported allowance lies between zero and five |
| Background.HandleIncrementUsage | background.js:244-272 | `handleIncrementUsage`; its contract is stated by `Background.IncrementCounts`, `Background.IncrementRemaining` and `Background.IncrementKeepsStaleCount` |
| Background.IncrementCounts | background.js:244-272 | both counters go up by one, the day becomes today, nothing else changes, and the reply reports the new counts |
| Background.IncrementRemaining | background.js:266 | a Pro user's reply reports -1; a free user's reports the non-negative allowance left |
| Background.IncrementKeepsStaleCount | background.js:252-258 | an increment on a new day continues yesterday's count instead of restarting it |
| Background.PlanOf | background.js:293 | the stored plan is never empty |
| Background.HandleUpgradeToPro | background.js:285-308 | `handleUpgradeToPro`; its contract is stated by `Background.UpgradeStoresPlan` |
| Background.UpgradeStoresPlan | background.js:285-308 | the upgrade makes the user Pro with the requested plan (monthly when missing or empty) and leaves usage alone |
| Background.Dispatch | background.js:182-209 | the message listener; its contract is stated by `Background.DispatchUnknown` |
| Background.DispatchUnknown | background.js:182-209 | exactly the four known message types reach a handler; any other is answered with the error and changes nothing |
| Popup.CheckUsageLimit | popup.js:214-228 | `checkUsageLimit`; its contract is stated by `Popup.UsageLimitCases` |
| Popup.UsageLimitCases | popup.js:214-228 | a failed read denies, a Pro user passes, and a free user passes exactly below five uses |
| Popup.IncrementUsage | popup.js:231-242 | `incrementUsage`; its contract is stated by `Popup.PopupIncrementOnlyDaily` |
| Popup.PopupIncrementOnlyDaily | popup.js:231-242 | the popup's increment raises only the daily count, by one |
| Popup.GeneratePrompt | popup.js:177-211 | `generatePrompt`; its contract is stated by `Popup.GenerateGatesThenCounts`, `Popup.FreeUsesPerDay` and `Popup.ProUsesUnlimited` |
| Popup.GenerateGatesThenCounts | popup.js:177-211 | a denied use changes nothing and shows nothing; an allowed use is counted once and shows the enhanced prompt |
| Popup.FreeUsesPerDay | popup.js:177-187 | a free user with `u` uses gets exactly `min(n, max(0, 5 - u))` of `n` attempts |
| Popup.ProUsesUnlimited | popup.js:177-187 | a Pro user is admitted every time |
| Popup.CalculateImprovement | popup.js:262-275 | `calculateImprovement`; its contract is stated by `Popup.ImprovementTiers` and `Popup.WordsOfCountsWords` |
| Popup.ImprovementTiers | popup.js:262-275 | each label is characterised by the word ratio alone, in both directions |
| Popup.WordsOfCountsWords | popup.js:263-264 | the word count used is the number of words, with a blank text counting as one |
| Popup.TrimKeepsWords | popup.js:263-264 | trimming removes no word |
| Popup.InitializeExtension | popup.js:64-71 | the new-day check of `initializeExtension`; its contract is stated by `Popup.InitializeResetsStaleDay` |
| Popup.InitializeResetsStaleDay | popup.js:64-71 | opening the popup on a new day zeroes usage for today; on the same day it changes nothing |
| Popup.HandlePromptInput | popup.js:109-130 | `handlePromptInput`; its contract is stated by `Popup.NextEnabledRule` |
| Popup.NextEnabledRule | popup.js:109-130 | Next is enabled from three characters on and disabled for one or none; the raw text is stored |
| Popup.HandleStyleSelection | popup.js:133-148 | `handleStyleSelection`; its contract is stated by `Popup.MakePromptEnableRules` |
| Popup.HandleCustomStyleInput | popup.js:151-155 | `handleCustomStyleInput`; its contract is stated by `Popup.MakePromptEnableRules` |
| Popup.MakePromptEnableRules | popup.js:132-155 | Make-prompt is disabled exactly for `custom` with a blank custom text; typing disables it exactly for blank text; the stored custom text is trimmed |

## Left out

- Browser I/O is not modelled: the `chrome.storage` calls themselves, alarms, runtime messaging channels, tabs, the clipboard and the DOM. The model keeps the record transitions they carry. A failed store read is modelled only where the code acts on it: the quota gate denies. Other failures only log, so they are not modelled.
- `setupDailyResetAlarm` and its millisecond arithmetic (background.js:63-88) is wall-clock float arithmetic. The alarm handler's reset is `ResetDailyUsage`.
- Concurrency is not modelled, e.g. two popups racing between the gate and the increment.
- `PromptHistory.calculateImprovement` (enhanced-features.js:66-70) is left out because it rounds a float ratio. The improvement score is a parameter of `SavePrompt` and `TrackPrompt`.
- `loadData`, `saveData`, `loadStats` and `saveStats` are storage I/O. The state is the pair of lists and the statistics record.
- `AIIntegration` is left out because it is clipboard and tab I/O.
- `quickTemplates`, `contextEnhancers` and the `minWords`/`targetWords` fields are left out because no logic reads them.
- `background_simple.js` is left out. It duplicates the install defaults and the startup reset of `background.js`.
- The popup's theme, character-count colours, toast and modal display are left out.
- JavaScript's full `\s` set and full Unicode case mapping are not modelled. Whitespace and letters are ASCII.
- Replace: `$n` and `$<name>` replacement patterns are not modelled; they are impossible with a string pattern. `$$`, `$&`, `` $` `` and `$'` are modelled.
- A `null` or `undefined` message, which throws into the catch at background.js:205-208, is not modelled. A message whose `type` is missing takes the `default` branch (background.js:201-203), which `Background.Dispatch` covers as any kind other than the four known ones.
- Background.StatsRemainingInRange: the upper bound of five needs a non-negative stored count. A negative stored `dailyUsage` would report more than five remaining uses.
- Expand.ExpandWithTemplateShape: stated only for prompts without `$` or `{`. With those characters a topic can be reinterpreted as a replacement pattern, or can hold a later placeholder.
- Normalize.OptimizeIdempotent: stated only for text that does not start with whitespace. `Normalize.OptimizeNeedsSolidStart` shows it fails otherwise.
- Popup.NextEnabledRule: states the rule by the number of characters. The exact threshold is in UTF-16 code units, so a two-character prompt with a character outside the Basic Multilingual Plane may go either way.
- History.SavedWordCount: relates the stored count to the number of words only for trimmed non-empty text. The untrimmed split counts an extra piece at each whitespace end.
- Enhance.EnhanceNormalForm: does not claim that the original prompt appears verbatim in the result, because pass 3 may capitalise its letters. Verbatim containment is stated before normalisation by `Expand.FrameKeepsPrompt` and `Expand.ExpandWithTemplateShape`.
