# Portfolio site: chat assistant, contact form, typewriter and nav highlight

A Dafny model of the logic behind a personal portfolio site. The model covers two script files.

`ai-agent.js` holds a chat widget that answers questions about the site's owner:
- a fact base (the owner's résumé);
- a local keyword responder: it lower-cases the question, tries eight keyword rules in a fixed order and renders the first matching rule's answer from the fact base;
- the API-key check that decides whether a language-model service is asked first;
- the formatter that turns `**bold**`, `*italic*` and line feeds into HTML.

`script.js` holds the page behaviour:
- validation of the contact form;
- the hero banner's typewriter;
- the scroll handler that marks the navigation link of the section being read.

Modules:
- `Wrappers`: `Option`.
- `Text`: the JavaScript string operations used here as functions with proved properties: `includes`, `toLowerCase` (ASCII letters and the KELVIN SIGN), `join`, `filter` and `trim`. A first-occurrence search and a `split` built on it are not used by the page; they show that the joined projects list can be taken apart again.
- `Facts`: the fact base as an immutable record, with `SenthilData()` holding the owner's data.
- `Responder` and `ResponderProperties`: the local responder.
  - `Classify` implements the rule table.
  - `Render` renders the answer templates.
  - `Respond` composes lower-casing, classification and rendering.
  - The fixed prose of the answers is a `Wording` parameter, so the properties hold for any wording. `SourceWording` holds the agent's own text, and the page's answers are `Respond(query, SenthilData(), SourceWording)`.
- `ResponderExamples`: concrete queries and the answers they get.
- `Chat` and `ChatProperties`: `getAIResponse` and one turn of `sendMessage`. The service's reply is an input.
- `Format` and `FormatProperties`: `formatMessage` as hand-written scanners for the three replacements.
- `ContactForm` and `ContactFormProperties`: trimming, the e-mail pattern, the validation ladder and the submit handler's outcome. The server's reply is an input.
- `Typing` and `TypingProperties`: the typewriter.
  - `Typing.Next` is one call of `type()` as a function.
  - `Typing.Typewriter` is the class whose `Step` method updates the four closure variables in place.
  - The lemmas describe whole typing/deleting cycles.
- `Navigation` and `NavigationProperties`: the active section.
  - A loop method over the sections, proved against a recursive reference function.
  - A loop method that marks the links in an array.

Two consequences of the rule order worth noting:
- "I want a full stack developer" contains both `full` and `stack`, so one might expect the full-stack answer. The projects rule is tried first, and the query contains `develop`, so it gets the projects answer (`ResponderExamples.FullStackDeveloperQuery`).
- The nav handler compares each link's `href` with `"#" + current`. When no section spans the activation line, `current` is `""`, so a link whose `href` is exactly `"#"` is the one marked active (`Navigation.HighlightLinks`).

## Model

| member | source | states |
|---|---|---|
| Text.ContainsIffOccurs | ai-agent.js:244 | `includes` holds exactly when the keyword occurs at some index |
| Text.ContainsToLower | ai-agent.js:240 | a piece of a string is still a piece after both are lower-cased |
| Text.ToLowerIdempotent | ai-agent.js:240 | lower-casing twice equals lower-casing once |
| Text.ToLower | ai-agent.js:240 | `toLowerCase` on the letters that matter for the keywords; its properties are `ContainsToLower` and `ToLowerIdempotent` |
| Text.Contains | ai-agent.js:244 | `includes`; `ContainsIffOccurs` states it holds exactly when the piece occurs at some index |
| Text.LacksCharacter | ai-agent.js:244 | a string missing one of the keyword's characters cannot contain the keyword |
| Text.ContainsTransitive | ai-agent.js:244 | a piece of a piece is a piece |
| Text.ContainsAcross | ai-agent.js:308 | a keyword without the joining character, found in `a + [c] + b`, lies wholly in `a` or in `b` |
| Text.JoinHoldsItem | ai-agent.js:260-262 | every item of a joined list appears in the joined text |
| Text.JoinAvoids | ai-agent.js:260-262 | a character absent from the items and the separator is absent from the joined text |
| Text.Join | ai-agent.js:260-262 | `join`; `JoinHoldsItem`, `JoinAvoids` and `SplitJoin` state what the joined text holds and that it splits back |
| Text.Filter | ai-agent.js:246 | `filter(x => keep.includes(x))` keeps exactly the items that are in the keep list, and never grows the list |
| Text.FilterAppend | ai-agent.js:246 | filtering a concatenation filters each part and concatenates the results, so the kept items stay in their order |
| Text.FilterSingle | ai-agent.js:246 | a one-item list keeps its item exactly when the keep list holds it |
| Text.FindFirst | ai-agent.js:262 | the first occurrence of a separator, or none anywhere; `SplitJoin` uses it to split the projects list |
| Text.SplitJoin | ai-agent.js:262 | splitting a separator-joined list whose items lack the separator's first character gives back the list |
| Text.TrimStart | script.js:506-509 | strips exactly the leading whitespace and leaves a non-whitespace first character |
| Text.TrimEnd | script.js:506-509 | strips exactly the trailing whitespace and leaves a non-whitespace last character |
| Text.Trim | script.js:506-509 | the result is trimmed, is empty iff the input is all whitespace, and an already trimmed string is unchanged |
| Text.TrimIsInnerSlice | script.js:506-509 | `trim` keeps a contiguous slice of the input, and only whitespace lies before and after it |
| Responder.RuleGuards | ai-agent.js:244-340 | each rule fires exactly when one of its listed keywords occurs in the query (both directions) |
| Responder.Classify | ai-agent.js:243-353 | the chosen rule matches the query and no earlier rule does |
| Responder.ProjectParagraphs | ai-agent.js:260-262 | one paragraph per project, in fact-base order |
| Responder.SkillsAnswer | ai-agent.js:245-256 | the skills template; `SkillsAnswerLists` states what it lists |
| Responder.ProjectsAnswer | ai-agent.js:259-268 | the projects template; `ProjectsAnswerLists` and `ParagraphDescribesProject` state what it lists |
| Responder.ContactAnswer | ai-agent.js:284-292 | the contact template; `ContactAnswerQuotesChannels` states the channels it quotes |
| Responder.Render | ai-agent.js:245-352 | the answer of each rule; `AnswerIsNonEmpty` and `PageAnswerIsNonEmpty` state it is never empty |
| Responder.Respond | ai-agent.js:239-353 | lower-case, classify, render; `RespondIsCaseInsensitive`, `FirstMatchWins`, `DefaultIffNoRule` and `SkillMentionWins` state how the rule is chosen |
| ResponderProperties.RespondIsCaseInsensitive | ai-agent.js:240 | a query and its lower-cased form get the same answer |
| ResponderProperties.FirstMatchWins | ai-agent.js:243-340 | a matching rule with no earlier matching rule is the one chosen |
| ResponderProperties.SkillsRuleIsSkillOrTech | ai-agent.js:244 | the skills rule fires iff the query contains `skill` or `tech` (`technical`, `technology` are subsumed) |
| ResponderProperties.SkillMentionWins | ai-agent.js:244-256 | any query containing `skill` or `tech` in any case gets the skills answer, whatever else it mentions |
| ResponderProperties.FullStackRuleIsFullAndStack | ai-agent.js:308 | the full-stack test holds iff the query contains both `full` and `stack` (the `fullstack`, `full-stack` alternatives are subsumed) |
| ResponderProperties.DevelopShadowsFullStack | ai-agent.js:259-308 | a query containing `develop` gets the skills or projects answer, never the full-stack one |
| ResponderProperties.DefaultIffNoRule | ai-agent.js:342-352 | the default answer is chosen iff no rule matches |
| ResponderProperties.NoKeywordGetsDefault | ai-agent.js:342-352 | a query with no keyword of any rule gets exactly the onboarding text |
| ResponderProperties.AnswerIsNonEmpty | ai-agent.js:239-353 | every answer is non-empty when every piece of the wording is |
| ResponderProperties.SourceWordingIsSpoken | ai-agent.js:245-352 | every fixed text of the agent's own answers is non-empty |
| ResponderProperties.PageAnswerIsNonEmpty | ai-agent.js:239-353 | in the agent's own wording every answer is non-empty, whatever the fact base |
| ResponderProperties.FramingProseIsNonEmpty | ai-agent.js:245-292 | the agent's intro and closing texts of the skills, projects and contact answers are non-empty |
| ResponderProperties.TopicProseIsNonEmpty | ai-agent.js:273-319 | the education, MERN and full-stack answers are non-empty |
| ResponderProperties.ClosingProseIsNonEmpty | ai-agent.js:324-352 | the python, experience and default answers are non-empty |
| ResponderProperties.ContactAnswerQuotesChannels | ai-agent.js:284-292 | the contact answer contains the e-mail, phone, portfolio, `linkedin.com/in/` + LinkedIn id and GitHub verbatim |
| ResponderProperties.ParagraphDescribesProject | ai-agent.js:260-262 | a project's paragraph contains its name, duration, description, comma-joined technologies and repository link |
| ResponderProperties.ProjectsAnswerLists | ai-agent.js:260-268 | the projects answer contains the project list, and splitting that list at blank lines gives one paragraph per project, in order |
| ResponderProperties.SkillsAnswerLists | ai-agent.js:244-256 | the skills answer contains the joined databases and tools and the four filtered lists of frontend and backend languages and frameworks |
| ResponderExamples.FullStackLetters | ai-agent.js:244-340 | a query made only of the letters of "full stack" gets the full-stack rule iff it contains `full` and `stack`, else the default |
| ResponderExamples.FullStackSpacedQuery | ai-agent.js:240-308 | "Full Stack" gets the full-stack answer |
| ResponderExamples.FullStackJoinedQuery | ai-agent.js:308 | "fullstack" gets the full-stack answer |
| ResponderExamples.FullAlone | ai-agent.js:308-352 | "Full" alone gets the default answer |
| ResponderExamples.FullStackDeveloperAnswer | ai-agent.js:259-308 | a query lower-casing to "i want a full stack developer" mentions full and stack, yet gets the projects answer |
| ResponderExamples.FullStackDeveloperQuery | ai-agent.js:259-308 | "I want a full stack developer" gets the projects answer |
| ResponderExamples.ContactQuestionClassified | ai-agent.js:284 | "how can i contact him?" is classified as a contact question |
| ResponderExamples.ContactQuery | ai-agent.js:240-293 | "How can I contact him?" gets the contact answer |
| ResponderExamples.FavoriteColor | ai-agent.js:244-352 | a query built from the words of "what is your favorite color" matches no rule |
| ResponderExamples.FavoriteColorQuery | ai-agent.js:342-352 | "what is your favorite color" gets the onboarding answer |
| Chat.GetAIResponse | ai-agent.js:166-177 | the service's text is used iff the key is present, non-empty and not the placeholder and the call succeeded; otherwise the local answer |
| Chat.SendMessage | ai-agent.js:136-163 | a blank input is ignored; otherwise the trimmed question is answered and both bubbles are formatted, with no line feed left in either |
| ChatProperties.NoKeyAnswersLocally | ai-agent.js:167-176 | without a usable key the local responder answers |
| ChatProperties.UnusableKeys | ai-agent.js:167 | a missing key, the empty key and the placeholder key never reach the service |
| ChatProperties.FailureFallsBack | ai-agent.js:168-176 | a failed service call falls back to the local responder |
| ChatProperties.LocalAnswerIsNonEmpty | ai-agent.js:176 | a local answer is non-empty when the wording is |
| ChatProperties.PageLocalAnswerIsNonEmpty | ai-agent.js:166-177 | in the agent's own wording a local answer is never empty, whatever the fact base |
| ChatProperties.SendIgnoresPadding | ai-agent.js:137 | surrounding whitespace does not change a turn |
| Format.FindClose | ai-agent.js:376-377 | a closing delimiter, when found, lies within the rest of the text |
| Format.Emphasize | ai-agent.js:376-377 | one global lazy-regex replacement; `FindCloseFound` and `FindCloseMissing` state where a match ends, `EmphasizeSkips` and `EmphasizeKeepsPlain` what is copied, `StarsPaired` what is left of the delimiter, and `WrapWord`, `BoldWord` and `ItalicWord` what a delimited word becomes |
| Format.ReplaceNewlines | ai-agent.js:378 | the `<br>` replacement; `ReplaceNewlinesRemovesFeeds`, `ReplaceNewlinesLength` and `LinesBecomeBreaks` state its effect |
| Format.FormatMessage | ai-agent.js:374-380 | bold, then italic, then line breaks; `FormattedIsOneLine`, `PlainTextUnchanged`, `BoldWord` and `ItalicWord` state its effect |
| FormatProperties.FindCloseFound | ai-agent.js:376-377 | the lazy `(.*?)` stops at the first closing delimiter, and the span before it has no line terminator |
| FormatProperties.FindCloseMissing | ai-agent.js:376-377 | when no close is found, every later delimiter lies beyond a line terminator |
| FormatProperties.NoCloseOnLine | ai-agent.js:377 | on a single line, an unmatched single delimiter means none follows |
| FormatProperties.FormattedIsOneLine | ai-agent.js:374-380 | formatted text contains no line feed |
| FormatProperties.ReplaceNewlinesRemovesFeeds | ai-agent.js:378 | no line feed survives the `<br>` replacement |
| FormatProperties.ReplaceNewlinesKeepsPlain | ai-agent.js:378 | text without line feeds is unchanged by the `<br>` replacement |
| FormatProperties.EmphasizeKeepsPlain | ai-agent.js:376-377 | text without the delimiter's first character is unchanged by emphasis |
| FormatProperties.PlainTextUnchanged | ai-agent.js:374-380 | text with no `*` and no line feed is returned unchanged |
| FormatProperties.ReplaceNewlinesLength | ai-agent.js:378 | each line feed lengthens the text by three characters and nothing else changes the length |
| FormatProperties.ReplaceNewlinesAppend | ai-agent.js:378 | the `<br>` replacement distributes over concatenation |
| FormatProperties.LinesBecomeBreaks | ai-agent.js:378 | lines joined by line feeds come out joined by `<br>` |
| FormatProperties.EmphasizeSkips | ai-agent.js:376-377 | a prefix without the delimiter passes through emphasis untouched |
| FormatProperties.StarsPaired | ai-agent.js:377 | after the italic pass a single line keeps at most one `*` |
| FormatProperties.FindCloseAfterWord | ai-agent.js:376-377 | the close right after a delimiter-free word is found at the word's end |
| FormatProperties.WrapWord | ai-agent.js:376-377 | a delimited word becomes open tag + word + close tag |
| FormatProperties.BoldWord | ai-agent.js:376 | `**w**` becomes `<strong>w</strong>` |
| FormatProperties.SinglesPassDouble | ai-agent.js:376-377 | single stars around a word are not taken for the bold delimiter |
| FormatProperties.ItalicWord | ai-agent.js:377 | `*w*` becomes `<em>w</em>` |
| ContactForm.IndexOf | script.js:512 | the first index of a character, or its absence |
| ContactForm.EmailPatternMatches | script.js:512 | the pattern `^[^\s@]+@[^\s@]+\.[^\s@]+$` as a predicate; `PatternHasNoWhitespace` and `PatternHasOneAt` state what a match implies |
| ContactForm.ValidEmail | script.js:512-518 | the scanner accepts exactly the strings the e-mail pattern matches |
| ContactForm.PatternFromScan | script.js:512 | no whitespace, a non-empty part before the first `@`, no further `@`, and an inner dot after it imply a match |
| ContactForm.ScanFromPattern | script.js:512 | a match implies those scanner conditions |
| ContactForm.PatternHasNoWhitespace | script.js:512 | a matched e-mail has no whitespace |
| ContactForm.PatternHasOneAt | script.js:512 | a matched e-mail has exactly one `@`, at the split point |
| ContactForm.Validate | script.js:514-520 | the first failing check, in the order name, e-mail present, e-mail format, subject, message; no error iff all pass |
| ContactForm.OrElse | script.js:545-548 | a reply field with its fallback: the field's text when it is present and non-empty, the fallback otherwise |
| ContactForm.ReplyNotice | script.js:543-553 | a success notice iff the server accepted; the server's message or "Message sent successfully!", the server's error or "Failed to send message.", and "Failed to send message. Please try again." when the request failed; never an empty text |
| ContactForm.Submit | script.js:506-553 | a payload is posted iff validation passes, and it is exactly the four trimmed fields; otherwise the validation error is shown; after a post the notice is the reply's notice (`ReplyNotice`); the form is cleared iff the notice is a success |
| ContactFormProperties.BlankNameRejected | script.js:506-516 | a whitespace-only name is reported as missing and nothing is posted |
| ContactFormProperties.PostedPayloadIsClean | script.js:506-534 | every posted field is trimmed, the text fields are non-empty and the e-mail matches the pattern |
| ContactFormProperties.SpaceMakesEmailInvalid | script.js:512 | any whitespace makes an e-mail invalid |
| ContactFormProperties.SecondAtMakesEmailInvalid | script.js:512 | two `@` make an e-mail invalid |
| ContactFormProperties.EmailExamples | script.js:512 | `a@b.co` is accepted; `a@b`, `@b.co` and `a@.co` are rejected |
| Typing.Prefix | script.js:114-117 | `substring(0, k)` clamps k into the string's bounds and returns a prefix |
| Typing.Next | script.js:110-132 | one tick keeps the invariant (index in range, `charIndex` within the title, text is its prefix), moves `charIndex` by one, turns to deleting with delay 2000 exactly at the end of the title, turns back with delay 500 and the next title (mod the count) exactly at 0, waits 100 while typing and 50 while deleting, and is deleting afterwards iff it was deleting and characters remain, or it was typing and reached the end |
| Typing.Run | script.js:110-135 | any number of ticks keeps the invariant |
| Typing.Typewriter.constructor | script.js:99-108 | the banner starts at the first title, empty, typing, and satisfies the invariant |
| Typing.Typewriter.Step | script.js:110-135 | one call of `type()` updates the state to the next tick and returns its delay |
| TypingProperties.RunAppend | script.js:134 | running a then b ticks equals running a + b ticks, with delays added |
| TypingProperties.TypingPhase | script.js:116-123 | while typing, k ticks add k characters at 100 ms each |
| TypingProperties.DeletingPhase | script.js:113-123 | while deleting, k ticks remove k characters at 50 ms each |
| TypingProperties.FullCycle | script.js:110-132 | typing and deleting a title takes twice its length in ticks and ends at the next title, empty |
| TypingProperties.TwoTitlePeriod | script.js:110-132 | with two titles the banner returns to its starting state after typing and deleting both |
| TypingProperties.HeroBannerPeriod | script.js:99-132 | the hero banner's two titles repeat every 80 ticks, 10.7 seconds |
| Navigation.LastInView | script.js:61-66 | the last section spanning the activation line, or none |
| Navigation.CurrentId | script.js:58-66 | the reference for the loop's `current`; `CurrentIdIsInView` states it names a section in view or is `""` |
| Navigation.ActiveSectionId | script.js:58-66 | the loop's `current` equals the reference function: the id of the last section in view, or `""` |
| Navigation.HighlightLinks | script.js:68-73 | exactly the links whose href is `"#" + current` are marked active |
| NavigationProperties.StackedStartsBelow | script.js:61-66 | in a stacked layout every later section starts below the end of an earlier one |
| NavigationProperties.StackedHasOneInView | script.js:61-66 | in a stacked layout at most one section spans the activation line |
| NavigationProperties.CurrentIdIsInView | script.js:58-66 | the current id is `""` or the id of a section in view, and `""` when none is in view |
| NavigationProperties.AtMostOneActive | script.js:68-73 | with distinct hrefs at most one link is active |

## Left out

- The language-model request: the HTTP call, the system prompt and the conversation history with its last-ten window. These are network I/O and a remote model; the call's outcome is a parameter of `Chat.GetAIResponse`.
- The contact form's POST and JSON parsing. The server's reply is a `Reply` parameter of `ContactForm.Submit`.
- DOM work: building message bubbles, status text, button and loading state, notifications, the skip link, navbar styling and smooth scrolling.
- Timers, observers and animations: `setTimeout` scheduling, debounce, skill bars, lazy loading and the loading screen. The typewriter's delays are returned as values instead.
- The first contact-form handler (`initContactForm`). Both handlers are attached to the same form, so both run on every submit. Two seconds after every submit the first one replaces whatever notice is shown with a success message and clears the form, whether or not the second handler rejected the input or the server refused it. `ContactForm.Submit` describes the second handler alone.
- Key storage in `localStorage`, `setOpenAIKey`, online/offline events and the footer year.
- The emoji-wrapping step of `formatMessage`. It relies on multi-code-unit Unicode matching.
- Text.ToLower maps the ASCII letters and U+212A KELVIN SIGN only. JavaScript's `toLowerCase` also maps other scripts, but no other code point lower-cases to a single ASCII letter, so no keyword test can differ. U+0130 lower-cases to `i` followed by U+0307, and no keyword has an `i` followed by U+0307.
- Strings are sequences of code points. JavaScript strings are sequences of UTF-16 code units, so lengths and indices differ for characters outside the Basic Multilingual Plane, such as the emoji in the answers.
- The apology message in `sendMessage`'s `catch`. `getAIResponse` already catches the service's failure, so the local responder never throws. The `catch` also covers a failure while showing the reply, such as `formatMessage` applied to a service reply that is not a string; `remote: Option<string>` cannot express such a reply.
- Section positions are whole pixels. The page's `getBoundingClientRect` values are floating point.
- ResponderProperties.SkillsAnswerLists states which lists the skills answer contains, not the exact layout around them.
