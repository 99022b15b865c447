# Portfolio site logic, modelled in Dafny

This project models the logic of a personal portfolio web site:

- the backend's resume share-link store: ids issued by `generateShareLink`, click tracking in `getSharedResume`, and the JSON file that persists the map;
- the three validators of the contact form:
  - the browser form's `validate`, with its email pattern, plus `handleChange` and the status handling of `handleSubmit`;
  - the Express endpoint's express-validator rules and the decision logic of `sendMessage`;
  - the serverless `handler`'s method dispatch, field gate and two-mail sequence;
- the index arithmetic and card placement of the testimonial and achievement carousels;
- the category filter and tag badges of the portfolio grid;
- the navigation bar's scroll-spy, link highlighting and mobile menu.

Module by module:

- `Js` (`js.dfy`) holds the JavaScript behaviour the others rely on: truthiness of optional strings, `String.prototype.trim` over the ECMAScript whitespace set, the UTF-16 length that `.length` reports, the `\n` → `<br>` rewrite, and the no-repeats predicate `Distinct`.
- `ShareLinks` (`share_links.dfy`) is a class. It holds the in-memory map, an abstract picture of the file on disk, and a ghost log of every map handed to the save routine. The id generator, the clock, the request headers and the outcome of each file write are parameters.
- `ContactForm`, `ContactController` and `ContactApi` model the three validators. The network round trip, `sendMail` and the express-validator library functions (`isEmail`, `normalizeEmail`, `escape`) are parameters.
- `ContactLayers` relates the three validators to one another.
- `Carousel` is the index state that both carousels share. `Testimonials` and `Achievements` add each one's `getCardStyle` and, for testimonials, the drag gesture.
- `Portfolio` holds the project list, the filter and the tag slicing, as pure functions.
- `Navbar` is a class with the scroll handler's loop.

## Model

| member | source | states |
|---|---|---|
| Js.OrElse | backend/src/controllers/resumeController.js:36 | `a \|\| b` on an optional string yields the value when it is truthy (non-empty), else the fallback |
| Js.Trim | backend/src/controllers/contactController.js:7 | the trimmed text is never longer than the input (its slice and padding properties are the lemmas below) |
| Js.TrimStartSpec | backend/src/controllers/contactController.js:7 | the leading-trim result is a suffix that does not start with whitespace, and everything dropped is whitespace |
| Js.TrimEndSpec | backend/src/controllers/contactController.js:7 | the trailing-trim result is a prefix that does not end with whitespace, and everything dropped is whitespace |
| Js.TrimIsInnerSlice | backend/src/controllers/contactController.js:7 | `trim` returns a contiguous slice of the input, with only whitespace on either side of it |
| Js.TrimStartOfWhitespace | frontend/src/components/ContactForm.jsx:58 | leading-trimming a string made only of whitespace leaves nothing |
| Js.TrimStartDropsPadding | backend/src/controllers/contactController.js:28 | leading whitespace in front of a non-whitespace character is exactly what is dropped |
| Js.TrimEndDropsPadding | backend/src/controllers/contactController.js:28 | trailing whitespace after a non-whitespace character is exactly what is dropped |
| Js.TrimPadded | backend/src/controllers/contactController.js:28 | trimming a text padded with whitespace on both sides gives back the text |
| Js.BlankIffAllWhitespace | frontend/src/components/ContactForm.jsx:58 | `!s.trim()` holds exactly when every character of `s` is whitespace |
| Js.TrimIdempotent | backend/src/controllers/contactController.js:7 | trimming twice is trimming once |
| Js.Utf16Length | frontend/src/components/ContactForm.jsx:72 | `.length` counts one unit per character of the Basic Multilingual Plane and two for any other, so it lies between the number of characters and twice that |
| Js.Utf16LengthOfBmp | frontend/src/components/ContactForm.jsx:72 | a text of Basic Multilingual Plane characters has a `.length` equal to its number of characters |
| Js.FiveEmojiAreTenUnits | frontend/src/components/ContactForm.jsx:72 | five emoji are five characters but ten UTF-16 units |
| Js.BreakLines | api/contact.js:49 | `replace(/\n/g, '<br>')`, character by character; what it guarantees is stated by the four lemmas that follow |
| Js.BreakLinesRemovesNewlines | backend/src/controllers/contactController.js:129 | no `\n` is left after the `<br>` rewrite |
| Js.BreakLinesLength | api/contact.js:49 | the rewrite lengthens the message by 3 per newline |
| Js.BreakLinesIdentity | api/contact.js:49 | a message without newlines is left as it is |
| Js.BreakLinesAppend | backend/src/controllers/contactController.js:129 | the rewrite of a concatenation is the concatenation of the rewrites, because the `g` flag replaces every newline |
| ShareLinks.ShareUrl | backend/src/controllers/resumeController.js:50 | the share URL is the base URL, then `/api/resume/share/`, then the id, piece by piece |
| ShareLinks.LoadLinks | backend/src/controllers/resumeController.js:12-21 | `loadShareLinks`: the parsed map when the file exists and parses, the empty map otherwise; its partners are `SaveLoadRoundTrip` and `RestartAfterSaves` |
| ShareLinks.AfterSave | backend/src/controllers/resumeController.js:23-29 | after a save the file loads as the saved map when every byte was written, even if closing the file then threw; after a write that threw earlier it loads as before, or as the empty map when it left a truncated file |
| ShareLinks.BaseUrl | backend/src/controllers/resumeController.js:36 | `BASE_URL` when it is set and non-empty, otherwise `protocol://host` from the request |
| ShareLinks.Issue | backend/src/controllers/resumeController.js:42-46 | the map after `shareLinks[shortId] = …` has the old keys plus the id, holds the record under the id, and keeps every other entry |
| ShareLinks.Touch | backend/src/controllers/resumeController.js:72-76 | resolving an id keeps the set of keys and every other entry |
| ShareLinks.NewRecord | backend/src/controllers/resumeController.js:42-46 | a new record has 0 clicks, the current time as `createdAt`, no `lastAccessed`, and the Referer header or "direct" as referrer |
| ShareLinks.ShareLinkStore.Load | backend/src/controllers/resumeController.js:12-31 | start-up loads the parsed map if the file exists and parses, otherwise the empty map |
| ShareLinks.ShareLinkStore.Save | backend/src/controllers/resumeController.js:23-29 | the whole map is written; a failed write changes only the file, and the in-memory map stands |
| ShareLinks.ShareLinkStore.GenerateShareLink | backend/src/controllers/resumeController.js:34-63 | stores the new record under the id (a fresh id adds exactly one key and keeps every other entry), saves the whole map, and returns `{shareUrl, shortId}` |
| ShareLinks.ShareLinkStore.GetSharedResume | backend/src/controllers/resumeController.js:66-89 | a known id gains one click and a `lastAccessed` stamp, then the map is saved; an unknown id changes nothing and writes nothing; the answer is always a 302 to base URL + `/#resume` |
| ShareLinks.IssueFresh | backend/src/controllers/resumeController.js:42-46 | issuing under a fresh id adds exactly that key, leaves all other entries alone, and lowers no counter |
| ShareLinks.IssueReused | backend/src/controllers/resumeController.js:42-46 | issuing under an existing id silently overwrites it: the size is unchanged and its clicks restart at 0 |
| ShareLinks.TouchKnown | backend/src/controllers/resumeController.js:72-76 | resolving a known id: clicks + 1, `lastAccessed` set, `createdAt` and referrer kept, other entries unchanged |
| ShareLinks.TouchUnknown | backend/src/controllers/resumeController.js:72 | resolving an unknown id leaves the map as it is |
| ShareLinks.TouchGrows | backend/src/controllers/resumeController.js:72-76 | resolution never removes a record and never lowers a counter |
| ShareLinks.TouchAllCounts | backend/src/controllers/resumeController.js:72-76 | k resolutions of a known id add exactly k clicks, keep its creation data, leave the last time stamp, and touch no other entry |
| ShareLinks.TouchAllUnknown | backend/src/controllers/resumeController.js:72 | any number of resolutions of an unknown id leave the map unchanged |
| ShareLinks.SaveLoadRoundTrip | backend/src/controllers/resumeController.js:12-29 | after a successful save, loading gives back exactly the saved map |
| ShareLinks.SaveAll | backend/src/controllers/resumeController.js:23-29 | the file after a series of saves, each with its own write outcome |
| ShareLinks.RestartAfterSaves | backend/src/controllers/resumeController.js:12-31 | a restart after any series of saves loads the empty map, the map the process started from, or a map some save wrote in full; when the last save wrote in full, exactly that map |
| ShareLinks.ShareUrlCarriesId | backend/src/controllers/resumeController.js:50 | the share URL ends with the issued id |
| ShareLinks.CreateRestartScenario | backend/src/controllers/resumeController.js:12-48 | issue, save, restart: the reloaded record has 0 clicks, no `lastAccessed`, and the original `createdAt` and referrer |
| ShareLinks.ResolveScenario | backend/src/controllers/resumeController.js:42-76 | create, resolve, resolve an unknown id, resolve again: 2 clicks, the last access time, and no record for the unknown id |
| ContactForm.AtomHasNoAt | frontend/src/components/ContactForm.jsx:64 | a run of `[^\s@]+` has no '@' and no whitespace |
| ContactForm.MatchesEmailPattern | frontend/src/components/ContactForm.jsx:64 | the regular expression as a split of the string at an '@' and a later '.' into three `[^\s@]+` runs; `EmailPatternIffRules` states what it accepts |
| ContactForm.OnlyAtIsAtom | frontend/src/components/ContactForm.jsx:64 | in a whitespace-free string with one '@', every other character is in `[^\s@]` |
| ContactForm.SplitFollowsRules | frontend/src/components/ContactForm.jsx:64 | a match of the pattern follows the rules: no whitespace, one '@', and a '.' strictly inside the part after the '@' |
| ContactForm.RulesGiveSplit | frontend/src/components/ContactForm.jsx:64 | a string following those rules matches the pattern at that '@' and '.' |
| ContactForm.EmailPatternIffRules | frontend/src/components/ContactForm.jsx:64 | the pattern `^[^\s@]+@[^\s@]+\.[^\s@]+$` accepts exactly the strings that follow those rules |
| ContactForm.EmailPatternRejectsWhitespace | frontend/src/components/ContactForm.jsx:64 | whitespace anywhere in the address makes the pattern fail |
| ContactForm.PlainAtom | frontend/src/components/ContactForm.jsx:64 | letters, digits and dots form a `[^\s@]+` run |
| ContactForm.EmailPatternAccepts | backend/src/server.test.js:6 | the pattern accepts `test@example.com` and `user.name@domain.co.uk` |
| ContactForm.EmailPatternRejects | backend/src/server.test.js:7 | the pattern rejects `invalid`, `test@`, `@domain.com` and the empty string |
| ContactForm.FormErrors | frontend/src/components/ContactForm.jsx:55-80 | each field has an error exactly when its rule fails, and the text of every error is stated: "Name is required", "Subject is required", the email and message texts for the case that failed; the 10-character minimum counts UTF-16 units of the untrimmed message |
| ContactForm.FormValidIff | frontend/src/components/ContactForm.jsx:55-80 | the form is valid exactly when name and subject are non-blank, the email matches the pattern, and the message is non-blank with at least 10 UTF-16 units before trimming |
| ContactForm.PaddedEmailIsInvalid | frontend/src/components/ContactForm.jsx:62-66 | a non-blank address with a leading space is reported as invalid, because the pattern is tested on the untrimmed value |
| ContactForm.PaddedShortMessagePasses | frontend/src/components/ContactForm.jsx:72-76 | the length minimum counts the padding: `"   abc    "` passes |
| ContactForm.FiveEmojiMessagePasses | frontend/src/components/ContactForm.jsx:72-76 | a message of five emoji passes the 10-character minimum, because `.length` counts ten units |
| ContactForm.ContactFormState.constructor | frontend/src/components/ContactForm.jsx:42-49 | empty fields, no errors, idle |
| ContactForm.ContactFormState.Validate | frontend/src/components/ContactForm.jsx:55-80 | the recorded errors are the form's errors, and the result is true exactly when there are none |
| ContactForm.ContactFormState.HandleChange | frontend/src/components/ContactForm.jsx:82-88 | only the edited field changes; a non-empty error on it is blanked to "" |
| ContactForm.ContactFormState.HandleSubmit | frontend/src/components/ContactForm.jsx:90-124 | an invalid form sends nothing; a valid one is posted; an ok or `success` reply, or any failure on localhost, resets the form and shows success; otherwise it shows the error status and keeps the form |
| ContactForm.ContactFormState.ResetStatus | frontend/src/components/ContactForm.jsx:109 | the timer callback sets the status back to idle and changes nothing else |
| ContactForm.ChangeIsLocal | frontend/src/components/ContactForm.jsx:84 | the spread update changes the edited field and no other |
| ContactController.ValidationDetails | backend/src/controllers/contactController.js:5-73 | the 400 details list each failed check as its `{field, message}` pair: "… is required" exactly when the trimmed field is empty, the length or email message exactly when that check fails; no pair twice; no details exactly when all four rules accept; a field is named exactly when its rule fails |
| ContactController.ValidationReports | backend/src/controllers/contactController.js:5-73 | each of the eight validators' `{field, message}` pairs is listed exactly when its check fails, and no pair is listed twice |
| ContactController.ValidationFields | backend/src/controllers/contactController.js:5-73 | the details name only the four fields, and name a field exactly when its rule fails |
| ContactController.NameDetails | backend/src/controllers/contactController.js:6-12 | "Name is required" exactly when the trimmed name is empty, "Name must be less than 100 characters" exactly when it is over 100; nothing else and no repeat; no detail exactly when the rule accepts |
| ContactController.EmailDetails | backend/src/controllers/contactController.js:13-19 | "Email is required" exactly when the trimmed email is empty, "Please provide a valid email" exactly when `isEmail` rejects it; nothing else and no repeat; no detail exactly when the rule accepts |
| ContactController.SubjectDetails | backend/src/controllers/contactController.js:20-26 | "Subject is required" exactly when the trimmed subject is empty, "Subject must be less than 200 characters" exactly when it is over 200; nothing else and no repeat; no detail exactly when the rule accepts |
| ContactController.MessageDetails | backend/src/controllers/contactController.js:27-33 | "Message is required" exactly when the trimmed message is empty, "Message must be between 10 and 5000 characters" exactly when its length is outside 10 to 5000; nothing else and no repeat; no detail exactly when the rule accepts |
| ContactController.ValidationMentions | backend/src/controllers/contactController.js:63-73 | a field is named in the concatenated details exactly when it is named in its own chain's details |
| ContactController.Sanitized | backend/src/controllers/contactController.js:6-33 | the values `sendMessage` reads: each field trimmed, then escaped, or normalised for the email |
| ContactController.DeliveryConfigured | backend/src/controllers/contactController.js:142 | mail goes out when `NODE_ENV` is production or SMTP or SendGrid credentials are set |
| ContactController.ComposeMail | backend/src/controllers/contactController.js:81-139 | replyTo is the sender's email; the subject is "Portfolio Contact: " + subject; the HTML message has no newline left and grows by 3 per newline |
| ContactController.SendMessage | backend/src/controllers/contactController.js:61-162 | failed rules give 400 with their details and no mail; otherwise the mail goes out only when production or SMTP/SendGrid credentials are set, giving 200 on success and 500 on a send failure; without delivery it gives 200 |
| ContactController.NameRule | backend/src/controllers/contactController.js:6-12 | a name passes exactly when it is 1 to 100 characters once trimmed, so exactly 100 passes |
| ContactController.SubjectRule | backend/src/controllers/contactController.js:20-26 | a subject passes exactly when it is 1 to 200 characters once trimmed |
| ContactController.MessageRule | backend/src/controllers/contactController.js:27-33 | a message passes exactly when it is 10 to 5000 characters once trimmed |
| ContactController.BlankMessageTwoDetails | backend/src/controllers/contactController.js:27-33 | a blank message fails both validators of its chain, so it gives two details |
| ContactController.MessageRuleExamples | backend/src/server.test.js:37-39 | "Short" fails, and so do 5001 non-space characters |
| ContactApi.Decide | api/contact.js:10-69 | the handler throws exactly for a POST without a body; 200 exactly for OPTIONS or for a complete POST whose two sends succeed; 405 for any other method; 400 for a POST with a falsy field; 500 for a send failure; an empty body exactly for OPTIONS |
| ContactApi.AllPresent | api/contact.js:21 | the gate `!name \|\| !email \|\| !subject \|\| !message` lets the request through exactly when all four fields are truthy |
| ContactApi.CompletePost | api/contact.js:14-21 | a POST with a body whose four fields pass the gate |
| ContactApi.OwnerMail | api/contact.js:38-51 | the owner mail goes to `CONTACT_EMAIL` as set (possibly unset), replies to the sender, and has every newline of the message turned into `<br>` |
| ContactApi.ReplyMail | api/contact.js:54-63 | the auto-reply goes to the sender's address, has no reply-to, and thanks them by name |
| ContactApi.Attempts | api/contact.js:21-63 | no mail unless a complete POST; then the owner mail first, and the auto-reply only after the owner mail succeeded |
| ContactApi.ServerResponse.constructor | api/contact.js:3 | a response starts with no headers and no body |
| ContactApi.ServerResponse.SetHeader | api/contact.js:5-8 | appends one header and changes nothing else |
| ContactApi.ServerResponse.Finish | api/contact.js:11 | sets the status and the body and keeps the headers |
| ContactApi.Handler | api/contact.js:3-70 | the four CORS headers are set first, on every path; when the handler answers, the status, body and mails attempted are those decided above; when it throws, no status or body is set and no mail is attempted |
| ContactApi.WhitespaceFieldsPassGate | api/contact.js:21 | fields made of spaces pass the gate |
| ContactApi.MissingBodyIsNotAnswered | api/contact.js:18 | a POST without a body is never answered by the handler itself, whatever the sends would do |
| ContactApi.SuccessMeansBothSent | api/contact.js:38-65 | a 200 for a POST means both mails went out, the second to the sender |
| ContactLayers.ExpressAcceptanceImpliesForm | frontend/src/components/ContactForm.jsx:58-76 | any name, subject and message the Express rules accept, the browser form accepts too |
| ContactLayers.PaddedMessageSplitsLayers | backend/src/controllers/contactController.js:27-33 | a 3-letter message padded to 10 characters passes the form but fails the Express length rule |
| ContactLayers.BlankFieldsSplitLayers | api/contact.js:21 | fields of spaces are refused by the form but accepted by the serverless handler |
| Carousel.NextIndex | frontend/src/components/Testimonials.jsx:104 | the next index stays below n and wraps from the last card to the first |
| Carousel.PrevIndex | frontend/src/components/Testimonials.jsx:110 | the previous index stays below n and wraps from the first card to the last |
| Carousel.PrevNextInverse | frontend/src/components/Achievements.jsx:64-74 | previous undoes next, and next undoes previous |
| Carousel.AdvanceWithinRound | frontend/src/components/Testimonials.jsx:79-85 | k autoplay ticks within a round move the carousel k places, wrapping at the end |
| Carousel.FullCycle | frontend/src/components/Achievements.jsx:50-56 | n ticks come back to the start, and no smaller positive number does |
| Carousel.WrappedOffset | frontend/src/components/Testimonials.jsx:117-123 | the adjusted offset differs from `index - current` by at most one round, is at most half the cards away, and is 0 exactly for the current card |
| Carousel.OffsetInjective | frontend/src/components/Achievements.jsx:78-84 | different cards get different offsets |
| Carousel.OffsetLocatesCard | frontend/src/components/Achievements.jsx:78-84 | the card found at a card's offset is that card |
| Carousel.Carousel.constructor | frontend/src/components/Achievements.jsx:42-43 | starts at card 0 with autoplay on |
| Carousel.Carousel.NextSlide | frontend/src/components/Testimonials.jsx:103-107 | one card on, and autoplay paused |
| Carousel.Carousel.PrevSlide | frontend/src/components/Testimonials.jsx:109-113 | one card back, and autoplay paused |
| Carousel.Carousel.GoToSlide | frontend/src/components/Testimonials.jsx:97-101 | exactly the chosen card, and autoplay paused |
| Carousel.Carousel.AutoplayTick | frontend/src/components/Testimonials.jsx:79-85 | while autoplay is on, a tick moves one card on; while it is off there is no timer |
| Carousel.Carousel.ResumeAutoplay | frontend/src/components/Achievements.jsx:61 | the 10-second timeout turns autoplay back on and leaves the index alone |
| Testimonials.StyleMirrored | frontend/src/components/Testimonials.jsx:129-169 | cards at offsets d and -d are mirror images: x and both rotations are negated, height and stacking are equal |
| Testimonials.CentreOnlyForCurrent | frontend/src/components/Testimonials.jsx:129-138 | only the current card sits at x = 0 and at the front (zIndex 50) |
| Testimonials.StyleAt | frontend/src/components/Testimonials.jsx:128-169 | a card sits right of centre exactly for a positive offset and at x = 0 only for offset 0; within two places of the centre each step back lowers zIndex by 10 and raises y by 30 |
| Testimonials.CardStyleOf | frontend/src/components/Testimonials.jsx:115-169 | a card's zIndex is 50 minus 10 per place of wrapped offset, so 30, 40 or 50 |
| Testimonials.NeverOffScreen | frontend/src/components/Testimonials.jsx:116-169 | with five testimonials no offset is beyond 2, so the off-screen branch is never taken |
| Testimonials.OneCardPerPosition | frontend/src/components/Testimonials.jsx:116-123 | each of the five positions from -2 to 2 holds exactly one card |
| Testimonials.SwipeFor | frontend/src/components/Testimonials.jsx:88-95 | a drag further than 50 px left goes forward, further than 50 px right goes back, and anything else stays; the offset is a real number |
| Testimonials.HandleDragEnd | frontend/src/components/Testimonials.jsx:88-95 | a long left drag is a next-slide, a long right drag a previous-slide, and a short drag changes nothing |
| Achievements.CentreOnlyForCurrent | frontend/src/components/Achievements.jsx:86-93 | only the current card sits at x = 0 and at the front (zIndex 30) |
| Achievements.StyleAt | frontend/src/components/Achievements.jsx:86-118 | zIndex 30 exactly at offset 0, 20 exactly for the four neighbour cases, otherwise 0; a card right of centre turns left and one left of centre turns right |
| Achievements.CardStyleOf | frontend/src/components/Achievements.jsx:77-118 | only the current card has zIndex 30, and every card turns toward the centre |
| Achievements.NeighboursOnEitherSide | frontend/src/components/Achievements.jsx:94-109 | the next card sits at +320 and the previous one at -320, both at zIndex 20 |
| Achievements.AlternativesUnreachable | frontend/src/components/Achievements.jsx:94-102 | with four cards the offsets stay within ±2, so `-totalCards + 1` and `totalCards - 1` never match |
| Achievements.ExactlyOneHidden | frontend/src/components/Achievements.jsx:110-118 | exactly one card is hidden, the one opposite the current card; it goes right while the current card is 0 or 1 and left otherwise |
| Portfolio.FilterMembers | frontend/src/components/PortfolioGrid.jsx:73 | a project is in the filtered list exactly when it is in the list and has the category |
| Portfolio.Filter | frontend/src/components/PortfolioGrid.jsx:73 | `projects.filter(p => p.category === activeCategory)`: never longer than the list, and only projects of the list with that category |
| Portfolio.FilteredProjects | frontend/src/components/PortfolioGrid.jsx:71-73 | 'All' shows the whole list; any other category shows only projects of the list with that category |
| Portfolio.FilterIsSubsequence | frontend/src/components/PortfolioGrid.jsx:73 | the filtered list keeps the original order |
| Portfolio.SubsequenceNotLonger | frontend/src/components/PortfolioGrid.jsx:73 | a subsequence is never longer than its source |
| Portfolio.FilterLength | frontend/src/components/PortfolioGrid.jsx:73 | the filtered list has one entry per project of the category |
| Portfolio.FilterIdempotent | frontend/src/components/PortfolioGrid.jsx:73 | filtering twice by the same category is filtering once |
| Portfolio.FilteredProjectsSpec | frontend/src/components/PortfolioGrid.jsx:71-73 | 'All' gives the whole list in order; any other category gives exactly its projects, in order |
| Portfolio.FiltersPartition | frontend/src/components/PortfolioGrid.jsx:71-73 | when every category is listed once, the category filters together hold each project exactly once |
| Portfolio.FilterButtonsCoverProjects | frontend/src/components/PortfolioGrid.jsx:6-62 | every project's category has a button, and the buttons other than 'All' together show each project once |
| Portfolio.ShownTags | frontend/src/components/PortfolioGrid.jsx:192 | a card shows the first min(4, n) tags, in order |
| Portfolio.MoreCount | frontend/src/components/PortfolioGrid.jsx:200-204 | the "+k more" badge appears exactly when there are more than 4 tags |
| Portfolio.TagsAccounted | frontend/src/components/PortfolioGrid.jsx:192-204 | the shown tags plus the badge's k give the number of tags, and the badge counts exactly the hidden tail |
| Portfolio.ProjectBadges | frontend/src/components/PortfolioGrid.jsx:192-204 | every card shows four tags; projects 1, 2 and 5 say "+2 more", the others "+1 more" |
| Navbar.RemoveFirst | frontend/src/components/Navbar.jsx:21 | `replace` with a string pattern removes the first occurrence only: without the character the string is unchanged; with it, the result is the text before its first occurrence followed by the text after |
| Navbar.SectionOfAnchor | frontend/src/components/Navbar.jsx:21 | the section of `#id` is `id` |
| Navbar.SectionOf | frontend/src/components/Navbar.jsx:21 | an href starting with '#' gives the rest of the href |
| Navbar.SectionIds | frontend/src/components/Navbar.jsx:21 | one section id per link, in link order |
| Navbar.SectionIdsOfAnchors | frontend/src/components/Navbar.jsx:21 | links whose hrefs are `#` followed by ids map to exactly those ids, in order |
| Navbar.SectionIdsOfNavLinks | frontend/src/components/Navbar.jsx:6-21 | the section ids are bio, skills, portfolio, testimonials, resume, contact |
| Navbar.LastReached | frontend/src/components/Navbar.jsx:22-31 | a selected section is one of the ids and has been reached |
| Navbar.LastReachedSpec | frontend/src/components/Navbar.jsx:22-31 | the selection is a reached section with no reached section after it, and is absent exactly when no existing section has top ≤ 100 |
| Navbar.HighlightUnique | frontend/src/components/Navbar.jsx:6-77 | at most one link is highlighted, and none before any section is active |
| Navbar.IsHighlighted | frontend/src/components/Navbar.jsx:77 | a link is highlighted when its href without '#' is the active section |
| Navbar.SectionIdsDistinct | frontend/src/components/Navbar.jsx:6-13 | the six section ids are distinct and non-empty |
| Navbar.Navbar.constructor | frontend/src/components/Navbar.jsx:16-17 | no active section, and the menu is closed |
| Navbar.Navbar.HandleScroll | frontend/src/components/Navbar.jsx:20-32 | the active section becomes the last reached section in link order, skipping missing elements; with none reached it stays as it was |
| Navbar.Navbar.ActivateLastReached | frontend/src/components/Navbar.jsx:22-31 | the loop over the reversed ids: the active section becomes the last reached id, or stays as it was when none is reached |
| Navbar.Navbar.HandleNavClick | frontend/src/components/Navbar.jsx:38-45 | clicking any link closes the mobile menu |
| Navbar.Navbar.ToggleMenu | frontend/src/components/Navbar.jsx:91 | the menu button flips the menu |

## Left out

- JSON parsing and serialisation of `share-links.json` are not modelled. The file is an abstract `Disk`, either missing, unparseable or holding a map, so a successful save followed by a load returns the map unchanged.
- `ShareLinks.LoadLinks` does not model a file holding valid JSON that is not an object (`null`, an array, a number). `loadShareLinks` returns such a value as it is; with `null` every later access to `shareLinks[id]` throws and both handlers answer 500, and with an array the records stay in memory but are not written back by `JSON.stringify`.
- `ShareLinks.ShareLinkStore.GetSharedResume`: an id inherited from `Object.prototype` (such as `toString`) counts as unknown. In JavaScript `shareLinks[id]` would be truthy for it.
- `nanoid(10)` is a parameter, so the model does not guarantee fresh ids. Creating a link is stated for fresh and reused ids separately.
- The clock and the Referer and Host headers are parameters too.
- `downloadResume` and the rest of the resume controller outside the share-link store are not modelled.
- The `catch` blocks that answer 500 in `generateShareLink` and `getSharedResume` are not modelled. With the file always loading as a map, the steps modelled here do not throw; the throws that remain (a `null` file, `nanoid` or `req.get` failing) are outside the model.
- `createTransporter`'s host, port and credential selection is configuration, not logic, and is not modelled.
- The mail `text` body and the rest of the HTML templates are not modelled. Only the fields that decisions depend on are: from, to, replyTo, subject, the rewritten message, and the names.
- The `messageHtml` in `ContactApi.OwnerMail` comes from the raw message. In `ContactController.ComposeMail` it comes from the trimmed and escaped value.
- `isEmail`, `normalizeEmail` and `escape` from express-validator are uninterpreted function parameters.
- `ContactController.NameDetails`, `SubjectDetails` and `MessageDetails` count characters (code points) for the `isLength` limits, as express-validator does for surrogate pairs. Its further discount of the variation selectors U+FE0E and U+FE0F is not modelled, so near a limit a text holding them may be judged differently.
- `ContactController.ValidationDetails` lists details rule by rule, name first. The library gathers them from four chains that run concurrently, so the model fixes that order.
- `ContactController.SendMessage` reads a field the client did not send as "". A non-string `req.body` value is not modelled.
- The `catch` in `sendMessage` is modelled only for a `sendMail` rejection.
- `ContactApi.Handler` models `req.body` fields only as present or absent strings. `res.end()` and `res.json()` are a finished status plus a payload.
- `ContactApi.Handler` ends with `Threw` when a POST has no body. What the hosting platform answers to the thrown error is not modelled.
- `ContactApi.ServerResponse.SetHeader` appends a header, where Node replaces one of the same name. The handler sets four different names on a fresh response, so the two agree here.
- The `setTimeout` and `setInterval` timers are separate methods (`ResetStatus`, `AutoplayTick`, `ResumeAutoplay`) that the environment calls. Timer cancellation and interleaving are not modelled.
- `Testimonials.CardStyleOf` and `Achievements.CardStyleOf` keep only the integer fields of a card style (x, y, rotations, zIndex). The fractional `scale` and `opacity` values are not modelled.
- The unused `angle` and `radius` constants in the testimonial `getCardStyle` are not modelled.
- The mobile-resize listener of the testimonials component is not modelled. It sets `isMobile`, which switches dragging on (`drag={isMobile ? 'x' : false}`), so `Testimonials.HandleDragEnd` stands for a drag on a narrow screen only.
- `Testimonials.SwipeFor` takes the drag offset as a real number, not as an IEEE double.
- `Navbar.Navbar.HandleNavClick` does not model `scrollIntoView`, which is a browser effect.
- The page is a map from element id to `getBoundingClientRect().top`.
- `Navbar.Navbar.HandleScroll` walks the section ids from last to first by index. This stands for iterating the reversed copy that `sections.reverse()` makes.
- Rendering, animation (framer-motion), `useInView` and the other components are presentation only.
