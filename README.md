# AUTEGRY site: a verified model of its logic

The AUTEGRY site is a single-page company site. Its contact form posts a submission to an
Express route, or in the serverless deployment to a Netlify function. Either one validates the
submission and mails it to the company through nodemailer. The page also keeps a cookie-consent
choice in `localStorage`, and several of its components do small computations on indices and
strings.

This project models that logic in Dafny and proves what it promises. One module corresponds to
each source file:

- `EmailRoute` models `routes/email.js`: submission validation, transporter configuration,
  the mail options, and the error classification with the response it leads to.
- `NetlifySendEmail` models `netlify/functions/send-email.js`: the method gate, the
  required-field check, the mail options and the catch-all error.
- `ContactForm` models `src/components/Contact.tsx`. The form's state is a class with the form
  data and the per-field error messages.
- `CookieConsent` models `src/utils/cookieConsent.ts`. The browser's storage is a class holding
  a map, plus two flags for when reading or writing throws.
- `TeamCarousel` models `src/components/Team.tsx`: page and position arithmetic over the five
  cards, the button and dot targets, and the selected index kept in state.
- `ServicesSection` models `src/components/Services.tsx`: the customer-group filter, the
  "load more" window on mobile, the filter state, and the features a card shows.
- `LegalPage` models `src/pages/Legal.tsx`: the bullet-line renderer, the `tab` query
  whitelist, the section change and the content dispatch.
- `FooterLinks` models `src/components/Footer.tsx`: the link-text-to-href mapping, the
  social-icon condition and the legal links.
- `ProblemTitles` models `src/components/ProblemsWeSolve.tsx`: the mobile line break and the
  arrow-title split.
- `HeroText` models `src/components/Hero.tsx`: quote-delimited highlighting, the language
  test and the feature keys.

Four modules are shared:

- `Wrappers` holds `Option`.
- `JsText` holds the JavaScript string built-ins the sources use: `indexOf`, `includes`,
  `startsWith`, `trim`, `trimStart`, `trimEnd`, `split`, `join`, a global one-character
  `replace`, and `replace(/\s/g, '')`. Whitespace follows the ECMAScript `\s` class.
- `ContactPatterns` holds the email and phone regular expressions, written as character
  predicates.
- `MailTypes` holds the submission, mail and response records that both handlers share.

The translation function `t` is a parameter wherever a component calls it. The outcomes of
network calls are inputs: `transporter.verify()` and `sendMail` are given as success or an
error record with `code`, `responseCode`, `message` and `response`. The environment is a record
of optional strings. The timestamp printed in the mail bodies is an input string.

## Model

| member | source | states |
|---|---|---|
| EmailRoute.ValidateEmailData | routes/email.js:17-37 | A missing name, email, phone or message gives the missing-fields error, whatever the formats. Otherwise a mismatching email gives the email error. Otherwise a phone that fails the pattern after whitespace removal gives the phone error. Each of the three holds in both directions. |
| EmailRoute.AcceptedSubmission | routes/email.js:17-37 | A submission is accepted exactly when all of these hold: the four fields are present; the email has no whitespace, one `@` after a non-empty local part, and a dot strictly inside its domain; the phone without whitespace is an optional `+` and eight or more digits, `-`, `(` or `)`. |
| EmailRoute.EmptyEmailIsMissing | routes/email.js:20-22 | An empty email is reported as missing, never as badly formatted. |
| EmailRoute.EmailWithoutAtOrDotRejected | routes/email.js:25-28 | With the required fields present, an email with no `@` followed later by a `.` is rejected as badly formatted. |
| EmailRoute.ShortPhoneIsInvalid | routes/email.js:31-34 | With the other checks passed, a phone with fewer than eight characters besides whitespace is rejected. |
| EmailRoute.EffectivePort | routes/email.js:57 | The port is the parsed value unless parsing gave `NaN` or 0; then it is 587. It is never 0. |
| EmailRoute.CreateTransporter | routes/email.js:40-90 | No transporter exists exactly when the host, user or password is unset or empty. A created one carries those three values, the effective port, and debug logging set exactly in development. |
| EmailRoute.MailDefaults | routes/email.js:153-165 | The sender is `EMAIL_FROM`, else the SMTP user, else the company address, under the form's display name. The recipient is `EMAIL_TO`, else the company address. Replies go to the submitter. The subject falls back to "New Contact Form Submission". |
| EmailRoute.SenderWhenConfigured | routes/email.js:50-53 | Once a transporter exists, the sender is `EMAIL_FROM` or the SMTP user, never the bare fallback. |
| EmailRoute.HtmlBodyShowsMessage | routes/email.js:172-194 | The HTML body contains the message with every newline replaced by `<br>`. |
| EmailRoute.HtmlBodyShowsSubject | routes/email.js:172-194 | The HTML body shows the subject, or "No subject" when the subject is empty. |
| EmailRoute.TextBodyShowsMessage | routes/email.js:195-209 | The text body contains the message verbatim. |
| EmailRoute.TextBodyShowsSubject | routes/email.js:195-209 | The text body shows the same subject line as the HTML body. |
| EmailRoute.Classify | routes/email.js:251-266 | `EAUTH`, `ECONNREFUSED`, `ETIMEDOUT` and `ENOTFOUND` each give their own cause, tested before any reply code. Otherwise a non-zero reply code gives an SMTP-reply cause carrying that code. Anything else is unclassified. |
| EmailRoute.CodeBeforeReplyCode | routes/email.js:251-266 | With one of the four codes, the reply code does not change the classification. |
| EmailRoute.Digits | routes/email.js:264 | A reply code prints as decimal digits only. |
| EmailRoute.DigitsInjective | routes/email.js:264 | Different non-negative codes print differently. |
| EmailRoute.NumberTextSign | routes/email.js:264 | A printed code starts with `-` exactly when it is negative. |
| EmailRoute.NumberTextInjective | routes/email.js:264 | Different reply codes give different "SMTP Error" messages. |
| EmailRoute.ClientMessageMarks | routes/email.js:251-266 | The sixth character of a client message is `E` exactly for an SMTP reply ("SMTP Error: …"). |
| EmailRoute.ClientMessageInjective | routes/email.js:251-284 | The client can tell every cause apart from the error string alone. |
| EmailRoute.SendFailureResponse | routes/email.js:248-284 | A failed send answers 500 with the client message of its cause. The details, with the cause's hint, are present only in development. |
| EmailRoute.SendEmail | routes/email.js:93-286 | A validation failure gives 400 with its message, and no transporter is created. Missing SMTP settings give 500 "Email service configuration error". A failed verify gives 500 "Email service connection failed" and sends no mail. Otherwise the mail is built from the submission and the environment. A delivery gives 200 with the message id; a rejection gives the classified 500. 400 occurs exactly on a validation failure, and 200 exactly on delivery. |
| EmailRoute.ScenarioMalformedEmail | routes/email.js:25-28 | The sample submission with the email "not-an-email" is rejected as badly formatted. |
| EmailRoute.ScenarioConnectionRefused | routes/email.js:248-284 | A refused connection outside development gives the refused-connection message and no details. |
| NetlifySendEmail.Handler | netlify/functions/send-email.js:5-91 | A method other than POST gets 405 with no headers; every other response carries the three CORS headers. A parse failure, or a send that throws, gives 500 "Failed to send email". A missing field gives 400 with "Missing required fields", and 400 occurs exactly then. The mail is built exactly for a parsed, complete body. 200 occurs exactly when that mail is sent, with "Email sent successfully". |
| NetlifySendEmail.PreflightRefused | netlify/functions/send-email.js:5-26 | An OPTIONS request gets the 405 answer, so the preflight branch never runs. |
| NetlifySendEmail.MailAddressing | netlify/functions/send-email.js:53-56 | The mail goes to the company address. It comes from the SMTP user's address under the submitter's name. The subject falls back to "New Contact Form Submission". |
| NetlifySendEmail.HtmlBodyShowsMessage | netlify/functions/send-email.js:64 | The HTML body shows the message with `<br>` for every newline. |
| NetlifySendEmail.TextBodyShowsMessage | netlify/functions/send-email.js:73 | The text body shows the message verbatim after its label. |
| NetlifySendEmail.HtmlBodyShowsSubject | netlify/functions/send-email.js:57-65 | The HTML body shows the subject, or "No subject". |
| NetlifySendEmail.TextBodyShowsSubject | netlify/functions/send-email.js:66-74 | The text body shows the same subject line. |
| NetlifySendEmail.SameRequiredFieldsAsRoute | netlify/functions/send-email.js:32-38 | A parsed submission gets 400 exactly when the Express route reports missing fields. A submission the route rejects only for its format is not refused here. |
| MailTypes.HtmlMessageProperties | routes/email.js:186 | The HTML rendition of a message holds no newline and has three more characters per newline. It is the message's lines joined with `<br>`, and a message without newlines is unchanged. |
| MailTypes.HtmlMessageConcat | routes/email.js:186 | The rendition of a concatenation is the concatenation of the renditions. |
| ContactPatterns.EmailPatternCharacterization | routes/email.js:25 | The email pattern matches exactly when all of these hold: no whitespace, a single `@` with something before it, and a dot in the domain that is neither its first nor its last character. |
| ContactPatterns.EmailNeedsAtAndDot | routes/email.js:25 | A matching address contains an `@` followed later by a `.`. |
| ContactPatterns.EmailMatchNotBlank | src/components/Contact.tsx:38-39 | A matching address is not blank, and trimming leaves it unchanged. |
| ContactPatterns.PhoneCheckCharacterization | routes/email.js:31-32 | After whitespace removal, the phone is accepted exactly when it is an optional `+` followed by eight or more digits, `-`, `(` or `)`. |
| ContactPatterns.ShortPhoneRejected | routes/email.js:31-32 | Fewer than eight characters left after whitespace removal never pass. |
| ContactPatterns.PhoneMatchNotBlank | routes/email.js:31-32 | A phone that passes is not blank. |
| ContactForm.Validation | src/components/Contact.tsx:62-80 | The email message is "Email is required" exactly when the email is blank. It is the invalid-address message exactly when the email is not blank and the untrimmed value fails the pattern. It is empty otherwise. The phone message is "Phone is required" exactly when the phone is blank, and empty otherwise. |
| ContactForm.ContactFormState.constructor | src/components/Contact.tsx:10-20 | All fields start empty, with no messages. |
| ContactForm.ContactFormState.HandleInputChange | src/components/Contact.tsx:22-35 | Only the named field takes the new value. Only that field's message is cleared; every other message is kept. |
| ContactForm.ContactFormState.HandleBlur | src/components/Contact.tsx:37-60 | The data is unchanged, and the messages become those the blur checks give for that field. |
| ContactForm.ContactFormState.ValidateForm | src/components/Contact.tsx:62-80 | The whole message record is replaced by the validation of the data. The result is true exactly when the form passes the client checks. |
| ContactForm.ContactFormState.HandleSubmit | src/components/Contact.tsx:82-89 | Submitting validates. It reports a submission exactly for a valid form, and the data is unchanged. |
| ContactForm.ClientValidIff | src/components/Contact.tsx:62-80 | The form passes exactly when the email is not blank and matches, and the phone is not blank. |
| ContactForm.BlurEmailAgreesWithValidation | src/components/Contact.tsx:37-60 | Leaving the email field shows the message validation would give. When validation gives none, the previous message stays. The phone message is untouched. |
| ContactForm.BlurPhoneAgreesWithValidation | src/components/Contact.tsx:47-52 | Leaving the phone field shows the "required" message when the phone is blank, and otherwise keeps the previous one. The email message is untouched. |
| ContactForm.BlurOtherFieldUnchanged | src/components/Contact.tsx:37-60 | Leaving any field but the email or the phone changes no message. |
| ContactForm.BlurKeepsMessages | src/components/Contact.tsx:37-60 | Leaving a field never clears a message. |
| ContactForm.ServerAcceptedIsClientValid | src/components/Contact.tsx:62-80 | Every submission the Express route accepts passes the form's checks. |
| ContactForm.ClientAcceptsMissingName | src/components/Contact.tsx:62-80 | The form passes a submission without a name, which the route rejects as missing fields. |
| ContactForm.ClientAcceptsShortPhone | src/components/Contact.tsx:74-76 | The form passes a complete submission whose phone has fewer than eight characters, which the route rejects as a bad phone. |
| ContactForm.ClientWeakerThanServer | src/components/Contact.tsx:62-80 | Both cases occur: the address "a@b.c" matches and the phone "1" is short. |
| ContactForm.SampleAddressMatches | src/components/Contact.tsx:69-71 | "a@b.c" matches the email pattern and is not blank. |
| ContactForm.OneDigitPhone | src/components/Contact.tsx:74-76 | "1" is not blank and has no whitespace to remove. |
| CookieConsent.StatusText | src/utils/cookieConsent.ts:35-41 | A choice is stored as "accepted" or "necessary", one string per choice. |
| CookieConsent.ReadConsent | src/utils/cookieConsent.ts:22-30 | A read gives a value exactly when reading works and the key is present, and then it gives the stored string. |
| CookieConsent.ChoicesExclusive | src/utils/cookieConsent.ts:50-67 | Consent is given exactly when one of the two choices is stored, and never both. Any other stored string is no consent. |
| CookieConsent.StoredChoiceReadsBack | src/utils/cookieConsent.ts:22-41 | A stored choice reads back unchanged, and each query reports it. |
| CookieConsent.RemovedChoiceReadsNull | src/utils/cookieConsent.ts:37-38 | Without the key there is no choice. |
| CookieConsent.UnreadableIsNoChoice | src/utils/cookieConsent.ts:26-29 | A failed read looks like no choice. |
| CookieConsent.LocalStorage.constructor | src/utils/cookieConsent.ts:17 | The store starts with the given items and failure flags. |
| CookieConsent.LocalStorage.HasGivenCookieConsent | src/utils/cookieConsent.ts:50-53 | True exactly when one of the two specific queries is true, that is, exactly when a read works and the key holds "accepted" or "necessary". |
| CookieConsent.LocalStorage.HasAcceptedAllCookies | src/utils/cookieConsent.ts:58-60 | True exactly when a read works and the key holds "accepted". Never true together with only-necessary. |
| CookieConsent.LocalStorage.HasAcceptedOnlyNecessary | src/utils/cookieConsent.ts:65-67 | True exactly when a read works and the key holds "necessary". |
| CookieConsent.LocalStorage.SetCookieConsent | src/utils/cookieConsent.ts:35-45 | A choice is written under the key, and no choice removes the key. A failing store is left unchanged. Other keys are never touched. When reading works, the choice then reads back. |
| CookieConsent.LocalStorage.ClearCookieConsent | src/utils/cookieConsent.ts:72-74 | The key is removed, unless writing fails. Afterwards no consent is read. |
| TeamCarousel.LayoutsAgree | src/components/Team.tsx:240-275 | The buttons test `isDesktop` first and the page tests `isMobile` first. The two agree unless both flags are set. |
| TeamCarousel.NormalizedCurrent | src/components/Team.tsx:109 | The position is the selected index modulo five. It is below five, and an index already below five is unchanged. |
| TeamCarousel.DesktopPage | src/components/Team.tsx:112-116 | The desktop page is 1 exactly from position 3 on, and is at most 1. |
| TeamCarousel.TabletPage | src/components/Team.tsx:118-125 | The tablet page is the position halved, so at most 2. |
| TeamCarousel.CurrentPage | src/components/Team.tsx:127-131 | The page is always a dot of the layout. On mobile it is the normalized position. |
| TeamCarousel.TabletNextTarget | src/components/Team.tsx:267 | Tablet Next targets a valid card. |
| TeamCarousel.TabletPrevTarget | src/components/Team.tsx:249 | Tablet Prev targets a valid card. |
| TeamCarousel.PagesInRange | src/components/Team.tsx:109-131 | The desktop page is 1 exactly from position 3 on. The tablet page is 0, 1 or 2. The page is in range in every layout. |
| TeamCarousel.ExactlyOneDotActive | src/components/Team.tsx:280-328 | Exactly one dot is active, and it is the current page's. |
| TeamCarousel.DotTargetsLandOnTheirPage | src/components/Team.tsx:280-328 | Every dot scrolls to a card whose page is that dot. |
| TeamCarousel.TabletPrevUndoesNext | src/components/Team.tsx:249-267 | On tablets Prev undoes Next, and Next undoes Prev. |
| TeamCarousel.DesktopNextTogglesPage | src/components/Team.tsx:263 | On desktops Next moves to the other page. |
| TeamCarousel.DesktopPrevTargetAsWritten | src/components/Team.tsx:245 | Desktop Prev as written always lands on page 0. |
| TeamCarousel.DesktopPrevAsWrittenStaysOnFirstPage | src/components/Team.tsx:245 | As written, desktop Prev scrolls to 0 from every position. So on the first page it stays on that page, where Next would move to the other one. |
| TeamCarousel.DesktopPrevToggleTogglesPage | src/components/Team.tsx:245 | The corrected desktop Prev moves to the other page, exactly as Next does. |
| TeamCarousel.ButtonCommands | src/components/Team.tsx:240-275 | As written: on desktops Next moves to the other page, and Prev scrolls to card 0 from every index, landing on page 0. On tablets Prev returns to where Next started. On mobile both leave the step to the carousel. |
| TeamCarousel.IntendedPrevCommands | src/components/Team.tsx:243-246 | With the corrected toggle, desktop Prev moves to the other page and equals Next. On tablets and mobile it is the written command. |
| TeamCarousel.CarouselState.constructor | src/components/Team.tsx:29-32 | The index and the count start at 0. |
| TeamCarousel.CarouselState.Attach | src/components/Team.tsx:45-56 | The count and the index come from the carousel. |
| TeamCarousel.CarouselState.Select | src/components/Team.tsx:50-55 | A select event sets the index and keeps the count. |
| TeamCarousel.CarouselState.Page | src/components/Team.tsx:127-131 | The state's page is in range, and its dot is the active one. |
| ServicesSection.Kept | src/components/Services.tsx:119-121 | The kept indices of a range are exactly those the filter admits, increasing. An unknown filter keeps none. |
| ServicesSection.FilteredServices | src/components/Services.tsx:119-121 | The filtered list holds exactly the services the filter admits, in their original order. An unknown filter gives none. |
| ServicesSection.AllShowsEverything | src/components/Services.tsx:119-120 | The 'all' filter shows the ten services in their original order. |
| ServicesSection.CategoriesWellFormed | src/components/Services.tsx:50-54 | Each group's list is increasing and holds only indices of the list, and no group is named 'all'. |
| ServicesSection.GroupFilterShowsItsList | src/components/Services.tsx:119-121 | A group filter shows exactly its list, in order. |
| ServicesSection.GroupsPartitionServices | src/components/Services.tsx:50-54 | The three groups do not overlap, and together they hold every service. |
| ServicesSection.DisplayedServices | src/components/Services.tsx:124-126 | Windowed (mobile with 'all'), it is the first `min(count, length)` filtered services; otherwise the whole filtered list. |
| ServicesSection.ButtonsExclusive | src/components/Services.tsx:128-129 | "Load more" and "show less" are never both shown. "Load more" needs the window and a count below the length. "Show less" needs the window, a count at the length or above, and more than three services. |
| ServicesSection.LoadMoreShowsThreeMore | src/components/Services.tsx:131-133 | Loading more shows up to three more services, never more than there are. |
| ServicesSection.ThreeLoadsShowAll | src/components/Services.tsx:124-133 | From the first window, three loads show all ten services. |
| ServicesSection.VisibleFeatures | src/components/Services.tsx:230-231 | The shown features are keys whose translation is present and not blank, and every such key is shown. |
| ServicesSection.ServicesState.constructor | src/components/Services.tsx:22-23 | The section starts on 'all' with three cards. |
| ServicesSection.ServicesState.HandleLoadMore | src/components/Services.tsx:131-133 | Three more cards, and the same filter. |
| ServicesSection.ServicesState.HandleShowLess | src/components/Services.tsx:135-137 | Back to three cards, and the same filter. |
| ServicesSection.ServicesState.HandleFilterChange | src/components/Services.tsx:139-143 | The filter changes and the window resets to three. |
| ServicesSection.ServicesState.OnFilterEvent | src/components/Services.tsx:27-41 | An event with a non-empty filter acts like a chip; any other event changes nothing. |
| ServicesSection.ServicesState.Displayed | src/components/Services.tsx:124-126 | At most ten cards are shown. When windowed, at least three. |
| LegalPage.ClassifyLine | src/pages/Legal.tsx:17-26 | A line whose trimmed form starts with `-` is a bullet of the rest, trimmed. The empty line is a line break. Every other line is a paragraph of the line as written. Each holds in both directions. |
| LegalPage.RenderTextWithBullets | src/pages/Legal.tsx:14-28 | One item per newline-separated line, in order. |
| LegalPage.RenderedLines | src/pages/Legal.tsx:15 | There is one item more than there are newlines. The lines hold no newline, and joined back they give the text. |
| LegalPage.BlankLineIsParagraph | src/pages/Legal.tsx:26 | A whitespace-only line is a paragraph, not a line break. |
| LegalPage.BulletContentTrimmed | src/pages/Legal.tsx:19-23 | A bullet's content starts and ends with a non-whitespace character. |
| LegalPage.IndentedDashIsBullet | src/pages/Legal.tsx:17-18 | An indented dash starts a bullet, even when it is all the line holds. |
| LegalPage.ApplyTabQuery | src/pages/Legal.tsx:30-35 | A `tab` naming a section selects it. Anything else keeps the section. |
| LegalPage.RenderContent | src/pages/Legal.tsx:48-232 | Each of the three sections has its own content. Any other section renders nothing. |
| LegalPage.LegalState.constructor | src/pages/Legal.tsx:11 | The page starts on 'terms'. |
| LegalPage.LegalState.OnSearchParams | src/pages/Legal.tsx:30-35 | The whitelist effect: the section follows the query, and the location is untouched. |
| LegalPage.LegalState.HandleSectionChange | src/pages/Legal.tsx:37-40 | The section is set, and the location is replaced by `/legal?tab=` followed by the section. |
| LegalPage.LegalState.Shown | src/pages/Legal.tsx:48-232 | A page on one of the three sections always shows content. |
| LegalPage.TabParam | src/pages/Legal.tsx:31 | A `tab` value is read exactly from a location starting with `/legal?tab=`, and that location is the prefix followed by the value. |
| LegalPage.LocationRestoresSection | src/pages/Legal.tsx:30-40 | The `tab` value of the location a section change navigates to is that section. Reloading it selects the section again from any shown section and shows content; a name outside the three leaves the shown section unchanged. |
| FooterLinks.GetHref | src/components/Footer.tsx:7-26 | A text with `@` becomes a mail link to it. Every other text goes to one of the four page fragments. A text without `@` that is neither a company label nor a service label goes to `#`. |
| FooterLinks.HrefShape | src/components/Footer.tsx:7-26 | Every target starts with `#` or `mailto:`. |
| FooterLinks.CompanyLinkTargets | src/components/Footer.tsx:12-15 | The first company label the text equals decides its fragment. |
| FooterLinks.ServiceLinksGoToServices | src/components/Footer.tsx:18-23 | A service-filter label that is no company label goes to `#services`. |
| FooterLinks.AddressWins | src/components/Footer.tsx:9 | An address wins over every label it might equal. |
| FooterLinks.ContactAddressLink | src/components/Footer.tsx:9-53 | The company address becomes a mail link to it. |
| FooterLinks.RenderSections | src/components/Footer.tsx:28-53 | Three sections, each titled by its translated key. Each link has the target `getHref` gives its text. The icons follow a section exactly when its translated title is the literal "Get in touch". |
| FooterLinks.ContactSectionRendering | src/components/Footer.tsx:47-53 | The contact section holds one mail link to the company address. Its icons depend on the translated title alone: they show under the contact section exactly when its title is the English literal, and under the company section too if that title is. |
| FooterLinks.CompanySectionTargets | src/components/Footer.tsx:12-15 | With distinct company labels free of `@`, the company links target `#`, `#about`, `#services` and `#contact`, in order. |
| FooterLinks.LegalLinksOpenSections | src/components/Footer.tsx:126-134 | Each bottom link is the location a section change on the legal page navigates to, in menu order. |
| ProblemTitles.RenderWithMobileBreak | src/components/ProblemsWeSolve.tsx:8-22 | The text stays whole exactly when it lacks the word. Otherwise the second part is the text from the word's first occurrence and starts with the word. The first part is the text before that, with its trailing whitespace trimmed. |
| ProblemTitles.MobileBreakRebuilds | src/components/ProblemsWeSolve.tsx:13-14 | A broken text is its first part, some whitespace, and its second part. |
| ProblemTitles.FirstPartLacksWord | src/components/ProblemsWeSolve.tsx:9-13 | The first part never contains the word. |
| ProblemTitles.ByLanguage | src/components/ProblemsWeSolve.tsx:106-115 | The Bulgarian text when the title holds the marker, and the English one otherwise. This is how the break word (`кандидати` or `candidates`), the risk word (` желан` or ` desired`) and its tail are chosen. |
| ProblemTitles.ArrowSides | src/components/ProblemsWeSolve.tsx:96-101 | Without a spaced arrow, the whole title is the left side and there is no right side. With one, the left side is the text before the first arrow and a right side exists. |
| ProblemTitles.ArrowSidesDropLaterPieces | src/components/ProblemsWeSolve.tsx:96-101 | The right side ends at the next arrow, and later pieces are dropped. With a single arrow, the sides and the arrow make up the title. |
| ProblemTitles.RenderTitle | src/components/ProblemsWeSolve.tsx:96-117 | A title with `→` gets the arrow view. Otherwise the third title gets the risk view, then the fourth gets the break view with its break word. Every other title is shown as it is. Each holds in both directions. The arrow view shows the two arrow sides. The risk view shows the text before the risk word, then the word with "risk" after it. |
| ProblemTitles.RiskHeadPrecedesWord | src/components/ProblemsWeSolve.tsx:106 | The first line of the third title is the text before the first occurrence of the word, which follows it. It is the whole title when the word does not occur. |
| ProblemTitles.BareArrowShowsLeftOnly | src/components/ProblemsWeSolve.tsx:96-101 | A title with `→` but no spaced arrow shows the whole title on the left and nothing on the right. |
| HeroText.HighlightSegments | src/components/Hero.tsx:72-77 | One segment per quote-separated piece, in order, highlighted exactly at odd indices. |
| HeroText.SegmentsRebuildText | src/components/Hero.tsx:72 | There is one segment more than there are quotes. No segment holds a quote. Joined with quotes, the segments give the text back. |
| HeroText.UnquotedTextIsPlain | src/components/Hero.tsx:72-77 | A text without quotes is one plain segment. |
| HeroText.QuotedPhraseIsHighlighted | src/components/Hero.tsx:72-77 | A phrase between the first two quotes is the highlighted second segment, between the plain opening and what follows. |
| HeroText.LanguageSelection | src/components/Hero.tsx:33-59 | A title holding "Агрегираме", or a subtitle holding "оптимални", gets the Bulgarian markup. A text without those words' first letters gets the English markup. |
| HeroText.FeatureKey | src/components/Hero.tsx:68-72 | A feature key is the fixed prefix with the number's digit as its last character. |
| HeroText.RenderFeatures | src/components/Hero.tsx:68-77 | One item per feature number, each the segments of its translation. |
| HeroText.SixDistinctFeatures | src/components/Hero.tsx:68 | Exactly six items, numbered 1 to 6, with distinct keys. |
| JsText.IndexOf | src/components/ProblemsWeSolve.tsx:9 | `indexOf` is -1 exactly when there is no occurrence. Otherwise it is the first occurrence. |
| JsText.TrimEnd | src/components/ProblemsWeSolve.tsx:13 | `trimEnd` removes exactly a whitespace suffix, and what remains does not end in whitespace. |
| JsText.Split | src/pages/Legal.tsx:15 | `split` always yields at least one piece. |
| JsText.JoinSplit | src/components/Hero.tsx:72 | Joining the pieces of a split with the same separator gives the text back. |
| JsText.RemoveWhitespaceKeeps | routes/email.js:31 | Removing whitespace leaves a text without whitespace unchanged. |

## Left out

- Console logging, the timestamp's formatting, and the `new Date()` it comes from: the
  timestamp is an input.
- nodemailer's `createTransport`, `verify` and `sendMail`: they are network I/O in a library
  that is not part of this model. Their outcomes are inputs.
- The route's `debugInfo` fields `smtpResponse`, `errorCode` and `errorCommand` are built but
  never sent, so they are not modelled. The development `details` object is modelled.
- The dev-only test endpoints (routes/email.js:289-388) are diagnostic I/O.
- app.js, the server bootstrap and middleware, is not part of this model.
- General regular-expression semantics: the two patterns are written as character
  predicates. No claim of RFC 5322 conformance is made.
- HTML escaping: user fields are interpolated raw, and no sanitisation property is stated.
- JavaScript coercions:
  - an absent request field is the empty string;
  - `parseInt` is given as its result, an integer or `NaN`;
  - the Netlify handler's non-string JSON body fields are not modelled.
- EmailRoute.ValidateEmailData, EmailRoute.SendEmail: a submission field is a string. A truthy
  non-string `phone` (a JSON number, say) passes the presence test, and then `phone.replace`
  throws inside the route's `try`. The catch then answers 500 "Failed to send email". The model
  gives a 400 or a send for such input instead.
- JsText: a `char` is a Unicode scalar value. JavaScript counts a character outside the Basic
  Multilingual Plane as two code units, so lengths and indices differ for such text.
- `EmailRoute.SendEmail` returns the response and records what it handed to the transport. The
  awaits and the logging between the steps are not modelled.
- React rendering, CSS classes and the Embla carousel's internals. The carousel's selected
  index is taken as a card position. Mobile Prev and Next are the scroll commands the carousel
  receives; where they land is not modelled.
- The dots' CSS visibility per breakpoint is not modelled. Each layout's dots are those its
  own branch renders.
- The `use-mobile` hook and the desktop media query are not part of this model. Their results
  are the two flags.
- Prototype keys in the `serviceCategories` lookup: for a filter named like an inherited
  property of a JavaScript object (`constructor`, `toString`, `__proto__`), the lookup is not
  an array, so `?.includes(index)` throws while rendering. The model shows no services instead.
- LegalPage.TabParam: reads the `tab` parameter only from locations whose query is that single
  parameter, without percent-decoding; the locations the page itself navigates to are of that
  form. General URL query parsing is not modelled.
- ServicesSection.VisibleFeatures: states which keys are shown, not that their order is kept.
- HeroText.LanguageSelection: states the two directions separately. A text holding the word is
  Bulgarian; a text lacking its first letter is English. It does not characterise every text.
- The translation function `t` is a parameter; translations themselves are not modelled.
- The router's navigation is recorded as the location it replaces; history is not modelled.
- The site's description has the form and the server validate alike. The code does not: the
  form checks neither the phone's format nor the name and the message. The model follows the
  code (`ContactForm.ClientAcceptsMissingName`, `ContactForm.ClientAcceptsShortPhone`).

## Findings

| source | as written | input that shows it | evidently intended | confidence | as-written member | corrected member |
|---|---|---|---|---|---|---|
| src/components/Team.tsx:245 | On desktops, Prev scrolls to position 0 whichever page is shown: both branches of its conditional are 0. | Desktop layout, selected card 0 (first page). Prev scrolls to 0 and the page stays 0, while Next moves to position 3. | A toggle between positions 0 and 3, as the comment beside it says, so that Prev moves to the other page as Next does. | not executed | TeamCarousel.DesktopPrevAsWrittenStaysOnFirstPage | TeamCarousel.DesktopPrevToggleTogglesPage |
