# obichaite-se storefront core, modelled in Dafny

This project models the logic of the obichaite-se gift shop: a Next.js
storefront with a Payload CMS back end. It covers the parts that decide
something. The browser, the CMS, the mailer and the payment gateway appear
only as inputs.

- **Checkout** (`checkout.dfy`): the cart total in BGN minor units (promo
  price over base price, lines without a positive quantity skipped, optional
  discount factor, `Math.round`), its conversion to EUR minor units at
  1.95583 BGN/EUR, and the amount and metadata handed to the payment
  gateway.
- **Product inquiry**:
  - The server action (`inquiry_mail.dfy`, `html_escape.dfy`,
    `inquiry_patterns.dfy`): ordered contact checks, per-question
    normalisation with the first failure returned, HTML escaping of every
    piece of user text, and the e-mail it composes.
  - The client form (`inquiry_form.dfy`): the same checks with per-field
    error messages, the payload it sends, and the modal's
    `sending`/`error`/`fieldErrors`/`isSubmitted` state.
  - The proof that the client and the server accept the same submissions
    with the same answers.
  - The default questions and the CMS hook that seeds them
    (`inquiry_defaults.dfy`, `ensure_inquiry_defaults.dfy`).
- **Small utilities**: the BGN→EUR price label (`price_to_euro.dfy`), the
  category-id→slug table (`category_slug.dfy`), and the product CSV feed
  (`export_products.dfy`).
- **UI state machines and list builders**:
  - the rotating headline (`rotating_headline.dfy`);
  - the announcement bar (`announcement_bar.dfy`);
  - the vertical portrait marquee (`portrait_marquee.dfy`);
  - the review form (`review_form.dfy`);
  - the review summary (`review_section.dfy`).

Shared modules model the JavaScript runtime the code relies on:
- `wrappers.dfy`: `Option` and `Result`.
- `js_string.dfy`: `trim` with JavaScript's whitespace set, UTF-16
  `length`, `split` and `join`.
- `js_number.dfy`: `Math.round`, `Math.ceil`, integer text and `toFixed(2)`.
- `js_value.dfy`: dynamic values, `String(v ?? '')` and truthiness.

Imperative code is modelled imperatively, each method proved equal to a
function that states its result:
- the checkout loop;
- the server's and the client's question loops;
- the CMS hook that assigns into its argument;
- the inquiry modal, the rotating headline, the announcement bar, the
  marquee and the review form, each a class whose fields are the
  component's state.

Numbers are exact (`real` and unbounded `int`).

2000 BGN minor units convert to 1023 EUR minor units: 2000 / 1.95583 =
1022.58…, which `Math.round` rounds up (`Checkout.EurExamples`).

## Model

| member | source | states |
|---|---|---|
| Checkout.TotalAmount | obichaite-se/src/Stripe/action/index.ts:6-28 | The amount is never negative, and is 0 whenever the qualifying lines add up to at most 0 (no discount or rounding applied then). |
| Checkout.CalculateTotalAmount | obichaite-se/src/Stripe/action/index.ts:6-28 | The loop with `continue`, the early return, `total *= discount` and the final `Math.round(total * 100)` returns exactly `TotalAmount`. |
| Checkout.NonPositiveQuantityIgnored | obichaite-se/src/Stripe/action/index.ts:9-10 | Removing a line whose quantity is ≤ 0 leaves the lines' total unchanged. |
| Checkout.NoQualifyingLinesSumToZero | obichaite-se/src/Stripe/action/index.ts:9-15 | When no line has a positive quantity, the lines add up to 0. |
| Checkout.NoQualifyingLinesCostNothing | obichaite-se/src/Stripe/action/index.ts:9-19 | When no line has a positive quantity, the amount is 0 whatever the discount. |
| Checkout.PromoOverridesPrice | obichaite-se/src/Stripe/action/index.ts:12 | A truthy promo price is the unit price, whatever the base price. |
| Checkout.NonPositiveDiscountIsNoDiscount | obichaite-se/src/Stripe/action/index.ts:21-23 | A discount factor ≤ 0 gives the same amount as no discount. |
| Checkout.DiscountExamples | obichaite-se/src/Stripe/action/index.ts:21-25 | A factor of 0.5 halves the amount and a factor of 2 doubles it: factors above 1 are not clamped. |
| Checkout.SingleLineTotal | obichaite-se/src/Stripe/action/index.ts:12-25 | One line with price P, quantity Q and no promo or discount costs `round(P*Q*100)`. |
| Checkout.BgnMinorToEurMinor | obichaite-se/src/Stripe/action/index.ts:30-34 | A non-negative BGN amount converts to a non-negative EUR amount. |
| Checkout.EurExamples | obichaite-se/src/Stripe/action/index.ts:30-34 | 1000 BGN minor converts to 511 EUR minor, and 2000 to 1023. |
| Checkout.EurMonotone | obichaite-se/src/Stripe/action/index.ts:32-34 | The conversion never maps a larger amount below a smaller one. |
| Checkout.CheckoutExample | obichaite-se/src/Stripe/action/index.ts:36-38 | Two items at 10 BGN cost 2000 BGN minor, charged as 1023 EUR minor. |
| Checkout.ProductsMetadata | obichaite-se/src/Stripe/action/index.ts:47-49 | The metadata has one `{title, orderQuantity}` per input line, zero-quantity lines included, in input order. |
| Checkout.AmountBgnTextReadsBack | obichaite-se/src/Stripe/action/index.ts:50 | `amount_bgn_minor` is the amount in hundredths with two decimals followed by ` BGN`, and it parses back to the amount. |
| Checkout.CreatePaymentIntentRequest | obichaite-se/src/Stripe/action/index.ts:36-53 | The gateway request carries the converted amount (never negative), currency `eur`, automatic payment methods, one product entry per line, the BGN text and the rate's text. |
| PriceToEuro.PriceToEuro | obichaite-se/src/utils/calculatePriceFromLvToEuro.ts:1-5 | A non-negative price is shown as the `toFixed(2)` text of its euro hundredths. |
| PriceToEuro.SameRateAsCheckout | obichaite-se/src/utils/calculatePriceFromLvToEuro.ts:2 | The label's rate is the checkout's rate. |
| PriceToEuro.TwoFractionalDigits | obichaite-se/src/utils/calculatePriceFromLvToEuro.ts:4 | The label is digits, a point and exactly two digits, which read back to the euro hundredths. |
| PriceToEuro.ZeroPrice | obichaite-se/src/utils/calculatePriceFromLvToEuro.ts:4 | A zero price is shown as `0.00`. |
| PriceToEuro.Monotone | obichaite-se/src/utils/calculatePriceFromLvToEuro.ts:4 | A larger price never shows a smaller euro amount. |
| CategorySlug.CategorySlugById | obichaite-se/src/utils/getCategorySlugById.ts:1-14 | Ids 1 to 6 give their slug from the table; every other integer gives `null`. |
| CategorySlug.KeysAreIdTexts | obichaite-se/src/utils/getCategorySlugById.ts:11-13 | `id.toString()` is a key of the table exactly for ids 1 to 6. |
| CategorySlug.SlugsInjective | obichaite-se/src/utils/getCategorySlugById.ts:1-8 | Distinct categories have distinct slugs. |
| InquiryDefaults.GetDefaultInquiryQuestions | obichaite-se/src/collections/Product/hooks/inquiryDefaults.ts:1-5 | The copier returns the defaults field by field, options included. |
| InquiryDefaults.CopyQuestion | obichaite-se/src/collections/Product/hooks/inquiryDefaults.ts:2-4 | A spread copy of a question, and of each of its options, equals the original. |
| InquiryDefaults.OptionValues | obichaite-se/src/action/mail/index.ts:232 | Every configured option's value is allowed, and a question without options allows none. |
| InquiryDefaults.DefaultsWellFormed | obichaite-se/src/collections/Product/hooks/inquiryDefaults.ts:7-65 | There are six defaults. Every select has options with distinct values. Only the budget question is optional. Text and date questions have no options. |
| EnsureInquiryDefaults.EffectiveShow | obichaite-se/src/collections/Product/hooks/ensureInquiryDefaults.ts:7 | The data's flag wins over the stored one when present; with neither, the flag is absent. |
| EnsureInquiryDefaults.EffectiveQuestions | obichaite-se/src/collections/Product/hooks/ensureInquiryDefaults.ts:10 | The data's questions win over the stored ones unless nullish. |
| EnsureInquiryDefaults.EnsureInquiryDefaults | obichaite-se/src/collections/Product/hooks/ensureInquiryDefaults.ts:4-16 | The same object comes back. Only `inquiryFormFields` may change, and it becomes the defaults exactly when the hook seeds. |
| EnsureInquiryDefaults.ShownFormHasQuestions | obichaite-se/src/collections/Product/hooks/ensureInquiryDefaults.ts:7-13 | When the form is shown, the product has at least one question after the hook. |
| EnsureInquiryDefaults.SeedsDefaults | obichaite-se/src/collections/Product/hooks/ensureInquiryDefaults.ts:11-13 | Seeding installs the six default questions. |
| EnsureInquiryDefaults.ExplicitFalseWins | obichaite-se/src/collections/Product/hooks/ensureInquiryDefaults.ts:7-8 | An explicit `false` in the data suppresses seeding even when the stored flag is `true`. |
| EnsureInquiryDefaults.HiddenFormUnchanged | obichaite-se/src/collections/Product/hooks/ensureInquiryDefaults.ts:8 | A hidden form's questions are left alone. |
| EnsureInquiryDefaults.OwnQuestionsKept | obichaite-se/src/collections/Product/hooks/ensureInquiryDefaults.ts:10-13 | A non-empty list in the data is kept. |
| EnsureInquiryDefaults.Idempotent | obichaite-se/src/collections/Product/hooks/ensureInquiryDefaults.ts:4-16 | Running the hook twice is running it once. |
| ExportProducts.Row | obichaite-se/scripts/export-products.ts:21-38 | A present but empty `mediaArray` makes the mapping throw (the `TypeError` of `mediaArray?.[0].file`), and nothing else does. Otherwise there are 14 values. Brand and currency are empty and condition is `new`. The link is the site prefix plus the slug. The price is `priceRange` when truthy, else `price`, then ` BGN`. The sale price is empty without a promo price, and the second image link is empty without a second image. |
| ExportProducts.ImageLink | obichaite-se/scripts/export-products.ts:27 | The first image's url. It is empty without a gallery, and throws exactly for an empty gallery. |
| ExportProducts.CsvLines | obichaite-se/scripts/export-products.ts:21-42 | There is one line per product, in query order, exactly when no product has an empty gallery. Otherwise the export stops at the first such product. |
| ExportProducts.Csv | obichaite-se/scripts/export-products.ts:42-43 | A file is produced exactly when every product maps to a line. |
| ExportProducts.EmptyGalleryStopsExport | obichaite-se/scripts/export-products.ts:27 | One product with an empty gallery anywhere in the query makes the whole export fail at or before it: no file is written. |
| ExportProducts.MapUntilThrow | obichaite-se/scripts/export-products.ts:21 | `map` with a throwing callback gives every result in order when no call throws. Otherwise it fails at the first call that throws, and every earlier call succeeded. |
| ExportProducts.EmptyExport | obichaite-se/scripts/export-products.ts:42 | No products give an empty file. |
| ExportProducts.OneLinePerProduct | obichaite-se/scripts/export-products.ts:42 | When no row throws and no value holds a newline, the file splits back into exactly the product lines: no header and no trailing newline. |
| ExportProducts.RowReadsBack | obichaite-se/scripts/export-products.ts:42 | When no value holds a comma, a line splits back into the row's 14 values. |
| ExportProducts.CommasShiftColumns | obichaite-se/scripts/export-products.ts:42 | Without quoting, a line splits into 14 values plus one more per comma inside a value. |
| ExportProducts.JoinFreeOf | obichaite-se/scripts/export-products.ts:42 | Joining values free of a character with a separator free of it yields text free of it. |
| JsValue.SafeString | obichaite-se/src/action/mail/index.ts:77 | `safeString` gives trimmed text: empty for nullish values, and the trimmed string for strings. |
| JsString.Trim | obichaite-se/src/action/mail/index.ts:77 | `trim` leaves no surrounding whitespace, never grows the text, and gives the empty text exactly for whitespace-only input. |
| JsString.TrimIdempotent | obichaite-se/src/components/Product/ProductInquiryFormModal.tsx:28 | Trimming twice is trimming once. |
| JsString.TrimIsInfix | obichaite-se/src/components/Custom/MultipleAnimatedText.tsx:24 | The trimmed text is a contiguous part of the original. |
| JsString.SplitJoin | obichaite-se/scripts/export-products.ts:42 | Splitting the join of separator-free pieces gives the pieces back. |
| HtmlEscape.EscapeHtmlIsPerChar | obichaite-se/src/action/mail/index.ts:80-86 | The chain of five global replacements equals escaping each character on its own: no entity is escaped twice. |
| HtmlEscape.NoMarkupChars | obichaite-se/src/action/mail/index.ts:80-86 | The escaped text holds no raw `<`, `>`, `"` or `'`. |
| HtmlEscape.UnescapeEscape | obichaite-se/src/action/mail/index.ts:80-86 | Decoding the escaped text gives the original back. |
| HtmlEscape.EscapeInjective | obichaite-se/src/action/mail/index.ts:80-86 | Distinct texts escape to distinct texts. |
| HtmlEscape.EscapeEmpty | obichaite-se/src/action/mail/index.ts:80-86 | Only the empty text escapes to the empty text. |
| HtmlEscape.ReplaceAll | obichaite-se/src/action/mail/index.ts:82-86 | A text without the character is returned unchanged. |
| InquiryPatterns.IndexOf | obichaite-se/src/action/mail/index.ts:74 | Gives the first position of the character, or -1 exactly when it is absent. |
| InquiryPatterns.IsEmailMatchesPattern | obichaite-se/src/action/mail/index.ts:74 | The e-mail test accepts exactly the texts `^[^\s@]+@[^\s@]+\.[^\s@]{2,}$` matches, with `{2,}` counted in UTF-16 code units as a regular expression without the `u` flag counts them. |
| InquiryPatterns.EmailHasOneAt | obichaite-se/src/action/mail/index.ts:74 | An accepted address has exactly one `@`, and it is at neither end. |
| InquiryPatterns.AcceptedAreTrimmed | obichaite-se/src/action/mail/index.ts:74-75 | Texts the e-mail or phone pattern accepts have no surrounding whitespace. |
| InquiryPatterns.ShortestAccepted | obichaite-se/src/action/mail/index.ts:74 | `a@b.bg` is accepted. |
| InquiryPatterns.AstralTopLevelAccepted | obichaite-se/src/action/mail/index.ts:74 | `a@b.😀` is accepted: one character outside the Basic Multilingual Plane is two code units, enough for the top-level part. |
| InquiryPatterns.MissingPartsRejected | obichaite-se/src/action/mail/index.ts:74 | A one-letter top-level part, an empty domain and an empty local part are rejected. |
| InquiryPatterns.ForbiddenCharsRejected | obichaite-se/src/action/mail/index.ts:74 | Whitespace and a second `@` are rejected. |
| InquiryMail.QuestionTitle | obichaite-se/src/action/mail/index.ts:201 | A question's title is never empty. |
| InquiryMail.QuestionFallback | obichaite-se/src/action/mail/index.ts:201 | An empty title becomes `Въпрос <idx+1>`, distinct for distinct positions. |
| InquiryMail.DatePart | obichaite-se/src/action/mail/index.ts:206-208 | A date answer's `date` or `text` part is trimmed, and empty when the answer is not an object. |
| InquiryMail.PlainInput | obichaite-se/src/action/mail/index.ts:224-225 | A non-string answer gives the empty value, and the value is always trimmed. |
| InquiryMail.NormalizeField | obichaite-se/src/action/mail/index.ts:200-243 | A success carries the question's title, type and required flag, with a date/note value for date questions and a plain value otherwise. A failure is one of the three messages naming the question. |
| InquiryMail.FieldResults | obichaite-se/src/action/mail/index.ts:200-203 | One normalisation per configured question, reading the answer at the same index. |
| InquiryMail.NormalizeOne | obichaite-se/src/action/mail/index.ts:201-243 | The loop body computes `NormalizeField`. |
| InquiryMail.NormalizeAnswers | obichaite-se/src/action/mail/index.ts:197-244 | The loop returns the first failure or all normalised answers: `Collect(FieldResults(..))`. |
| InquiryMail.FailureStays | obichaite-se/src/action/mail/index.ts:210-235 | Once a prefix of the questions fails, the whole loop fails with that message. |
| InquiryMail.CollectSuccess | obichaite-se/src/action/mail/index.ts:200-244 | The loop succeeds exactly when every iteration does, yielding one value per iteration in order. |
| InquiryMail.CollectFirstFailure | obichaite-se/src/action/mail/index.ts:200-244 | A failure is the message of the first failing iteration, and all before it succeeded. |
| InquiryMail.OneAnswerPerField | obichaite-se/src/action/mail/index.ts:197-244 | On success there is exactly one answer per configured question, each its own normalisation. |
| InquiryMail.FirstFailureWins | obichaite-se/src/action/mail/index.ts:200-235 | A failure names the first question that fails; every earlier question passed. |
| InquiryMail.ExtraAnswersIgnored | obichaite-se/src/action/mail/index.ts:200-203 | Answers beyond the configured questions are never read. |
| InquiryMail.RequiredDateMissing | obichaite-se/src/action/mail/index.ts:210-212 | A required date question without a date fails with `Липсва дата за: <question>`. |
| InquiryMail.NonObjectDateIsEmpty | obichaite-se/src/action/mail/index.ts:206-219 | An optional date question with a non-object value yields an empty date and note. |
| InquiryMail.NonStringPlainIsEmpty | obichaite-se/src/action/mail/index.ts:224-243 | An optional plain question with a non-string value yields the empty value. |
| InquiryMail.SelectOutsideOptions | obichaite-se/src/action/mail/index.ts:231-235 | A non-empty select value outside the options fails with `Невалидна стойност за: <question>`. |
| InquiryMail.EmptyOptionalSelect | obichaite-se/src/action/mail/index.ts:227-236 | An optional select left empty passes without the option check. |
| InquiryMail.ItemMarkupIsTemplate | obichaite-se/src/action/mail/index.ts:88-115 | An answer's `<li>` holds exactly its template's `<` characters: user text cannot open a tag. |
| InquiryMail.MarkupIndependentOfText | obichaite-se/src/action/mail/index.ts:88-115 | Two answers of the same shape carry the same markup, whatever their text. |
| InquiryMail.NoteLineOnlyWithNote | obichaite-se/src/action/mail/index.ts:102 | The note line's tags appear only for a non-empty note. |
| InquiryMail.MissingDateRendersPlaceholder | obichaite-se/src/action/mail/index.ts:95 | A missing date is rendered as `Не е посочена`. |
| InquiryMail.EmptyValueRendersDash | obichaite-se/src/action/mail/index.ts:107 | An empty plain value is rendered as `-`. |
| InquiryMail.AnswersHtmlAppend | obichaite-se/src/action/mail/index.ts:88-115 | There is one item per answer in order: appending an answer appends its item. |
| InquiryMail.NoAnswersNoHtml | obichaite-se/src/action/mail/index.ts:88-115 | No answers give no items. |
| InquiryMail.Recipient | obichaite-se/src/action/mail/index.ts:180-184 | There is a recipient exactly when `INQUIRY_EMAIL_TO` or `ADMIN_EMAIL` is non-empty, and it is non-empty. |
| InquiryMail.CheckContact | obichaite-se/src/action/mail/index.ts:159-177 | The early returns, in source order, give `ContactError`. |
| InquiryMail.ContactChecksInOrder | obichaite-se/src/action/mail/index.ts:159-177 | Each message is returned exactly when its check fails and every earlier check passed. There is no message exactly when all pass. |
| InquiryMail.AdditionalInfoBoundary | obichaite-se/src/action/mail/index.ts:172 | 1000 characters of additional information pass and 1001 are too long (no surrogate pairs). |
| InquiryMail.SendProductInquiryEmail | obichaite-se/src/action/mail/index.ts:156-270 | The action returns `InquiryOutcome`: the composed e-mail, or the first failing check's message. |
| InquiryMail.InquirySucceeds | obichaite-se/src/action/mail/index.ts:156-270 | The action succeeds exactly when the contact checks pass, a recipient is set, the product exists and shows the form, and every answer normalises. The e-mail then goes to that recipient with the normalised answers. |
| InquiryMail.ChecksBeforeLookup | obichaite-se/src/action/mail/index.ts:164-184 | An input failing a check is rejected before the recipient or the product is consulted. |
| InquiryForm.FieldText | obichaite-se/src/components/Product/ProductInquiryFormModal.tsx:28 | `toStr` always gives trimmed text. |
| InquiryForm.SameQuestionTitle | obichaite-se/src/components/Product/ProductInquiryFormModal.tsx:29 | The form titles a question exactly as the server does. |
| InquiryForm.ClientAnswers | obichaite-se/src/components/Product/ProductInquiryFormModal.tsx:111-154 | One answer per configured question, in order. |
| InquiryForm.ControlNameInjective | obichaite-se/src/components/Product/ProductInquiryFormModal.tsx:88-135 | Distinct controls have distinct `name`s (`email`, `q_<i>`, `q_<i>_date`, …), so keying by control loses nothing. |
| InquiryForm.ContactErrorsIff | obichaite-se/src/components/Product/ProductInquiryFormModal.tsx:88-109 | Each contact control carries an error exactly when its check fails. An empty phone gets its own message, distinct from a non-numeric one. |
| InquiryForm.ContactValidIff | obichaite-se/src/components/Product/ProductInquiryFormModal.tsx:93-109 | The contact checks record nothing exactly when all four pass. |
| InquiryForm.ContactKeys | obichaite-se/src/components/Product/ProductInquiryFormModal.tsx:93-109 | Only the four contact controls can carry a contact error. |
| InquiryForm.Controls | obichaite-se/src/components/Product/ProductInquiryFormModal.tsx:114-123 | Each question's error goes under its own input, or under its date input for a date question. |
| InquiryForm.FieldErrors | obichaite-se/src/components/Product/ProductInquiryFormModal.tsx:113-146 | One error slot per question, in order. |
| InquiryForm.CollectDate | obichaite-se/src/components/Product/ProductInquiryFormModal.tsx:118-132 | A date question's step pushes its answer and records `Изберете дата за:` when required and empty. |
| InquiryForm.CollectPlain | obichaite-se/src/components/Product/ProductInquiryFormModal.tsx:135-153 | A plain question's step pushes its answer and records a missing answer or, for a select, an unknown option (the later check overwriting). |
| InquiryForm.CollectOne | obichaite-se/src/components/Product/ProductInquiryFormModal.tsx:113-154 | One iteration computes the question's answer and error. |
| InquiryForm.CollectAnswers | obichaite-se/src/components/Product/ProductInquiryFormModal.tsx:86-154 | `onSubmit`'s checks and loop produce all answers and `FormErrors`. |
| InquiryForm.RecordEmpty | obichaite-se/src/components/Product/ProductInquiryFormModal.tsx:113-154 | The loop records nothing exactly when it starts empty and no question has an error. |
| InquiryForm.RecordShown | obichaite-se/src/components/Product/ProductInquiryFormModal.tsx:113-154 | Each question's error, and only an error, ends up under its own control. |
| InquiryForm.RecordAbsent | obichaite-se/src/components/Product/ProductInquiryFormModal.tsx:113-154 | No other control gets an entry. |
| InquiryForm.FormValidIff | obichaite-se/src/components/Product/ProductInquiryFormModal.tsx:156 | The form has no errors exactly when the contact fields pass and no question has an error. |
| InquiryForm.ErrorShown | obichaite-se/src/components/Product/ProductInquiryFormModal.tsx:123-144 | Every question error is shown under that question's control. |
| InquiryForm.SelectErrorExclusive | obichaite-se/src/components/Product/ProductInquiryFormModal.tsx:137-146 | A select question reports a missing answer or an unknown option, never both. |
| InquiryForm.PayloadProps | obichaite-se/src/components/Product/ProductInquiryFormModal.tsx:165-173 | Each property the action reads from the payload is what the form put there. |
| InquiryForm.ServerAgreesOnQuestion | obichaite-se/src/components/Product/ProductInquiryFormModal.tsx:113-154 | The server accepts a question's answer exactly when the form records no error for it, and keeps the answer unchanged. |
| InquiryForm.ServerAgreesOnContact | obichaite-se/src/components/Product/ProductInquiryFormModal.tsx:88-109 | The server's contact checks pass exactly when the form's do. |
| InquiryForm.ClientAndServerAgree | obichaite-se/src/components/Product/ProductInquiryFormModal.tsx:86-173 | The form has no errors exactly when the server's checks and loop succeed on the payload. The server's answers are then the form's. |
| InquiryForm.AcceptedSubmissionIsMailed | obichaite-se/src/components/Product/ProductInquiryFormModal.tsx:156-173 | A submission the form accepts is e-mailed with the form's answers when the product shows the form and a recipient is set. |
| InquiryForm.ClearFieldErrorOnlyThatControl | obichaite-se/src/components/Product/ProductInquiryFormModal.tsx:65-72 | Clearing touches no other control, keeps an empty message, and is idempotent. |
| InquiryForm.SubmitIgnoredWhileSending | obichaite-se/src/components/Product/ProductInquiryFormModal.tsx:78 | A submit while sending changes nothing. |
| InquiryForm.SubmitSendsOnlyValidForms | obichaite-se/src/components/Product/ProductInquiryFormModal.tsx:78-162 | A submit starts sending exactly when the form has no errors. Otherwise it shows the errors and `Моля, коригирайте отбелязаните полета.`. |
| InquiryForm.SubmitThenReply | obichaite-se/src/components/Product/ProductInquiryFormModal.tsx:162-189 | After the reply, sending is over. `isSubmitted` holds exactly on `ok`. A refusal shows the action's message (or the fallback), and a thrown error shows the fallback. |
| InquiryForm.InquiryFormModal.OnClosed | obichaite-se/src/components/Product/ProductInquiryFormModal.tsx:57-63 | Closing resets every flag and error. |
| InquiryForm.InquiryFormModal.ClearFieldError | obichaite-se/src/components/Product/ProductInquiryFormModal.tsx:65-72 | The error map becomes `WithoutError` of the old one. |
| InquiryForm.InquiryFormModal.Submit | obichaite-se/src/components/Product/ProductInquiryFormModal.tsx:76-173 | The state becomes `AfterSubmit`. The payload is sent exactly when not already sending and the form is valid, and it is `SubmittedPayload`. |
| InquiryForm.InquiryFormModal.Settle | obichaite-se/src/components/Product/ProductInquiryFormModal.tsx:175-189 | The state becomes `AfterReply`, whether or not the modal was closed while the call was under way. |
| InquiryForm.ReplyAfterCloseOutlivesIt | obichaite-se/src/components/Product/ProductInquiryFormModal.tsx:57-63 | A reply that lands after the modal was closed mid-send leaves it out of its closed state: thank-you exactly on delivery, an error otherwise, and both are shown on reopening. |
| RotatingHeadline.SplitLinesClean | obichaite-se/src/components/Custom/MultipleAnimatedText.tsx:21-26 | Every line is non-empty, trimmed and free of `\n`. |
| RotatingHeadline.KeepAllNonEmpty | obichaite-se/src/components/Custom/MultipleAnimatedText.tsx:25 | The filter keeps every non-empty line. |
| RotatingHeadline.TrimAll | obichaite-se/src/components/Custom/MultipleAnimatedText.tsx:24 | Trims every piece, keeping the count and order. |
| RotatingHeadline.SplitLinesJoin | obichaite-se/src/components/Custom/MultipleAnimatedText.tsx:21-26 | Clean lines joined by newlines split back into themselves. |
| RotatingHeadline.InitialIndex | obichaite-se/src/components/Custom/MultipleAnimatedText.tsx:63-66 | The start index is clamped into `[0, len)`, kept when already inside, and 0 without texts. |
| RotatingHeadline.CurrentText | obichaite-se/src/components/Custom/MultipleAnimatedText.tsx:70 | The text at the index, or the empty text. |
| RotatingHeadline.CurrentLinesClean | obichaite-se/src/components/Custom/MultipleAnimatedText.tsx:63-71 | The first text shown is the clamped start text, and its lines are clean. |
| RotatingHeadline.PhaseEndsWithLastLine | obichaite-se/src/components/Custom/MultipleAnimatedText.tsx:73-74 | A phase lasts exactly until the last line's animation ends, and every line's has ended by then. |
| RotatingHeadline.ScheduledDelayMs | obichaite-se/src/components/Custom/MultipleAnimatedText.tsx:76-100 | When the effect runs: no timer is set without texts or while paused. Otherwise the delay is `holdMs` under reduced motion or in `hold`, and the phase's duration otherwise. |
| RotatingHeadline.StepIndex | obichaite-se/src/components/Custom/MultipleAnimatedText.tsx:82-100 | The index stays in range and changes, by +1 mod len, only on `out → in` or under reduced motion. Phases cycle `in → hold → out → in`. |
| RotatingHeadline.NextTextAfterThreeSteps | obichaite-se/src/components/Custom/MultipleAnimatedText.tsx:91-100 | Three timers after a text enters, the next one enters. |
| RotatingHeadline.StepsInCycles | obichaite-se/src/components/Custom/MultipleAnimatedText.tsx:91-100 | After `3k` timers the text `k` further on is entering. |
| RotatingHeadline.FullRotation | obichaite-se/src/components/Custom/MultipleAnimatedText.tsx:91-100 | After `3·len` timers the headline is back where it started. |
| RotatingHeadline.ReducedMotionRotates | obichaite-se/src/components/Custom/MultipleAnimatedText.tsx:82-88 | Under reduced motion, `k` applications of the timer callback show the text `k` further on, in `hold`. |
| RotatingHeadline.Headline.TimerFired | obichaite-se/src/components/Custom/MultipleAnimatedText.tsx:76-103 | The pending timer fires: the callback performs `Step`, the timer is spent, and the render runs the effect again only if a dependency changed (`Fire`). |
| RotatingHeadline.Headline.Callback | obichaite-se/src/components/Custom/MultipleAnimatedText.tsx:82-100 | The timer callback's new index and phase are `Step`'s. |
| RotatingHeadline.Headline.CommitEffect | obichaite-se/src/components/Custom/MultipleAnimatedText.tsx:76-103 | After a render the timer is replaced only when the dependency list changed (`Commit`). |
| RotatingHeadline.Headline.OnHover | obichaite-se/src/components/Custom/MultipleAnimatedText.tsx:118-119 | Hovering pauses and leaving resumes, only with `pauseOnHover`, and the render may set or clear the timer (`Hover`). |
| RotatingHeadline.ConfigOf | obichaite-se/src/components/Custom/MultipleAnimatedText.tsx:71-74 | The timings see, for each text, the number of lines `splitLines` gives. |
| RotatingHeadline.LinesAtCurrentText | obichaite-se/src/components/Custom/MultipleAnimatedText.tsx:70-71 | The line count used for the durations is that of `currentText`, 0 for an out-of-range index. |
| RotatingHeadline.Commit | obichaite-se/src/components/Custom/MultipleAnimatedText.tsx:76-103 | An effect re-run (cleanup, then `ScheduledDelayMs`) happens exactly when the dependency values changed; otherwise the pending timer stays. |
| RotatingHeadline.Mount | obichaite-se/src/components/Custom/MultipleAnimatedText.tsx:63-103 | The first render shows the clamped start text entering, with a timer pending exactly when there are texts. |
| RotatingHeadline.Fire | obichaite-se/src/components/Custom/MultipleAnimatedText.tsx:76-103 | A firing applies `Step` and keeps the component consistent: pending timers only for unpaused texts, dependencies recorded. |
| RotatingHeadline.Hover | obichaite-se/src/components/Custom/MultipleAnimatedText.tsx:118-119 | The hover handlers change only the pause flag and keep the component consistent. |
| RotatingHeadline.AnimatedKeepsTicking | obichaite-se/src/components/Custom/MultipleAnimatedText.tsx:91-103 | Without reduced motion every firing changes the phase, so another timer is always set. |
| RotatingHeadline.AnimatedRunFollowsSteps | obichaite-se/src/components/Custom/MultipleAnimatedText.tsx:91-103 | Without reduced motion the timers drive the headline through `Steps` indefinitely. |
| RotatingHeadline.ReducedMotionStalls | obichaite-se/src/components/Custom/MultipleAnimatedText.tsx:82-103 | As written, under reduced motion the headline advances exactly twice after mounting, then no timer is pending. |
| RotatingHeadline.HoverRearms | obichaite-se/src/components/Custom/MultipleAnimatedText.tsx:118-119 | As written, hovering and leaving sets a new timer, so a stalled headline advances once more. |
| RotatingHeadline.IntendedReducedMotionKeepsTicking | obichaite-se/src/components/Custom/MultipleAnimatedText.tsx:82-103 | With `index` among the dependencies, each reduced-motion firing over two or more texts sets another timer. |
| RotatingHeadline.IntendedReducedMotionRotates | obichaite-se/src/components/Custom/MultipleAnimatedText.tsx:82-103 | With `index` among the dependencies, `k` reduced-motion firings show the text `k` further on, and a timer is still pending. |
| AnnouncementBar.Clean | obichaite-se/src/Banner/AnnouncementBar.tsx:26-35 | Every message gets `<👉>` appended, and the truthiness filter drops nothing. |
| AnnouncementBar.KeepTruthy | obichaite-se/src/Banner/AnnouncementBar.tsx:33 | Keeps only non-empty strings from the input. |
| AnnouncementBar.Items | obichaite-se/src/Banner/AnnouncementBar.tsx:37-40 | For n ≥ 1 messages there are 2n−1 items: messages in order at even positions and the separator at odd ones. There are none for no messages. |
| AnnouncementBar.ItemsOfMessages | obichaite-se/src/Banner/AnnouncementBar.tsx:37-40 | The items are empty exactly when there are no messages, and the last item is the last message. |
| AnnouncementBar.ComputeLayout | obichaite-se/src/Banner/AnnouncementBar.tsx:55-68 | Nothing is computed when a width is zero. Otherwise repeats ≥ 2, track = base × repeats ≥ 2 × container, and duration × max(1, speed) = track. |
| AnnouncementBar.SlowSpeedsClamp | obichaite-se/src/Banner/AnnouncementBar.tsx:67 | Speeds ≤ 1 px/s behave as 1 px/s. |
| AnnouncementBar.MeasuredBarAnimates | obichaite-se/src/Banner/AnnouncementBar.tsx:59-94 | Once both widths are positive, the bar animates. |
| AnnouncementBar.Bar.Compute | obichaite-se/src/Banner/AnnouncementBar.tsx:55-68 | The state is unchanged when a width is zero, and becomes the computed layout otherwise. |
| PortraitMarquee.Doubled | obichaite-se/src/components/Custom/VerticalPortraitMarquee.tsx:47 | Twice as many items, with item `i` being `items[i mod n]`. |
| PortraitMarquee.AnimationName | obichaite-se/src/components/Custom/VerticalPortraitMarquee.tsx:49 | `down` selects `vertical-marquee-down`, and `up` selects `vertical-marquee-up`. |
| PortraitMarquee.Marquee.ApplyReducedMotion | obichaite-se/src/components/Custom/VerticalPortraitMarquee.tsx:36-38 | Reduced motion only ever sets the user pause, and never clears it. |
| PortraitMarquee.Marquee.OnHover | obichaite-se/src/components/Custom/VerticalPortraitMarquee.tsx:59-60 | Hover changes the hover pause only with `pauseOnHover`. |
| ReviewForm.LengthError | obichaite-se/src/components/Reviews/ReviewForm.tsx:43-44 | Gives the message exactly when the text is shorter than 3 UTF-16 code units. |
| ReviewForm.CheckFields | obichaite-se/src/components/Reviews/ReviewForm.tsx:43-44 | Gives an author error iff the author is shorter than 3, and a message error iff the message is. |
| ReviewForm.MayCreateIff | obichaite-se/src/components/Reviews/ReviewForm.tsx:50-55 | `createReview` is called exactly with both texts long enough and both mandatory consents. The third consent plays no part. |
| ReviewForm.TwoAstralCharactersPass | obichaite-se/src/components/Reviews/ReviewForm.tsx:43 | Length counts code units: a two-emoji name passes. |
| ReviewForm.StarRow | obichaite-se/src/components/Reviews/ReviewForm.tsx:68-69 | Five stars, star `s` coloured iff `s ≤ rating`. |
| ReviewForm.ColouredStars | obichaite-se/src/components/Reviews/ReviewForm.tsx:68-69 | Exactly `rating` stars are coloured. |
| ReviewForm.Form.Submit | obichaite-se/src/components/Reviews/ReviewForm.tsx:37-55 | Creation is reached exactly when `MayCreate` holds. The general error is set iff a consent is missing, otherwise cleared. Field errors are shown only on refusal. |
| ReviewForm.Form.Settle | obichaite-se/src/components/Reviews/ReviewForm.tsx:55-64 | Success only on `ok`; otherwise the creation error. |
| ReviewSection.Stars | obichaite-se/src/components/Reviews/ReviewSection.tsx:13-14 | A review renders exactly `rating` stars, numbered from 1. |
| ReviewSection.ImageSource | obichaite-se/src/components/Reviews/ReviewSection.tsx:23 | The review's image when it has one, otherwise the logo; never empty. |
| ReviewSection.RatingSumBounds | obichaite-se/src/components/Reviews/ReviewSection.tsx:66 | With ratings in 1..5, the sum lies between n and 5n. |
| ReviewSection.OverallRating | obichaite-se/src/components/Reviews/ReviewSection.tsx:66-67 | The mean is undefined exactly for no reviews (0/0). Otherwise mean × n = sum. |
| ReviewSection.OverallRatingBounds | obichaite-se/src/components/Reviews/ReviewSection.tsx:67 | With valid ratings the mean lies in [1, 5]. |
| ReviewSection.Percentages | obichaite-se/src/components/Reviews/ReviewSection.tsx:70-71 | The percentage is rating × 20, and percentage + minusPercentage = 100. |
| ReviewSection.PercentageBounds | obichaite-se/src/components/Reviews/ReviewSection.tsx:70-71 | With valid ratings the covered share lies in [20, 100] and the masked one in [0, 80]. |
| ReviewSection.Shown | obichaite-se/src/components/Reviews/ReviewSection.tsx:123 | All reviews with `showMore`, otherwise the first min(2, n); always a prefix. |
| ReviewSection.FewReviewsAllShown | obichaite-se/src/components/Reviews/ReviewSection.tsx:123 | With at most two reviews, nothing is hidden. |
| JsNumber.Round | obichaite-se/src/Stripe/action/index.ts:25 | `Math.round` gives the integer within half a unit, with ties rounded up. |
| JsNumber.RoundMonotone | obichaite-se/src/Stripe/action/index.ts:25 | Rounding never reverses the order of two amounts. |
| JsNumber.Ceil | obichaite-se/src/Banner/AnnouncementBar.tsx:62 | `Math.ceil` gives the least integer not below its argument. |
| JsNumber.IntToStringRoundTrip | obichaite-se/src/utils/getCategorySlugById.ts:11 | `id.toString()` reads back as the same integer. |
| JsNumber.FormatHundredthsRoundTrip | obichaite-se/src/Stripe/action/index.ts:50 | `toFixed(2)` of a hundredths count is digits, a point and two digits, and reads back as the count. |
| JsNumber.ToFixed2 | obichaite-se/src/utils/calculatePriceFromLvToEuro.ts:4 | `toFixed(2)` always writes at least one whole digit, the point and two decimals. |
| JsString.Utf16Length | obichaite-se/src/components/Reviews/ReviewForm.tsx:43-44 | `.length` counts UTF-16 code units: at least one and at most two per character. |
| JsString.Split | obichaite-se/src/components/Custom/MultipleAnimatedText.tsx:23 | `split` always yields at least one piece. |
| RotatingHeadline.Step | obichaite-se/src/components/Custom/MultipleAnimatedText.tsx:82-100 | A timer keeps the index non-negative and, when it was in range, in range. |
| RotatingHeadline.Headline.constructor | obichaite-se/src/components/Custom/MultipleAnimatedText.tsx:49-74 | The headline starts as `Mount` says: on the clamped start text, entering, not paused, with the first timer set. |
| AnnouncementBar.Bar.constructor | obichaite-se/src/Banner/AnnouncementBar.tsx:45-47 | One repeat, no distance and no duration before measuring, so the bar does not animate. |
| PortraitMarquee.Marquee.constructor | obichaite-se/src/components/Custom/VerticalPortraitMarquee.tsx:28-29 | Neither pause flag is set and the marquee runs. |
| ReviewForm.Form.constructor | obichaite-se/src/components/Reviews/ReviewForm.tsx:16-35 | The rating is 5, every consent is off, and there are no errors and no success. |
| ReviewForm.Form.ToggleTerms | obichaite-se/src/components/Reviews/ReviewForm.tsx:161 | Flips the terms consent only. |
| ReviewForm.Form.TogglePrivacy | obichaite-se/src/components/Reviews/ReviewForm.tsx:174 | Flips the privacy consent only. |
| ReviewForm.Form.ToggleNextContacts | obichaite-se/src/components/Reviews/ReviewForm.tsx:187 | Flips the future-contact consent only. |
| ReviewForm.Form.ChooseStar | obichaite-se/src/components/Reviews/ReviewForm.tsx:78-80 | Choosing star `s` sets the rating to `s`. |
| InquiryForm.InquiryFormModal.constructor | obichaite-se/src/components/Product/ProductInquiryFormModal.tsx:51-54 | The modal starts idle: not sending, no error, no field errors and not submitted. |

## Findings

| source | as written | input that shows it | evidently intended | confidence | as-written member | corrected member |
|---|---|---|---|---|---|---|
| obichaite-se/src/components/Custom/MultipleAnimatedText.tsx:82-103 | The reduced-motion timer advances `index`, but `index` is not in the effect's dependency list, so after the second firing no new timer is set. | `prefers-reduced-motion: reduce`, two or more texts, no hover: the headline shows the start text, the next one, the one after, and then stays. | The texts rotate every `holdMs` for as long as the headline is shown (`index` among the dependencies). | medium, not executed | RotatingHeadline.ReducedMotionStalls | RotatingHeadline.IntendedReducedMotionRotates |

## Left out

- The payment gateway call (`stripe.paymentIntents.create`) and its client secret: a network API. `CreatePaymentIntentRequest` builds the request it receives.
- Delivering e-mail: `getPayload`, `findByID` and `sendEmail`. The product record and the recipient variables are parameters, and the other order e-mail actions wrap templates that are not part of this model.
- The fixed outer markup of the inquiry e-mail (`buildInquiryEmailHtml`): only the escaped values placed in it and the answers' items are modelled.
- JSON serialisation between the form and the server action: the payload is assumed to reach the action as the form built it (`PayloadValue`).
- Checkout.ProductsMetadata: keeps the product list as entries; the `JSON.stringify` text the gateway's metadata field receives is not modelled.
- Floating point. Amounts are exact reals and integers, so drift in `unitPrice * qty` and `toFixed` rounding of values like 1.005 are not captured.
- Non-integer numbers in the export: prices are carried in hundredths and printed with at most two decimals.
- Regular expressions are modelled as explicit character-class predicates, not with a general regex engine.
- Rendering, DOM and timers: the DOM, CSS, portals, `setTimeout`, `ResizeObserver`, `matchMedia` and `form.reset()` are out of scope. Timer firings, measured widths, media-query results and hover events are inputs to the handlers.
- The backdrop press-and-release close logic of the inquiry modal: mouse-button bookkeeping only.
- Concurrency: the `sending` guard is a sequential flag, and overlapping submissions are not modelled.
- The filesystem writes of the export script.
- Sharing between default question copies: the copier's fresh objects are values here, so freedom from aliasing is not captured.
- The `\r` of a Windows line break: `SplitLines` splits at `\n` and relies on trimming to remove it.
- RotatingHeadline.ReducedMotionRotates: states the rotation the reduced-motion callback aims at, not what the component does; as written the rotation stops after two timers (`RotatingHeadline.ReducedMotionStalls`, see Findings).
- A parent that re-renders the headline with a new `texts` array or new timings re-runs its effect; the model keeps the props fixed for the headline's lifetime.
- The headline's CSS phase class names, and the `toFixed(2)` display of the average rating.
- InquiryForm.ServerAgreesOnContact, InquiryForm.ClientAndServerAgree, InquiryForm.SubmitSendsOnlyValidForms and InquiryForm.AcceptedSubmissionIsMailed: these assume a non-empty `productId`, which the product page always passes. The server rejects an empty one first.
- ReviewForm.Form.Submit: leaves the previous field errors in place when the submission is accepted, as the source does. Errors from an earlier refused attempt stay visible while the review is being created.
- The review media upload and database write (`createReview`): its `ok` flag is an input to `Settle`.
