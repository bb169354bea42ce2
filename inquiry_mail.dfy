/**
 * The product-inquiry server action (`sendProductInquiryEmailAction` in
 * `action/mail/index.ts`): the ordered validation of the contact details,
 * the normalisation of each configured question's answer, and the HTML
 * list of answers placed in the e-mail. The product record and the two
 * recipient settings are parameters; the CMS lookup and the sending of the
 * e-mail are not modelled.
 */
module InquiryMail {
  import opened Wrappers
  import opened JsString
  import opened JsNumber
  import opened JsValue
  import opened HtmlEscape
  import opened InquiryPatterns
  import opened InquiryDefaults

  // ---------------------------------------------------------------------
  // Normalised answers and their HTML

  datatype AnswerValue = Plain(text: string) | Dated(date: string, note: string)

  /** One normalised answer (`ProductInquiryAnswerInput`). */
  datatype Answer = Answer(question: string, fieldType: FieldType, required: bool, value: AnswerValue)

  /**
   * The fixed markup of a date answer's item, around the question, the date
   * and the optional note line, and the text shown for a missing date.
   */
  datatype DateItemTemplate = DateItemTemplate(
    noDate: string, head: string, beforeDate: string, afterDate: string, noteOpen: string, noteClose: string, tail: string)

  /** The fixed markup of any other answer's item, around the question and the value. */
  datatype PlainItemTemplate = PlainItemTemplate(head: string, beforeValue: string, tail: string)

  const DATE_ITEM: DateItemTemplate := DateItemTemplate(
    "Не е посочена",
    "\n          <li style=\"margin:0 0 12px; padding:12px 14px; border:1px solid #e7d7c6; border-radius:12px; background:#fff;\">\n            <div style=\"font-size:15px; line-height:1.4; font-weight:700; color:#5A3B2A; margin-bottom:6px;\">",
    "</div>\n            <div style=\"font-size:14px; line-height:1.5; color:#3d2a20;\"><strong>Дата:</strong> ",
    "</div>\n            ",
    "<div style=\"font-size:14px; line-height:1.5; color:#3d2a20;\"><strong>Бележка:</strong> ",
    "</div>",
    "\n          </li>\n        ")

  const PLAIN_ITEM: PlainItemTemplate := PlainItemTemplate(
    "\n        <li style=\"margin:0 0 12px; padding:12px 14px; border:1px solid #e7d7c6; border-radius:12px; background:#fff;\">\n          <div style=\"font-size:15px; line-height:1.4; font-weight:700; color:#5A3B2A; margin-bottom:6px;\">",
    "</div>\n          <div style=\"font-size:14px; line-height:1.5; color:#3d2a20;\">",
    "</div>\n        </li>\n      ")

  /** A date item: the note line only when the (escaped) note is non-empty. */
  function DateItem(t: DateItemTemplate, question: string, date: string, note: string): string {
    t.head + question + t.beforeDate + date + t.afterDate
      + (if note != "" then t.noteOpen + note + t.noteClose else "")
      + t.tail
  }

  function PlainItem(t: PlainItemTemplate, question: string, value: string): string {
    t.head + question + t.beforeValue + value + t.tail
  }

  /** `answer.value.date`: a plain value has no `date` property. */
  function DateOf(v: AnswerValue): string {
    if v.Dated? then v.date else ""
  }

  function NoteOf(v: AnswerValue): string {
    if v.Dated? then v.note else ""
  }

  /** `String(answer.value || '-')`. */
  function ValueText(v: AnswerValue): string {
    match v
    case Plain(s) => if s == "" then "-" else s
    case Dated(_, _) => "[object Object]"
  }

  /** The `<li>` of one answer in the given templates, every piece of user text escaped. */
  function RenderItem(dt: DateItemTemplate, pt: PlainItemTemplate, a: Answer): string {
    var safeQuestion := EscapeHtml(a.question);
    if a.fieldType == DateText then
      var date := EscapeHtml(if DateOf(a.value) != "" then DateOf(a.value) else dt.noDate);
      DateItem(dt, safeQuestion, date, EscapeHtml(NoteOf(a.value)))
    else
      PlainItem(pt, safeQuestion, EscapeHtml(ValueText(a.value)))
  }

  function RenderItems(dt: DateItemTemplate, pt: PlainItemTemplate, answers: seq<Answer>): string {
    Join(seq(|answers|, i requires 0 <= i < |answers| => RenderItem(dt, pt, answers[i])), "")
  }

  /** The `<li>` of one answer in the e-mail. */
  function AnswerItemHtml(a: Answer): string {
    RenderItem(DATE_ITEM, PLAIN_ITEM, a)
  }

  /** `buildInquiryAnswersHtml`: the items, in order, joined with nothing between them. */
  function AnswersHtml(answers: seq<Answer>): string {
    RenderItems(DATE_ITEM, PLAIN_ITEM, answers)
  }

  // ---------------------------------------------------------------------
  // Validation messages

  const ERR_PRODUCT: string := "Липсва продукт."
  const ERR_EMAIL: string := "Невалиден имейл."
  const ERR_PHONE: string := "Телефонът трябва да съдържа само цифри."
  const ERR_CONSENT: string := "Липсва съгласие за контакт."
  const ERR_INFO_TOO_LONG: string := "Допълнителната информация е твърде дълга."
  const ERR_NO_ANSWERS: string := "Липсват отговори."
  const ERR_NO_RECIPIENT: string := "Липсва получател за запитвания (INQUIRY_EMAIL_TO / ADMIN_EMAIL)."
  const ERR_PRODUCT_NOT_FOUND: string := "Продуктът не е намерен."
  const ERR_FORM_INACTIVE: string := "Формата за запитване не е активна за този продукт."
  const ERR_MISSING_DATE: string := "Липсва дата за: "
  const ERR_MISSING_ANSWER: string := "Липсва отговор за: "
  const ERR_INVALID_OPTION: string := "Невалидна стойност за: "

  /** The longest additional information accepted, in UTF-16 code units. */
  const MAX_ADDITIONAL_INFO: nat := 1000

  // ---------------------------------------------------------------------
  // Per-question normalisation

  /** `safeString(field.title) || \`Въпрос ${idx + 1}\``. */
  function QuestionTitle(idx: nat, f: InquiryField): (q: string)
    ensures q != []
  {
    var title := Trim(f.title);
    if title != "" then title else "Въпрос " + NatToString(idx + 1)
  }

  /** `input.answers[idx]`: `undefined` past the end. */
  function Incoming(answers: seq<Value>, idx: nat): Value {
    if idx < |answers| then answers[idx] else Undefined
  }

  /**
   * One part of a date question's answer, `key` being `date` or `text`:
   * `safeString(value[key])` when the value is an object, else empty.
   */
  function DatePart(incoming: Value, key: string): (part: string)
    ensures !Prop(incoming, "value").IsObject() ==> part == ""
    ensures IsTrimmed(part)
  {
    var raw := Prop(incoming, "value");
    if raw.IsObject() then SafeString(Prop(raw, key)) else ""
  }

  /** The value of any other question: the trimmed text when it is a string, else empty. */
  function PlainInput(incoming: Value): (value: string)
    ensures !Prop(incoming, "value").Str? ==> value == ""
    ensures IsTrimmed(value)
  {
    var raw := Prop(incoming, "value");
    if raw.Str? then SafeString(raw) else ""
  }

  /**
   * One iteration of the loop over the configured questions: the normalised
   * answer, or the message the action returns.
   */
  function NormalizeField(idx: nat, f: InquiryField, incoming: Value): (r: Result<Answer, string>)
    ensures r.Success? ==>
      && r.value.question == QuestionTitle(idx, f)
      && r.value.fieldType == f.fieldType
      && r.value.required == IsRequired(f)
      && (r.value.value.Dated? <==> f.fieldType == DateText)
    ensures r.Success? && f.fieldType == DateText ==>
      r.value.value == Dated(DatePart(incoming, "date"), DatePart(incoming, "text"))
      && (IsRequired(f) ==> r.value.value.date != "")
    ensures r.Success? && f.fieldType != DateText ==>
      r.value.value == Plain(PlainInput(incoming))
      && (IsRequired(f) ==> r.value.value.text != "")
      && (f.fieldType == Select && r.value.value.text != "" ==> r.value.value.text in OptionValues(f))
    ensures r.Failure? ==> r.error in {
      ERR_MISSING_DATE + QuestionTitle(idx, f),
      ERR_MISSING_ANSWER + QuestionTitle(idx, f),
      ERR_INVALID_OPTION + QuestionTitle(idx, f) }
  {
    var question := QuestionTitle(idx, f);
    var required := IsRequired(f);
    if f.fieldType == DateText then
      var date := DatePart(incoming, "date");
      var text := DatePart(incoming, "text");
      if required && date == "" then Failure(ERR_MISSING_DATE + question)
      else Success(Answer(question, f.fieldType, required, Dated(date, text)))
    else
      var value := PlainInput(incoming);
      if required && value == "" then Failure(ERR_MISSING_ANSWER + question)
      else if f.fieldType == Select && value != "" && value !in OptionValues(f) then
        Failure(ERR_INVALID_OPTION + question)
      else Success(Answer(question, f.fieldType, required, Plain(value)))
  }

  /** What each configured question's iteration yields, in order. */
  function FieldResults(fields: seq<InquiryField>, answers: seq<Value>): (rs: seq<Result<Answer, string>>)
    ensures |rs| == |fields|
    ensures forall i :: 0 <= i < |fields| ==> rs[i] == NormalizeField(i, fields[i], Incoming(answers, i))
  {
    seq(|fields|, i requires 0 <= i < |fields| => NormalizeField(i, fields[i], Incoming(answers, i)))
  }

  /** The loop's outcome over a list of iteration results: the first failure, or all the answers. */
  function Collect<T>(rs: seq<Result<T, string>>): Result<seq<T>, string> {
    if rs == [] then Success([])
    else
      var prev := Collect(rs[..|rs| - 1]);
      var last := rs[|rs| - 1];
      if prev.Failure? then prev
      else if last.Failure? then Failure(last.error)
      else Success(prev.value + [last.value])
  }

  /** Once a prefix has failed, the whole list fails with the same message. */
  lemma {:induction false} FailureStays<T>(rs: seq<Result<T, string>>, n: nat)
    requires n <= |rs| && Collect(rs[..n]).Failure?
    ensures Collect(rs) == Collect(rs[..n])
  {
    if n < |rs| {
      assert rs[..|rs| - 1][..n] == rs[..n];
      FailureStays(rs[..|rs| - 1], n);
    } else {
      assert rs[..n] == rs;
    }
  }

  /** Success exactly when every iteration succeeds; then one value per iteration, in order. */
  lemma {:induction false} CollectSuccess<T>(rs: seq<Result<T, string>>)
    ensures Collect(rs).Success? <==> forall i :: 0 <= i < |rs| ==> rs[i].Success?
    ensures Collect(rs).Success? ==>
      |Collect(rs).value| == |rs| && forall i :: 0 <= i < |rs| ==> Collect(rs).value[i] == rs[i].value
  {
    if rs != [] {
      var init := rs[..|rs| - 1];
      CollectSuccess(init);
      assert forall i :: 0 <= i < |init| ==> init[i] == rs[i];
    }
  }

  /** A failure carries the message of the first failing iteration; all before it succeeded. */
  lemma {:induction false} CollectFirstFailure<T>(rs: seq<Result<T, string>>)
    requires Collect(rs).Failure?
    ensures exists k :: (0 <= k < |rs| && rs[k] == Failure(Collect(rs).error)
      && forall i :: 0 <= i < k ==> rs[i].Success?)
  {
    var init := rs[..|rs| - 1];
    assert forall i :: 0 <= i < |init| ==> init[i] == rs[i];
    if Collect(init).Failure? {
      CollectFirstFailure(init);
      var k :| 0 <= k < |init| && init[k] == Failure(Collect(init).error)
        && (forall i :: 0 <= i < k ==> init[i].Success?);
      assert rs[k] == Failure(Collect(rs).error);
    } else {
      CollectSuccess(init);
      var k := |rs| - 1;
      assert rs[k] == Failure(Collect(rs).error);
    }
  }

  /** On success there is exactly one answer per configured question, each that question's own normalisation. */
  lemma OneAnswerPerField(fields: seq<InquiryField>, answers: seq<Value>)
    ensures Collect(FieldResults(fields, answers)).Success? <==>
      forall i :: 0 <= i < |fields| ==> NormalizeField(i, fields[i], Incoming(answers, i)).Success?
    ensures Collect(FieldResults(fields, answers)).Success? ==>
      var normalized := Collect(FieldResults(fields, answers)).value;
      |normalized| == |fields|
      && forall i :: 0 <= i < |fields| ==> Success(normalized[i]) == NormalizeField(i, fields[i], Incoming(answers, i))
  {
    CollectSuccess(FieldResults(fields, answers));
  }

  /** A failure is the message of the first question that fails; every question before it passed. */
  lemma FirstFailureWins(fields: seq<InquiryField>, answers: seq<Value>)
    requires Collect(FieldResults(fields, answers)).Failure?
    ensures exists k :: (0 <= k < |fields|
      && NormalizeField(k, fields[k], Incoming(answers, k)) == Failure(Collect(FieldResults(fields, answers)).error)
      && forall i :: 0 <= i < k ==> NormalizeField(i, fields[i], Incoming(answers, i)).Success?)
  {
    var rs := FieldResults(fields, answers);
    CollectFirstFailure(rs);
    var k :| 0 <= k < |rs| && rs[k] == Failure(Collect(rs).error) && (forall i :: 0 <= i < k ==> rs[i].Success?);
    assert forall i :: 0 <= i < k ==> NormalizeField(i, fields[i], Incoming(answers, i)).Success? by {
      forall i | 0 <= i < k ensures NormalizeField(i, fields[i], Incoming(answers, i)).Success? {
        assert rs[i].Success?;
      }
    }
  }

  /** Incoming answers beyond the configured questions are never read. */
  lemma ExtraAnswersIgnored(fields: seq<InquiryField>, answers: seq<Value>, extra: seq<Value>)
    requires |answers| >= |fields|
    ensures FieldResults(fields, answers + extra) == FieldResults(fields, answers)
  {
    forall i | 0 <= i < |fields| ensures Incoming(answers + extra, i) == Incoming(answers, i) {
    }
  }

  /** An empty title falls back to the question's 1-based position, and distinct positions give distinct titles. */
  lemma QuestionFallback(i: nat, j: nat, f: InquiryField, g: InquiryField)
    requires Trim(f.title) == "" && Trim(g.title) == "" && i != j
    ensures QuestionTitle(i, f) == "Въпрос " + NatToString(i + 1)
    ensures QuestionTitle(i, f) != QuestionTitle(j, g)
  {
    var p := "Въпрос ";
    if QuestionTitle(i, f) == QuestionTitle(j, g) {
      assert (p + NatToString(i + 1))[|p|..] == NatToString(i + 1);
      assert (p + NatToString(j + 1))[|p|..] == NatToString(j + 1);
      NatToStringInjective(i + 1, j + 1);
    }
  }

  /** A required date question with no date fails, naming the question. */
  lemma RequiredDateMissing(idx: nat, f: InquiryField, incoming: Value)
    requires f.fieldType == DateText && IsRequired(f) && DatePart(incoming, "date") == ""
    ensures NormalizeField(idx, f, incoming) == Failure(ERR_MISSING_DATE + QuestionTitle(idx, f))
  {
  }

  /** A date answer that is not an object becomes an empty date and note. */
  lemma NonObjectDateIsEmpty(idx: nat, f: InquiryField, incoming: Value)
    requires f.fieldType == DateText && !IsRequired(f) && !Prop(incoming, "value").IsObject()
    ensures NormalizeField(idx, f, incoming) == Success(Answer(QuestionTitle(idx, f), DateText, false, Dated("", "")))
  {
  }

  /** A plain answer that is not a string (a number, an array, an object) becomes empty. */
  lemma NonStringPlainIsEmpty(idx: nat, f: InquiryField, incoming: Value)
    requires f.fieldType != DateText && !IsRequired(f) && !Prop(incoming, "value").Str?
    ensures NormalizeField(idx, f, incoming) == Success(Answer(QuestionTitle(idx, f), f.fieldType, false, Plain("")))
  {
  }

  /** A non-empty select answer outside the configured option values fails. */
  lemma SelectOutsideOptions(idx: nat, f: InquiryField, incoming: Value)
    requires f.fieldType == Select && PlainInput(incoming) != "" && PlainInput(incoming) !in OptionValues(f)
    ensures NormalizeField(idx, f, incoming) == Failure(ERR_INVALID_OPTION + QuestionTitle(idx, f))
  {
  }

  /** An optional select left empty passes, with an empty value. */
  lemma EmptyOptionalSelect(idx: nat, f: InquiryField, incoming: Value)
    requires f.fieldType == Select && !IsRequired(f) && PlainInput(incoming) == ""
    ensures NormalizeField(idx, f, incoming).Success?
  {
  }

  // ---------------------------------------------------------------------
  // Properties of the answers HTML

  lemma EscapedHasNoLt(s: string)
    ensures CountChar(EscapeHtml(s), '<') == 0
  {
    NoMarkupChars(s);
    var e := EscapeHtml(s);
    assert forall k :: 0 <= k < |e| ==> e[k] != '<';
    CountCharAbsent(e, '<');
  }

  lemma FillCount(head: string, x: string, mid: string, y: string, tail: string)
    requires CountChar(x, '<') == 0 && CountChar(y, '<') == 0
    ensures CountChar(head + x + mid + y + tail, '<') == CountChar(head, '<') + CountChar(mid, '<') + CountChar(tail, '<')
  {
    CountCharConcat(head, x, '<');
    CountCharConcat(head + x, mid, '<');
    CountCharConcat(head + x + mid, y, '<');
    CountCharConcat(head + x + mid + y, tail, '<');
  }

  /** The `<` characters of a date template, with or without its note line. */
  function DateMarkup(t: DateItemTemplate, withNote: bool): nat {
    CountChar(t.head, '<') + CountChar(t.beforeDate, '<') + CountChar(t.afterDate, '<')
      + (if withNote then CountChar(t.noteOpen, '<') + CountChar(t.noteClose, '<') else 0)
      + CountChar(t.tail, '<')
  }

  function PlainMarkup(t: PlainItemTemplate): nat {
    CountChar(t.head, '<') + CountChar(t.beforeValue, '<') + CountChar(t.tail, '<')
  }

  function NoteLine(t: DateItemTemplate, note: string): string {
    if note != "" then t.noteOpen + note + t.noteClose else ""
  }

  lemma NoteLineMarkup(t: DateItemTemplate, note: string)
    requires CountChar(note, '<') == 0
    ensures CountChar(NoteLine(t, note), '<')
      == if note != "" then CountChar(t.noteOpen, '<') + CountChar(t.noteClose, '<') else 0
  {
    if note != "" {
      CountCharConcat(t.noteOpen, note, '<');
      CountCharConcat(t.noteOpen + note, t.noteClose, '<');
    }
  }

  /** Filling a date template with `<`-free text adds no `<`. */
  lemma DateItemMarkup(t: DateItemTemplate, question: string, date: string, note: string)
    requires CountChar(question, '<') == 0 && CountChar(date, '<') == 0 && CountChar(note, '<') == 0
    ensures CountChar(DateItem(t, question, date, note), '<') == DateMarkup(t, note != "")
  {
    var front := t.head + question + t.beforeDate + date + t.afterDate;
    var line := NoteLine(t, note);
    assert DateItem(t, question, date, note) == front + line + t.tail;
    FillCount(t.head, question, t.beforeDate, date, t.afterDate);
    NoteLineMarkup(t, note);
    CountCharConcat(front, line, '<');
    CountCharConcat(front + line, t.tail, '<');
  }

  lemma PlainItemMarkup(t: PlainItemTemplate, question: string, value: string)
    requires CountChar(question, '<') == 0 && CountChar(value, '<') == 0
    ensures CountChar(PlainItem(t, question, value), '<') == PlainMarkup(t)
  {
    FillCount(t.head, question, t.beforeValue, value, t.tail);
  }

  /** The `<` characters an item's template contributes. */
  function TemplateMarkup(dt: DateItemTemplate, pt: PlainItemTemplate, a: Answer): nat {
    if a.fieldType == DateText then DateMarkup(dt, NoteOf(a.value) != "") else PlainMarkup(pt)
  }

  lemma {:induction false} RenderMarkup(dt: DateItemTemplate, pt: PlainItemTemplate, a: Answer)
    ensures CountChar(RenderItem(dt, pt, a), '<') == TemplateMarkup(dt, pt, a)
  {
    EscapedHasNoLt(a.question);
    if a.fieldType == DateText {
      var shown := if DateOf(a.value) != "" then DateOf(a.value) else dt.noDate;
      EscapedHasNoLt(shown);
      EscapedHasNoLt(NoteOf(a.value));
      EscapeEmpty(NoteOf(a.value));
      DateItemMarkup(dt, EscapeHtml(a.question), EscapeHtml(shown), EscapeHtml(NoteOf(a.value)));
    } else {
      EscapedHasNoLt(ValueText(a.value));
      PlainItemMarkup(pt, EscapeHtml(a.question), EscapeHtml(ValueText(a.value)));
    }
  }

  /** User text cannot open a tag: an item holds exactly its template's `<` characters. */
  lemma ItemMarkupIsTemplate(a: Answer)
    ensures CountChar(AnswerItemHtml(a), '<') == TemplateMarkup(DATE_ITEM, PLAIN_ITEM, a)
  {
    RenderMarkup(DATE_ITEM, PLAIN_ITEM, a);
  }

  /** Two answers of the same shape carry the same markup, whatever their text. */
  lemma MarkupIndependentOfText(a: Answer, b: Answer)
    requires a.fieldType == b.fieldType
    requires a.fieldType == DateText ==> (NoteOf(a.value) == "" <==> NoteOf(b.value) == "")
    ensures CountChar(AnswerItemHtml(a), '<') == CountChar(AnswerItemHtml(b), '<')
  {
    RenderSameShape(DATE_ITEM, PLAIN_ITEM, a, b);
  }

  lemma RenderSameShape(dt: DateItemTemplate, pt: PlainItemTemplate, a: Answer, b: Answer)
    requires a.fieldType == b.fieldType
    requires a.fieldType == DateText ==> (NoteOf(a.value) == "" <==> NoteOf(b.value) == "")
    ensures CountChar(RenderItem(dt, pt, a), '<') == CountChar(RenderItem(dt, pt, b), '<')
  {
    RenderMarkup(dt, pt, a);
    RenderMarkup(dt, pt, b);
  }

  lemma NoteCloseIsATag()
    ensures CountChar(DATE_ITEM.noteClose, '<') >= 1
  {
    var close := DATE_ITEM.noteClose;
    assert close[0] == '<';
  }

  /** The note line appears only for a non-empty note: it adds its `<div>` and `<strong>` tags. */
  lemma NoteLineOnlyWithNote(a: Answer, b: Answer)
    requires a.fieldType == DateText && b.fieldType == DateText
    requires NoteOf(a.value) != "" && NoteOf(b.value) == ""
    ensures CountChar(AnswerItemHtml(a), '<') > CountChar(AnswerItemHtml(b), '<')
  {
    RenderMarkup(DATE_ITEM, PLAIN_ITEM, a);
    RenderMarkup(DATE_ITEM, PLAIN_ITEM, b);
    NoteCloseIsATag();
  }

  /** A missing date is rendered as `Не е посочена`. */
  lemma MissingDateRendersPlaceholder(q: string, required: bool, note: string)
    ensures AnswerItemHtml(Answer(q, DateText, required, Dated("", note)))
      == AnswerItemHtml(Answer(q, DateText, required, Dated("Не е посочена", note)))
  {
    assert DATE_ITEM.noDate == "Не е посочена";
  }

  /** An empty plain value is rendered as `-`. */
  lemma EmptyValueRendersDash(q: string, t: FieldType, required: bool)
    requires t != DateText
    ensures AnswerItemHtml(Answer(q, t, required, Plain(""))) == AnswerItemHtml(Answer(q, t, required, Plain("-")))
  {
  }

  lemma {:induction false} JoinEmptyAppend(xs: seq<string>, x: string)
    ensures Join(xs + [x], "") == Join(xs, "") + x
  {
    if |xs| == 1 {
      assert (xs + [x])[1..] == [x];
    } else if |xs| > 1 {
      assert (xs + [x])[1..] == xs[1..] + [x];
      JoinEmptyAppend(xs[1..], x);
    } else {
      assert xs + [x] == [x];
    }
  }

  lemma RenderItemsAppend(dt: DateItemTemplate, pt: PlainItemTemplate, answers: seq<Answer>, a: Answer)
    ensures RenderItems(dt, pt, answers + [a]) == RenderItems(dt, pt, answers) + RenderItem(dt, pt, a)
  {
    var items := seq(|answers|, i requires 0 <= i < |answers| => RenderItem(dt, pt, answers[i]));
    var all := answers + [a];
    var items2 := seq(|all|, i requires 0 <= i < |all| => RenderItem(dt, pt, all[i]));
    assert items2 == items + [RenderItem(dt, pt, a)];
    JoinEmptyAppend(items, RenderItem(dt, pt, a));
  }

  /** One item per answer, in order: appending an answer appends its item. */
  lemma AnswersHtmlAppend(answers: seq<Answer>, a: Answer)
    ensures AnswersHtml(answers + [a]) == AnswersHtml(answers) + AnswerItemHtml(a)
  {
    RenderItemsAppend(DATE_ITEM, PLAIN_ITEM, answers, a);
  }

  /** No answers, no list items. */
  lemma NoAnswersNoHtml()
    ensures AnswersHtml([]) == ""
  {
  }

  // ---------------------------------------------------------------------
  // The action

  /** The fields of the product record the action reads (found by id; `None` when not found). */
  datatype ProductRecord = ProductRecord(
    id: int, title: string, showInquiryForm: Option<bool>, inquiryFormFields: Option<seq<InquiryField>>)

  /**
   * What the action hands to the mailer: the recipient, the reply-to address,
   * the subject, the escaped values placed in the body, and the normalised
   * answers, whose list in the body is `AnswersHtml(answers)`.
   */
  datatype InquiryEmail = InquiryEmail(
    to: string, replyTo: string, subject: string,
    safeProductTitle: string, safeProductId: string, safeEmail: string, safePhone: string,
    safeAdditionalInfo: string, answers: seq<Answer>)

  function Email(input: Value): string { SafeString(Prop(input, "email")) }
  function Phone(input: Value): string { SafeString(Prop(input, "phone")) }
  function AdditionalInfo(input: Value): string { SafeString(Prop(input, "additionalInfo")) }

  /** The checks made before anything is looked up, in order; the first failing one gives the message. */
  function ContactError(input: Value): Option<string> {
    var email := Email(input);
    var phone := Phone(input);
    if !Truthy(Prop(input, "productId")) then Some(ERR_PRODUCT)
    else if email == "" || !IsEmail(email) then Some(ERR_EMAIL)
    else if phone == "" || !IsPhone(phone) then Some(ERR_PHONE)
    else if Prop(input, "consent") != Bool(true) then Some(ERR_CONSENT)
    else if Utf16Length(AdditionalInfo(input)) > MAX_ADDITIONAL_INFO then Some(ERR_INFO_TOO_LONG)
    else if !Prop(input, "answers").Arr? then Some(ERR_NO_ANSWERS)
    else None
  }

  /** `INQUIRY_EMAIL_TO || ADMIN_EMAIL`, absent when both are unset or empty. */
  function Recipient(inquiryTo: Option<string>, adminEmail: Option<string>): (to: Option<string>)
    ensures to.Some? <==> (inquiryTo.Some? && inquiryTo.value != "") || (adminEmail.Some? && adminEmail.value != "")
    ensures to.Some? ==> to.value != ""
  {
    if inquiryTo.Some? && inquiryTo.value != "" then inquiryTo
    else if adminEmail.Some? && adminEmail.value != "" then adminEmail
    else None
  }

  /** `safeString(product.title || input.productTitle || 'Продукт')`. */
  function SubjectTitle(input: Value, p: ProductRecord): string {
    var productTitle := Prop(input, "productTitle");
    SafeString(if p.title != "" then Str(p.title) else if Truthy(productTitle) then productTitle else Str("Продукт"))
  }

  function ComposeEmail(input: Value, p: ProductRecord, to: string, normalized: seq<Answer>): InquiryEmail {
    var title := SubjectTitle(input, p);
    var info := AdditionalInfo(input);
    InquiryEmail(
      to, Email(input), "Ново запитване за " + title,
      EscapeHtml(title), EscapeHtml(IntToString(p.id)), EscapeHtml(Email(input)), EscapeHtml(Phone(input)),
      EscapeHtml(if info != "" then info else "-"), normalized)
  }

  /** The answers the client sent (an array once the checks have passed). */
  function IncomingAnswers(input: Value): seq<Value> {
    var answers := Prop(input, "answers");
    if answers.Arr? then answers.elems else []
  }

  /** The outcome of the action: the e-mail it sends, or the message it returns. */
  function InquiryOutcome(input: Value, product: Option<ProductRecord>, inquiryTo: Option<string>, adminEmail: Option<string>)
    : Result<InquiryEmail, string>
  {
    var contact := ContactError(input);
    var to := Recipient(inquiryTo, adminEmail);
    if contact.Some? then Failure(contact.value)
    else if to.None? then Failure(ERR_NO_RECIPIENT)
    else if product.None? then Failure(ERR_PRODUCT_NOT_FOUND)
    else if product.value.showInquiryForm != Some(true) then Failure(ERR_FORM_INACTIVE)
    else
      var fields := product.value.inquiryFormFields.GetOr([]);
      var normalized := Collect(FieldResults(fields, IncomingAnswers(input)));
      if normalized.Failure? then Failure(normalized.error)
      else Success(ComposeEmail(input, product.value, to.value, normalized.value))
  }

  /** The early returns of the action before the recipient is read, in the order the source makes them. */
  method CheckContact(input: Value) returns (error: Option<string>)
    ensures error == ContactError(input)
  {
    var email := Email(input);
    var phone := Phone(input);
    var consent := Prop(input, "consent") == Bool(true);
    var additionalInfo := AdditionalInfo(input);

    if !Truthy(Prop(input, "productId")) {
      return Some(ERR_PRODUCT);
    }
    if email == "" || !IsEmail(email) {
      return Some(ERR_EMAIL);
    }
    if phone == "" || !IsPhone(phone) {
      return Some(ERR_PHONE);
    }
    if !consent {
      return Some(ERR_CONSENT);
    }
    if Utf16Length(additionalInfo) > MAX_ADDITIONAL_INFO {
      return Some(ERR_INFO_TOO_LONG);
    }
    if !Prop(input, "answers").Arr? {
      return Some(ERR_NO_ANSWERS);
    }
    return None;
  }

  /**
   * `sendProductInquiryEmailAction`: the checks, the recipient, the product
   * lookup and the loop over the configured questions, each returning early
   * with its message.
   */
  method SendProductInquiryEmail(
    input: Value, product: Option<ProductRecord>, inquiryTo: Option<string>, adminEmail: Option<string>)
    returns (r: Result<InquiryEmail, string>)
    ensures r == InquiryOutcome(input, product, inquiryTo, adminEmail)
  {
    var error := CheckContact(input);
    if error.Some? {
      return Failure(error.value);
    }
    var to := Recipient(inquiryTo, adminEmail);
    if to.None? {
      return Failure(ERR_NO_RECIPIENT);
    }
    if product.None? {
      return Failure(ERR_PRODUCT_NOT_FOUND);
    }
    var p := product.value;
    if p.showInquiryForm != Some(true) {
      return Failure(ERR_FORM_INACTIVE);
    }
    var configuredFields := p.inquiryFormFields.GetOr([]);
    var normalized := NormalizeAnswers(configuredFields, IncomingAnswers(input));
    if normalized.Failure? {
      return Failure(normalized.error);
    }
    r := Success(ComposeEmail(input, p, to.value, normalized.value));
  }

  /** The body of the loop for question `idx`: its normalised answer or the message returned. */
  method NormalizeOne(idx: nat, field: InquiryField, incomingAnswer: Value) returns (r: Result<Answer, string>)
    ensures r == NormalizeField(idx, field, incomingAnswer)
  {
    var question := QuestionTitle(idx, field);
    var required := IsRequired(field);

    if field.fieldType == DateText {
      var date := DatePart(incomingAnswer, "date");
      var text := DatePart(incomingAnswer, "text");
      if required && date == "" {
        return Failure(ERR_MISSING_DATE + question);
      }
      return Success(Answer(question, field.fieldType, required, Dated(date, text)));
    }

    var value := PlainInput(incomingAnswer);
    if required && value == "" {
      return Failure(ERR_MISSING_ANSWER + question);
    }
    if field.fieldType == Select && value != "" {
      var allowedValues := OptionValues(field);
      if value !in allowedValues {
        return Failure(ERR_INVALID_OPTION + question);
      }
    }
    return Success(Answer(question, field.fieldType, required, Plain(value)));
  }

  /** The loop of the action: one normalised answer pushed per configured question, or the first failure. */
  method NormalizeAnswers(configuredFields: seq<InquiryField>, answers: seq<Value>)
    returns (r: Result<seq<Answer>, string>)
    ensures r == Collect(FieldResults(configuredFields, answers))
  {
    ghost var rs := FieldResults(configuredFields, answers);
    var normalizedAnswers: seq<Answer> := [];
    for idx := 0 to |configuredFields|
      invariant Collect(rs[..idx]) == Success(normalizedAnswers)
    {
      assert rs[..idx + 1][..idx] == rs[..idx];
      var answer := NormalizeOne(idx, configuredFields[idx], Incoming(answers, idx));
      if answer.Failure? {
        FailureStays(rs, idx + 1);
        return Failure(answer.error);
      }
      normalizedAnswers := normalizedAnswers + [answer.value];
    }
    assert rs[..|configuredFields|] == rs;
    return Success(normalizedAnswers);
  }

  /**
   * The checks run in order and the first failure wins: each message is
   * returned exactly when every earlier check passed and its own failed.
   * The e-mail check is the regular expression's meaning.
   */
  lemma ContactChecksInOrder(input: Value)
    ensures ContactError(input) == Some(ERR_PRODUCT) <==> !Truthy(Prop(input, "productId"))
    ensures ContactError(input) == Some(ERR_EMAIL) <==>
      Truthy(Prop(input, "productId")) && !EmailPattern(Email(input))
    ensures ContactError(input) == Some(ERR_PHONE) <==>
      Truthy(Prop(input, "productId")) && EmailPattern(Email(input)) && !IsPhone(Phone(input))
    ensures ContactError(input) == Some(ERR_CONSENT) <==>
      Truthy(Prop(input, "productId")) && EmailPattern(Email(input)) && IsPhone(Phone(input))
      && Prop(input, "consent") != Bool(true)
    ensures ContactError(input) == Some(ERR_INFO_TOO_LONG) <==>
      Truthy(Prop(input, "productId")) && EmailPattern(Email(input)) && IsPhone(Phone(input))
      && Prop(input, "consent") == Bool(true) && Utf16Length(AdditionalInfo(input)) > 1000
    ensures ContactError(input) == None <==>
      Truthy(Prop(input, "productId")) && EmailPattern(Email(input)) && IsPhone(Phone(input))
      && Prop(input, "consent") == Bool(true) && Utf16Length(AdditionalInfo(input)) <= 1000
      && Prop(input, "answers").Arr?
  {
    IsEmailMatchesPattern(Email(input));
  }

  /** Additional information of exactly 1000 characters (no surrogate pairs) passes; 1001 is too long. */
  lemma AdditionalInfoBoundary(s: string)
    requires IsTrimmed(s) && InBmp(s)
    ensures Utf16Length(SafeString(Str(s))) <= MAX_ADDITIONAL_INFO <==> |s| <= 1000
  {
    TrimOfTrimmed(s);
    Utf16LengthOfBmp(s);
  }

  /**
   * The action succeeds exactly when the checks pass, a recipient is set, the
   * product exists with its form enabled, and every configured question
   * normalises; the e-mail then carries one answer per question, in order,
   * replies to the trimmed address, and goes to the configured recipient.
   */
  lemma InquirySucceeds(input: Value, product: Option<ProductRecord>, inquiryTo: Option<string>, adminEmail: Option<string>)
    ensures InquiryOutcome(input, product, inquiryTo, adminEmail).Success? <==>
      && ContactError(input).None?
      && Recipient(inquiryTo, adminEmail).Some?
      && product.Some? && product.value.showInquiryForm == Some(true)
      && var fields := product.value.inquiryFormFields.GetOr([]);
         forall i :: 0 <= i < |fields| ==> NormalizeField(i, fields[i], Incoming(IncomingAnswers(input), i)).Success?
    ensures InquiryOutcome(input, product, inquiryTo, adminEmail).Success? ==>
      var mail := InquiryOutcome(input, product, inquiryTo, adminEmail).value;
      var fields := product.value.inquiryFormFields.GetOr([]);
      && mail.to == Recipient(inquiryTo, adminEmail).value
      && mail.replyTo == Email(input) && IsEmail(mail.replyTo)
      && |mail.answers| == |fields|
      && forall i :: 0 <= i < |fields| ==>
           Success(mail.answers[i]) == NormalizeField(i, fields[i], Incoming(IncomingAnswers(input), i))
  {
    if ContactError(input).None? && Recipient(inquiryTo, adminEmail).Some? && product.Some? {
      OneAnswerPerField(product.value.inquiryFormFields.GetOr([]), IncomingAnswers(input));
    }
  }

  /** An input that fails a check is rejected before the recipient and the product are consulted. */
  lemma ChecksBeforeLookup(input: Value, product: Option<ProductRecord>, inquiryTo: Option<string>, adminEmail: Option<string>)
    requires ContactError(input).Some?
    ensures InquiryOutcome(input, product, inquiryTo, adminEmail) == Failure(ContactError(input).value)
    ensures InquiryOutcome(input, None, None, None) == InquiryOutcome(input, product, inquiryTo, adminEmail)
  {
  }
}
