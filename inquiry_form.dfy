/**
 * The product-inquiry form on the client (`ProductInquiryFormModal.tsx`):
 * the error map `onSubmit` builds from the submitted form data, the answers
 * it collects, the component's `sending` / `error` / `fieldErrors` /
 * `isSubmitted` state, and `clearFieldError`. The server action's reply is
 * a parameter; rendering and the portal are not modelled.
 */
module InquiryForm {
  import opened Wrappers
  import opened JsString
  import opened JsNumber
  import opened JsValue
  import opened InquiryPatterns
  import opened InquiryDefaults
  import opened InquiryMail

  /**
   * The form's named controls, which also key `fieldErrors`: the contact
   * inputs, and for question `idx` the control `q_<idx>` or, for a date
   * question, the pair `q_<idx>_date` / `q_<idx>_text`.
   */
  datatype Control =
    | EmailInput
    | PhoneInput
    | ConsentInput
    | AdditionalInfoInput
    | QuestionInput(idx: nat)
    | QuestionDate(idx: nat)
    | QuestionText(idx: nat)

  /** The `name` attribute of a control. */
  function ControlName(c: Control): string {
    match c
    case EmailInput => "email"
    case PhoneInput => "phone"
    case ConsentInput => "consent"
    case AdditionalInfoInput => "additionalInfo"
    case QuestionInput(idx) => "q_" + NatToString(idx)
    case QuestionDate(idx) => "q_" + NatToString(idx) + "_date"
    case QuestionText(idx) => "q_" + NatToString(idx) + "_text"
  }

  /** The submitted `FormData`: the text of each control; a missing control has no entry. */
  type FormData = map<Control, string>

  /** `toStr(fd.get(name))`: the trimmed text, empty when the control is missing. */
  function FieldText(fd: FormData, c: Control): (s: string)
    ensures IsTrimmed(s)
  {
    Trim(if c in fd then fd[c] else "")
  }

  /** `field.title?.trim() || \`Въпрос ${idx + 1}\``. */
  function GetQuestionTitle(field: InquiryField, idx: nat): string {
    var title := Trim(field.title);
    if title != "" then title else "Въпрос " + NatToString(idx + 1)
  }

  /** The client and the server give a question the same title. */
  lemma SameQuestionTitle(field: InquiryField, idx: nat)
    ensures GetQuestionTitle(field, idx) == QuestionTitle(idx, field)
  {
  }

  const MSG_EMAIL: string := "Моля, въведете валиден имейл адрес."
  const MSG_PHONE_EMPTY: string := "Моля, въведете телефон."
  const MSG_PHONE_DIGITS: string := "Телефонът трябва да съдържа само цифри."
  const MSG_CONSENT: string := "Трябва да дадете съгласие за контакт."
  const MSG_INFO_TOO_LONG: string := "Допълнителната информация е твърде дълга (макс. 1000 символа)."
  const MSG_PICK_DATE: string := "Изберете дата за: "
  const MSG_FILL_IN: string := "Попълнете: "
  const MSG_INVALID_OPTION: string := "Невалидна опция за: "
  const MSG_FIX_FIELDS: string := "Моля, коригирайте отбелязаните полета."
  const MSG_SEND_FAILED: string := "Грешка при изпращане. Моля, опитайте отново."

  /** The answer collected for question `idx`, whether or not it has an error. */
  function ClientAnswer(idx: nat, field: InquiryField, fd: FormData): Answer {
    var question := GetQuestionTitle(field, idx);
    if field.fieldType == DateText then
      Answer(question, DateText, IsRequired(field), Dated(FieldText(fd, QuestionDate(idx)), FieldText(fd, QuestionText(idx))))
    else
      Answer(question, field.fieldType, IsRequired(field), Plain(FieldText(fd, QuestionInput(idx))))
  }

  /** One answer per configured question, in order. */
  function ClientAnswers(fields: seq<InquiryField>, fd: FormData): (answers: seq<Answer>)
    ensures |answers| == |fields|
    ensures forall i :: 0 <= i < |fields| ==> answers[i] == ClientAnswer(i, fields[i], fd)
  {
    seq(|fields|, i requires 0 <= i < |fields| => ClientAnswer(i, fields[i], fd))
  }

  /** The control under which question `idx`'s error is shown: the date input of a date question. */
  function QuestionControl(idx: nat, field: InquiryField): Control {
    if field.fieldType == DateText then QuestionDate(idx) else QuestionInput(idx)
  }

  /** The message question `idx` records, if any: a missing date, a missing answer, or an unknown option. */
  function FieldError(idx: nat, field: InquiryField, fd: FormData): Option<string> {
    var question := GetQuestionTitle(field, idx);
    if field.fieldType == DateText then
      if IsRequired(field) && FieldText(fd, QuestionDate(idx)) == "" then Some(MSG_PICK_DATE + question)
      else None
    else
      var value := FieldText(fd, QuestionInput(idx));
      if IsRequired(field) && value == "" then Some(MSG_FILL_IN + question)
      else if field.fieldType == Select && value != "" && value !in OptionValues(field) then
        Some(MSG_INVALID_OPTION + question)
      else None
  }

  function FormEmail(fd: FormData): string { FieldText(fd, EmailInput) }
  function FormPhone(fd: FormData): string { FieldText(fd, PhoneInput) }
  function FormConsent(fd: FormData): bool { ConsentInput in fd && fd[ConsentInput] == "on" }
  function FormAdditionalInfo(fd: FormData): string { FieldText(fd, AdditionalInfoInput) }

  /** The e-mail check: a missing or malformed address. */
  function WithEmailError(errors: map<Control, string>, fd: FormData): map<Control, string> {
    if FormEmail(fd) == "" || !IsEmail(FormEmail(fd)) then errors[EmailInput := MSG_EMAIL] else errors
  }

  /** The phone check: empty, or not only digits. */
  function WithPhoneError(errors: map<Control, string>, fd: FormData): map<Control, string> {
    if FormPhone(fd) == "" then errors[PhoneInput := MSG_PHONE_EMPTY]
    else if !IsPhone(FormPhone(fd)) then errors[PhoneInput := MSG_PHONE_DIGITS]
    else errors
  }

  /** The consent check: the box must be ticked. */
  function WithConsentError(errors: map<Control, string>, fd: FormData): map<Control, string> {
    if !FormConsent(fd) then errors[ConsentInput := MSG_CONSENT] else errors
  }

  /** The length check on the additional information, in UTF-16 code units. */
  function WithInfoError(errors: map<Control, string>, fd: FormData): map<Control, string> {
    if Utf16Length(FormAdditionalInfo(fd)) > MAX_ADDITIONAL_INFO then errors[AdditionalInfoInput := MSG_INFO_TOO_LONG] else errors
  }

  /** The errors of the contact fields, checked before the questions. */
  function ContactErrors(fd: FormData): map<Control, string> {
    WithInfoError(WithConsentError(WithPhoneError(WithEmailError(map[], fd), fd), fd), fd)
  }

  /** The control of each question's error, in order. */
  function Controls(fields: seq<InquiryField>): (cs: seq<Control>)
    ensures |cs| == |fields|
    ensures forall i :: 0 <= i < |fields| ==> cs[i] == QuestionControl(i, fields[i])
  {
    seq(|fields|, i requires 0 <= i < |fields| => QuestionControl(i, fields[i]))
  }

  /** The error of each question, in order. */
  function FieldErrors(fields: seq<InquiryField>, fd: FormData): (es: seq<Option<string>>)
    ensures |es| == |fields|
    ensures forall i :: 0 <= i < |fields| ==> es[i] == FieldError(i, fields[i], fd)
  {
    seq(|fields|, i requires 0 <= i < |fields| => FieldError(i, fields[i], fd))
  }

  /** `base` with the first `n` messages that are present recorded under their keys, later ones overwriting. */
  function Record<K, V>(base: map<K, V>, keys: seq<K>, msgs: seq<Option<V>>, n: nat): map<K, V>
    requires n <= |keys| && n <= |msgs|
  {
    if n == 0 then base
    else
      var prev := Record(base, keys, msgs, n - 1);
      if msgs[n - 1].Some? then prev[keys[n - 1] := msgs[n - 1].value] else prev
  }

  /** `nextErrors` after the contact checks and the first `n` questions. */
  function ErrorsUpTo(fields: seq<InquiryField>, fd: FormData, n: nat): map<Control, string>
    requires n <= |fields|
  {
    Record(ContactErrors(fd), Controls(fields), FieldErrors(fields, fd), n)
  }

  function FormErrors(fields: seq<InquiryField>, fd: FormData): map<Control, string> {
    ErrorsUpTo(fields, fd, |fields|)
  }

  /** `errors` with the error of question `idx` recorded, if it has one. */
  function WithFieldError(errors: map<Control, string>, idx: nat, field: InquiryField, fd: FormData): map<Control, string> {
    var e := FieldError(idx, field, fd);
    if e.Some? then errors[QuestionControl(idx, field) := e.value] else errors
  }

  /** The step of the question loop for a date question. */
  method CollectDate(idx: nat, field: InquiryField, fd: FormData, errors: map<Control, string>)
    returns (answer: Answer, nextErrors: map<Control, string>)
    requires field.fieldType == DateText
    ensures answer == ClientAnswer(idx, field, fd)
    ensures nextErrors == WithFieldError(errors, idx, field, fd)
  {
    nextErrors := errors;
    var question := GetQuestionTitle(field, idx);
    var required := IsRequired(field);
    var date := FieldText(fd, QuestionDate(idx));
    var text := FieldText(fd, QuestionText(idx));
    if required && date == "" {
      nextErrors := nextErrors[QuestionDate(idx) := MSG_PICK_DATE + question];
    }
    answer := Answer(question, field.fieldType, required, Dated(date, text));
  }

  /** The step of the question loop for a select or text question. */
  method CollectPlain(idx: nat, field: InquiryField, fd: FormData, errors: map<Control, string>)
    returns (answer: Answer, nextErrors: map<Control, string>)
    requires field.fieldType != DateText
    ensures answer == ClientAnswer(idx, field, fd)
    ensures nextErrors == WithFieldError(errors, idx, field, fd)
  {
    nextErrors := errors;
    var question := GetQuestionTitle(field, idx);
    var required := IsRequired(field);
    var value := FieldText(fd, QuestionInput(idx));
    if required && value == "" {
      nextErrors := nextErrors[QuestionInput(idx) := MSG_FILL_IN + question];
    }
    if field.fieldType == Select && value != "" {
      var allowedValues := OptionValues(field);
      if value !in allowedValues {
        nextErrors := nextErrors[QuestionInput(idx) := MSG_INVALID_OPTION + question];
      }
    }
    answer := Answer(question, field.fieldType, required, Plain(value));
  }

  /** Extending the answers of the first questions by the next one's answer. */
  lemma AppendAnswer(answers: seq<Answer>, answer: Answer, fields: seq<InquiryField>, fd: FormData)
    requires |answers| < |fields|
    requires forall j :: 0 <= j < |answers| ==> answers[j] == ClientAnswer(j, fields[j], fd)
    requires answer == ClientAnswer(|answers|, fields[|answers|], fd)
    ensures forall j :: 0 <= j < |answers| + 1 ==> (answers + [answer])[j] == ClientAnswer(j, fields[j], fd)
  {
  }

  /** Answers that agree with every question's answer are the collected answers. */
  lemma AllAnswers(answers: seq<Answer>, fields: seq<InquiryField>, fd: FormData)
    requires |answers| == |fields|
    requires forall j :: 0 <= j < |answers| ==> answers[j] == ClientAnswer(j, fields[j], fd)
    ensures answers == ClientAnswers(fields, fd)
  {
  }

  /** One pass of the question loop: a date question reads two controls, any other one. */
  method CollectOne(idx: nat, field: InquiryField, fd: FormData, errors: map<Control, string>)
    returns (answer: Answer, nextErrors: map<Control, string>)
    ensures answer == ClientAnswer(idx, field, fd)
    ensures nextErrors == WithFieldError(errors, idx, field, fd)
  {
    if field.fieldType == DateText {
      answer, nextErrors := CollectDate(idx, field, fd, errors);
    } else {
      answer, nextErrors := CollectPlain(idx, field, fd, errors);
    }
  }

  /** The validation and answer building of `onSubmit`. */
  method CollectAnswers(fields: seq<InquiryField>, fd: FormData)
    returns (answers: seq<Answer>, nextErrors: map<Control, string>)
    ensures answers == ClientAnswers(fields, fd)
    ensures nextErrors == FormErrors(fields, fd)
  {
    nextErrors := ContactErrors(fd);
    answers := [];
    for idx := 0 to |fields|
      invariant |answers| == idx
      invariant forall j :: 0 <= j < idx ==> answers[j] == ClientAnswer(j, fields[j], fd)
      invariant nextErrors == ErrorsUpTo(fields, fd, idx)
    {
      var answer;
      answer, nextErrors := CollectOne(idx, fields[idx], fd, nextErrors);
      AppendAnswer(answers, answer, fields, fd);
      answers := answers + [answer];
    }
    AllAnswers(answers, fields, fd);
  }

  /* Control names */

  lemma DropPrefix(p: string, x: string, y: string)
    requires p + x == p + y
    ensures x == y
  {
    assert x == (p + x)[|p|..];
    assert y == (p + y)[|p|..];
  }

  lemma DropSuffix(x: string, y: string, q: string)
    requires x + q == y + q
    ensures x == y
  {
    assert x == (x + q)[..|x|];
    assert y == (y + q)[..|y|];
  }

  /** Question controls' names start with `q`, the contact ones' do not; a question's own control ends in a digit, a date control's in `e`, a note control's in `t`. */
  lemma NameEnds(c: Control)
    ensures var name := ControlName(c);
      && |name| > 0
      && (name[0] == 'q' <==> c.QuestionInput? || c.QuestionDate? || c.QuestionText?)
      && (c.QuestionInput? ==> IsDigit(name[|name| - 1]))
      && (c.QuestionDate? ==> name[|name| - 1] == 'e')
      && (c.QuestionText? ==> name[|name| - 1] == 't')
  {
  }

  /** Different controls have different names, so keying the form by `Control` loses nothing. */
  lemma ControlNameInjective(a: Control, b: Control)
    requires ControlName(a) == ControlName(b)
    ensures a == b
  {
    NameEnds(a);
    NameEnds(b);
    match a
    case QuestionInput(i) =>
      match b {
      case QuestionInput(j) =>
        DropPrefix("q_", NatToString(i), NatToString(j));
        NatToStringInjective(i, j);
      case QuestionDate(j) =>
      case QuestionText(j) =>
      case _ =>
      }
    case QuestionDate(i) =>
      match b {
      case QuestionInput(j) =>
      case QuestionDate(j) =>
        DropSuffix("q_" + NatToString(i), "q_" + NatToString(j), "_date");
        DropPrefix("q_", NatToString(i), NatToString(j));
        NatToStringInjective(i, j);
      case QuestionText(j) =>
      case _ =>
      }
    case QuestionText(i) =>
      match b {
      case QuestionInput(j) =>
      case QuestionDate(j) =>
      case QuestionText(j) =>
        DropSuffix("q_" + NatToString(i), "q_" + NatToString(j), "_text");
        DropPrefix("q_", NatToString(i), NatToString(j));
        NatToStringInjective(i, j);
      case _ =>
      }
    case _ =>
  }

  /* The error map */

  /** The contact fields as the form accepts them. */
  predicate ContactValid(fd: FormData) {
    && FormEmail(fd) != "" && IsEmail(FormEmail(fd))
    && IsPhone(FormPhone(fd))
    && FormConsent(fd)
    && Utf16Length(FormAdditionalInfo(fd)) <= MAX_ADDITIONAL_INFO
  }

  /** Each contact control carries an error exactly when its check fails; an empty phone gets its own message. */
  lemma ContactErrorsIff(fd: FormData)
    ensures EmailInput in ContactErrors(fd) <==> !(FormEmail(fd) != "" && IsEmail(FormEmail(fd)))
    ensures PhoneInput in ContactErrors(fd) <==> !IsPhone(FormPhone(fd))
    ensures PhoneInput in ContactErrors(fd) ==>
      ContactErrors(fd)[PhoneInput] == (if FormPhone(fd) == "" then MSG_PHONE_EMPTY else MSG_PHONE_DIGITS)
    ensures ConsentInput in ContactErrors(fd) <==> !FormConsent(fd)
    ensures AdditionalInfoInput in ContactErrors(fd) <==> Utf16Length(FormAdditionalInfo(fd)) > MAX_ADDITIONAL_INFO
  {
  }

  /** The contact fields raise no error exactly when all four checks pass. */
  lemma ContactValidIff(fd: FormData)
    ensures ContactErrors(fd) == map[] <==> ContactValid(fd)
  {
    ContactErrorsIff(fd);
    ContactKeys(fd);
    if ContactValid(fd) {
      assert forall c :: c !in ContactErrors(fd);
    }
  }

  /** Nothing is recorded exactly when the base is empty and no message is present. */
  lemma {:induction false} RecordEmpty<K, V>(base: map<K, V>, keys: seq<K>, msgs: seq<Option<V>>, n: nat)
    requires n <= |keys| && n <= |msgs|
    ensures Record(base, keys, msgs, n) == map[] <==> base == map[] && forall i :: 0 <= i < n ==> msgs[i].None?
  {
    if n > 0 {
      RecordEmpty(base, keys, msgs, n - 1);
      if msgs[n - 1].Some? {
        assert keys[n - 1] in Record(base, keys, msgs, n);
      }
    }
  }

  /** With distinct keys outside the base, each present message ends up under its own key. */
  lemma {:induction false} RecordShown<K, V>(base: map<K, V>, keys: seq<K>, msgs: seq<Option<V>>, i: nat, n: nat)
    requires i < n <= |keys| && n <= |msgs|
    requires keys[i] !in base
    requires forall j :: 0 <= j < n && j != i ==> keys[j] != keys[i]
    ensures keys[i] in Record(base, keys, msgs, n) <==> msgs[i].Some?
    ensures msgs[i].Some? ==> Record(base, keys, msgs, n)[keys[i]] == msgs[i].value
  {
    if n == i + 1 {
      RecordAbsent(base, keys, msgs, keys[i], i);
    } else {
      RecordShown(base, keys, msgs, i, n - 1);
    }
  }

  /** A key outside the base and the first `n` keys is not recorded. */
  lemma {:induction false} RecordAbsent<K, V>(base: map<K, V>, keys: seq<K>, msgs: seq<Option<V>>, k: K, n: nat)
    requires n <= |keys| && n <= |msgs|
    requires k !in base
    requires forall j :: 0 <= j < n ==> keys[j] != k
    ensures k !in Record(base, keys, msgs, n)
  {
    if n > 0 {
      RecordAbsent(base, keys, msgs, k, n - 1);
    }
  }

  /** The form has no errors exactly when the contact fields pass and no question records an error. */
  lemma FormValidIff(fields: seq<InquiryField>, fd: FormData)
    ensures FormErrors(fields, fd) == map[] <==>
      ContactValid(fd) && forall i :: 0 <= i < |fields| ==> FieldError(i, fields[i], fd).None?
  {
    RecordEmpty(ContactErrors(fd), Controls(fields), FieldErrors(fields, fd), |fields|);
    ContactValidIff(fd);
  }

  /** Only the four contact controls can carry a contact error. */
  lemma ContactKeys(fd: FormData)
    ensures forall c :: c in ContactErrors(fd) ==> c in {EmailInput, PhoneInput, ConsentInput, AdditionalInfoInput}
  {
  }

  /** Every question's error is shown under its control once the form is checked. */
  lemma ErrorShown(fields: seq<InquiryField>, fd: FormData, i: nat)
    requires i < |fields|
    ensures var c := QuestionControl(i, fields[i]);
      (c in FormErrors(fields, fd) <==> FieldError(i, fields[i], fd).Some?)
      && (c in FormErrors(fields, fd) ==> FormErrors(fields, fd)[c] == FieldError(i, fields[i], fd).value)
  {
    ContactKeys(fd);
    RecordShown(ContactErrors(fd), Controls(fields), FieldErrors(fields, fd), i, |fields|);
  }

  /** A select question reports a missing answer or an unknown option, never both. */
  lemma SelectErrorExclusive(idx: nat, field: InquiryField, fd: FormData)
    requires field.fieldType == Select
    ensures FieldError(idx, field, fd) == Some(MSG_FILL_IN + GetQuestionTitle(field, idx)) <==>
      IsRequired(field) && FieldText(fd, QuestionInput(idx)) == ""
    ensures FieldError(idx, field, fd) == Some(MSG_INVALID_OPTION + GetQuestionTitle(field, idx)) <==>
      FieldText(fd, QuestionInput(idx)) != "" && FieldText(fd, QuestionInput(idx)) !in OptionValues(field)
  {
    var q := GetQuestionTitle(field, idx);
    assert (MSG_FILL_IN + q)[0] != (MSG_INVALID_OPTION + q)[0];
  }


  /* What the action receives */

  /** The argument of `sendProductInquiryEmailAction`. */
  datatype InquiryPayload = InquiryPayload(
    productId: string, productTitle: string, email: string, phone: string,
    consent: bool, additionalInfo: string, answers: seq<Answer>)

  function SubmittedPayload(fields: seq<InquiryField>, fd: FormData, productId: string, productTitle: string): InquiryPayload {
    InquiryPayload(productId, productTitle, FormEmail(fd), FormPhone(fd), FormConsent(fd), FormAdditionalInfo(fd), ClientAnswers(fields, fd))
  }

  /** The `type` of an answer as the CMS spells it. */
  function TypeName(t: FieldType): string {
    match t
    case Select => "select"
    case Text => "text"
    case DateText => "date_text"
  }

  /** An answer as the action receives it. */
  function AnswerValue(a: Answer): Value {
    Obj(map[
      "question" := Str(a.question),
      "type" := Str(TypeName(a.fieldType)),
      "required" := Bool(a.required),
      "value" := match a.value
        case Plain(text) => Str(text)
        case Dated(date, note) => Obj(map["date" := Str(date), "text" := Str(note)])])
  }

  /** The payload as the action receives it. */
  function PayloadValue(p: InquiryPayload): Value {
    Obj(map[
      "productId" := Str(p.productId),
      "productTitle" := Str(p.productTitle),
      "email" := Str(p.email),
      "phone" := Str(p.phone),
      "consent" := Bool(p.consent),
      "additionalInfo" := Str(p.additionalInfo),
      "answers" := Arr(seq(|p.answers|, i requires 0 <= i < |p.answers| => AnswerValue(p.answers[i])))])
  }

  /** Each property of the payload reads back what the form put there. */
  lemma PayloadProps(p: InquiryPayload)
    ensures var input := PayloadValue(p);
      && Prop(input, "productId") == Str(p.productId)
      && Prop(input, "email") == Str(p.email)
      && Prop(input, "phone") == Str(p.phone)
      && Prop(input, "consent") == Bool(p.consent)
      && Prop(input, "additionalInfo") == Str(p.additionalInfo)
      && Prop(input, "answers") == Arr(seq(|p.answers|, i requires 0 <= i < |p.answers| => AnswerValue(p.answers[i])))
  {
  }

  /** The server accepts a question's answer exactly when the form does, and keeps it as the form collected it. */
  lemma ServerAgreesOnQuestion(idx: nat, field: InquiryField, fd: FormData)
    ensures NormalizeField(idx, field, AnswerValue(ClientAnswer(idx, field, fd))).Success? <==> FieldError(idx, field, fd).None?
    ensures FieldError(idx, field, fd).None? ==>
      NormalizeField(idx, field, AnswerValue(ClientAnswer(idx, field, fd))) == Success(ClientAnswer(idx, field, fd))
  {
    SameQuestionTitle(field, idx);
    if field.fieldType == DateText {
      ServerReadsDate(idx, field, fd);
    } else {
      ServerReadsPlain(idx, field, fd);
    }
  }

  /** The server reads back the date and note the form sent. */
  lemma ServerReadsDate(idx: nat, field: InquiryField, fd: FormData)
    requires field.fieldType == DateText
    ensures var a := ClientAnswer(idx, field, fd);
      DatePart(AnswerValue(a), "date") == a.value.date && DatePart(AnswerValue(a), "text") == a.value.note
  {
    var a := ClientAnswer(idx, field, fd);
    var raw := Obj(map["date" := Str(a.value.date), "text" := Str(a.value.note)]);
    assert Prop(AnswerValue(a), "value") == raw;
    TrimOfTrimmed(a.value.date);
    TrimOfTrimmed(a.value.note);
  }

  /** The server reads back the plain value the form sent. */
  lemma ServerReadsPlain(idx: nat, field: InquiryField, fd: FormData)
    requires field.fieldType != DateText
    ensures var a := ClientAnswer(idx, field, fd);
      PlainInput(AnswerValue(a)) == a.value.text
  {
    var a := ClientAnswer(idx, field, fd);
    assert Prop(AnswerValue(a), "value") == Str(a.value.text);
    TrimOfTrimmed(a.value.text);
  }

  /** The server's contact checks pass exactly when the form's do (the product page always supplies an id). */
  lemma ServerAgreesOnContact(fields: seq<InquiryField>, fd: FormData, productId: string, productTitle: string)
    requires productId != ""
    ensures ContactError(PayloadValue(SubmittedPayload(fields, fd, productId, productTitle))).None? <==> ContactValid(fd)
  {
    var input := PayloadValue(SubmittedPayload(fields, fd, productId, productTitle));
    PayloadProps(SubmittedPayload(fields, fd, productId, productTitle));
    TrimOfTrimmed(FormEmail(fd));
    TrimOfTrimmed(FormPhone(fd));
    TrimOfTrimmed(FormAdditionalInfo(fd));
    assert InquiryMail.Email(input) == FormEmail(fd);
    assert InquiryMail.Phone(input) == FormPhone(fd);
    assert InquiryMail.AdditionalInfo(input) == FormAdditionalInfo(fd);
    ContactChecksInOrder(input);
    IsEmailMatchesPattern(FormEmail(fd));
  }

  /**
   * The form and the action apply the same rules: the form raises no error
   * exactly when the action's checks and its loop over the questions pass,
   * and then the action keeps the answers the form collected.
   */
  lemma ClientAndServerAgree(fields: seq<InquiryField>, fd: FormData, productId: string, productTitle: string)
    requires productId != ""
    ensures var input := PayloadValue(SubmittedPayload(fields, fd, productId, productTitle));
      FormErrors(fields, fd) == map[] <==>
        ContactError(input).None? && Collect(FieldResults(fields, IncomingAnswers(input))).Success?
    ensures var input := PayloadValue(SubmittedPayload(fields, fd, productId, productTitle));
      FormErrors(fields, fd) == map[] ==>
        Collect(FieldResults(fields, IncomingAnswers(input))) == Success(ClientAnswers(fields, fd))
  {
    var input := PayloadValue(SubmittedPayload(fields, fd, productId, productTitle));
    var answers := ClientAnswers(fields, fd);
    var incoming := IncomingAnswers(input);
    PayloadProps(SubmittedPayload(fields, fd, productId, productTitle));
    assert |incoming| == |fields|;
    forall i | 0 <= i < |fields|
      ensures Incoming(incoming, i) == AnswerValue(ClientAnswer(i, fields[i], fd))
    {
    }
    forall i | 0 <= i < |fields|
      ensures NormalizeField(i, fields[i], Incoming(incoming, i)).Success? <==> FieldError(i, fields[i], fd).None?
      ensures FieldError(i, fields[i], fd).None? ==>
        NormalizeField(i, fields[i], Incoming(incoming, i)) == Success(answers[i])
    {
      ServerAgreesOnQuestion(i, fields[i], fd);
    }
    FormValidIff(fields, fd);
    ServerAgreesOnContact(fields, fd, productId, productTitle);
    OneAnswerPerField(fields, incoming);
    if FormErrors(fields, fd) == map[] {
      var normalized := Collect(FieldResults(fields, incoming)).value;
      assert normalized == answers;
    }
  }

  /** A submission the form accepts is e-mailed with the form's answers once the product shows this form and a recipient is set. */
  lemma AcceptedSubmissionIsMailed(
    fields: seq<InquiryField>, fd: FormData, productId: string, productTitle: string,
    product: ProductRecord, inquiryTo: Option<string>, adminEmail: Option<string>)
    requires productId != "" && FormErrors(fields, fd) == map[]
    requires product.showInquiryForm == Some(true) && product.inquiryFormFields == Some(fields)
    requires Recipient(inquiryTo, adminEmail).Some?
    ensures var input := PayloadValue(SubmittedPayload(fields, fd, productId, productTitle));
      InquiryOutcome(input, Some(product), inquiryTo, adminEmail)
        == Success(ComposeEmail(input, product, Recipient(inquiryTo, adminEmail).value, ClientAnswers(fields, fd)))
  {
    ClientAndServerAgree(fields, fd, productId, productTitle);
  }

  /* The component's state */

  /** How the awaited action call ended: `{ ok: true }`, `{ ok: false, error }`, or a thrown error. */
  datatype SendReply = Delivered | Refused(message: string) | Threw

  /** The state the modal renders from. */
  datatype FormView = FormView(sending: bool, error: string, fieldErrors: map<Control, string>, isSubmitted: bool)

  /** The initial state, and the one the modal returns to whenever it is closed. */
  const CLOSED_VIEW: FormView := FormView(false, "", map[], false)

  /** `onSubmit` up to the awaited call: ignored while sending; otherwise the errors, or the call under way. */
  function AfterSubmit(v: FormView, fields: seq<InquiryField>, fd: FormData): FormView {
    if v.sending then v
    else if FormErrors(fields, fd) != map[] then FormView(false, MSG_FIX_FIELDS, FormErrors(fields, fd), false)
    else FormView(true, "", map[], false)
  }

  /** The rest of `onSubmit` once the call has settled. */
  function AfterReply(v: FormView, reply: SendReply): FormView {
    match reply
    case Delivered => FormView(false, "", map[], true)
    case Refused(message) => FormView(false, if message != "" then message else MSG_SEND_FAILED, v.fieldErrors, v.isSubmitted)
    case Threw => FormView(false, MSG_SEND_FAILED, v.fieldErrors, v.isSubmitted)
  }

  /** `clearFieldError`: drops the error of one control, leaving the map as it was when there is none. */
  function WithoutError(errors: map<Control, string>, c: Control): map<Control, string> {
    if c in errors && errors[c] != "" then errors - {c} else errors
  }

  /** Clearing one control's error touches no other control, and clearing twice is clearing once. */
  lemma ClearFieldErrorOnlyThatControl(errors: map<Control, string>, c: Control)
    ensures forall k :: k != c ==> (k in WithoutError(errors, c) <==> k in errors)
    ensures forall k :: k != c && k in errors ==> WithoutError(errors, c)[k] == errors[k]
    ensures c in WithoutError(errors, c) <==> c in errors && errors[c] == ""
    ensures WithoutError(WithoutError(errors, c), c) == WithoutError(errors, c)
  {
  }

  /** A second submit while the first call is under way changes nothing and sends nothing. */
  lemma SubmitIgnoredWhileSending(v: FormView, fields: seq<InquiryField>, fd: FormData)
    requires v.sending
    ensures AfterSubmit(v, fields, fd) == v
  {
  }

  /**
   * A submit calls the action exactly when the form raises no error, and
   * then the action's checks pass; otherwise every question's error is shown
   * under its control with the general message above the form.
   */
  lemma SubmitSendsOnlyValidForms(v: FormView, fields: seq<InquiryField>, fd: FormData, productId: string, productTitle: string)
    requires !v.sending && productId != ""
    ensures AfterSubmit(v, fields, fd).sending <==> FormErrors(fields, fd) == map[]
    ensures AfterSubmit(v, fields, fd).sending ==>
      ContactError(PayloadValue(SubmittedPayload(fields, fd, productId, productTitle))).None?
    ensures !AfterSubmit(v, fields, fd).sending ==>
      && AfterSubmit(v, fields, fd).error == MSG_FIX_FIELDS
      && !AfterSubmit(v, fields, fd).isSubmitted
      && forall i :: 0 <= i < |fields| && FieldError(i, fields[i], fd).Some? ==>
           && QuestionControl(i, fields[i]) in AfterSubmit(v, fields, fd).fieldErrors
           && AfterSubmit(v, fields, fd).fieldErrors[QuestionControl(i, fields[i])] == FieldError(i, fields[i], fd).value
  {
    ClientAndServerAgree(fields, fd, productId, productTitle);
    forall i | 0 <= i < |fields| && FieldError(i, fields[i], fd).Some?
      ensures QuestionControl(i, fields[i]) in FormErrors(fields, fd)
      ensures FormErrors(fields, fd)[QuestionControl(i, fields[i])] == FieldError(i, fields[i], fd).value
    {
      ErrorShown(fields, fd, i);
    }
  }

  /**
   * After a valid submit settles, the modal shows the thank-you state exactly
   * when the action delivered, and otherwise a non-empty error; no field
   * error is left and the form can be submitted again.
   */
  lemma SubmitThenReply(v: FormView, fields: seq<InquiryField>, fd: FormData, reply: SendReply)
    requires !v.sending && FormErrors(fields, fd) == map[]
    ensures var w := AfterReply(AfterSubmit(v, fields, fd), reply);
      && !w.sending
      && w.fieldErrors == map[]
      && (w.isSubmitted <==> reply == Delivered)
      && (w.error == "" <==> w.isSubmitted)
      && (reply.Refused? && reply.message != "" ==> w.error == reply.message)
  {
  }
  /**
   * Closing the modal while the call is under way resets it, but the reply
   * still lands afterwards: whatever it is, the modal no longer is in its
   * closed state, and on reopening it shows the thank-you message or the
   * send error.
   */
  lemma ReplyAfterCloseOutlivesIt(reply: SendReply)
    ensures var w := AfterReply(CLOSED_VIEW, reply);
      && w != CLOSED_VIEW
      && (w.isSubmitted <==> reply == Delivered)
      && (w.error != "" <==> reply != Delivered)
  {
    assert MSG_SEND_FAILED != "";
  }


  /** The modal's state. */
  class InquiryFormModal {
    var sending: bool
    var error: string
    var fieldErrors: map<Control, string>
    var isSubmitted: bool

    function View(): FormView
      reads this
    {
      FormView(sending, error, fieldErrors, isSubmitted)
    }

    constructor()
      ensures View() == CLOSED_VIEW
    {
      sending := false;
      error := "";
      fieldErrors := map[];
      isSubmitted := false;
    }

    /** The effect that runs when `open` turns false. */
    method OnClosed()
      modifies this
      ensures View() == CLOSED_VIEW
    {
      sending := false;
      error := "";
      fieldErrors := map[];
      isSubmitted := false;
    }

    method ClearFieldError(c: Control)
      modifies this`fieldErrors
      ensures fieldErrors == WithoutError(old(fieldErrors), c)
    {
      if !(c in fieldErrors && fieldErrors[c] != "") {
        return;
      }
      fieldErrors := fieldErrors - {c};
    }

    /** `onSubmit` up to the call: returns the payload handed to the action, if it is called. */
    method Submit(fields: seq<InquiryField>, fd: FormData, productId: string, productTitle: string)
      returns (sent: Option<InquiryPayload>)
      modifies this
      ensures View() == AfterSubmit(old(View()), fields, fd)
      ensures sent.Some? <==> !old(sending) && FormErrors(fields, fd) == map[]
      ensures sent.Some? ==> sent.value == SubmittedPayload(fields, fd, productId, productTitle)
    {
      if sending {
        return None;
      }
      error := "";
      fieldErrors := map[];
      isSubmitted := false;

      var answers, nextErrors := CollectAnswers(fields, fd);
      if |nextErrors| > 0 {
        fieldErrors := nextErrors;
        error := MSG_FIX_FIELDS;
        return None;
      }

      sending := true;
      sent := Some(InquiryPayload(productId, productTitle, FormEmail(fd), FormPhone(fd), FormConsent(fd), FormAdditionalInfo(fd), answers));
    }

    /** The rest of `onSubmit` once the awaited call has settled, including its `finally`. */
    method Settle(reply: SendReply)
      modifies this
      ensures View() == AfterReply(old(View()), reply)
    {
      match reply {
        case Delivered =>
          fieldErrors := map[];
          error := "";
          isSubmitted := true;
        case Refused(message) =>
          error := if message != "" then message else MSG_SEND_FAILED;
        case Threw =>
          error := MSG_SEND_FAILED;
      }
      sending := false;
    }
  }
}
