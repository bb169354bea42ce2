/**
 * The configurable questions of a product's inquiry form and the six default
 * questions a product starts with (`collections/Product/hooks/inquiryDefaults.ts`).
 */
module InquiryDefaults {
  import opened Wrappers

  datatype FieldType = Select | Text | DateText

  datatype SelectOption = SelectOption(labelText: string, value: string)

  /** One configured question (`inquiryFormFields[i]`); `required` is a nullable checkbox. */
  datatype InquiryField = InquiryField(
    title: string,
    fieldType: FieldType,
    required: Option<bool>,
    placeholder: Option<string>,
    options: Option<seq<SelectOption>>)

  /** `Boolean(field.required)`. */
  predicate IsRequired(f: InquiryField) {
    f.required == Some(true)
  }

  /** The values a select question accepts: `(field.options ?? []).map((o) => o.value)`. */
  function OptionValues(f: InquiryField): (values: set<string>)
    ensures f.options.Some? ==> forall i :: 0 <= i < |f.options.value| ==> f.options.value[i].value in values
    ensures f.options.None? ==> values == {}
  {
    var opts := f.options.GetOr([]);
    set i | 0 <= i < |opts| :: opts[i].value
  }

  const DEFAULT_INQUIRY_QUESTIONS: seq<InquiryField> := [
    InquiryField("За какъв повод е изненадата?", Select, Some(true), None, Some([
      SelectOption("Рожден ден", "birthday"),
      SelectOption("Годишнина", "anniversary"),
      SelectOption("Предложение за брак", "proposal"),
      SelectOption("Извинение", "apology"),
      SelectOption("Просто „обичам те“", "love"),
      SelectOption("Друго", "other")])),
    InquiryField("В кой град ще се случи изненадата?", Text, Some(true),
      Some("София, Пловдив, Варна..."), None),
    InquiryField("За коя дата (и приблизителен час)?", DateText, Some(true),
      Some("Ако не е фиксирано – напиши „гъвкаво“"), None),
    InquiryField("За кого е изненадата?", Text, Some(true),
      Some("Жена / мъж / възраст (по желание)"), None),
    InquiryField("Къде предпочитате да се случи изненадата?", Select, Some(true), None, Some([
      SelectOption("В дома (апартамент / къща)", "home"),
      SelectOption("В ресторант", "restaurant"),
      SelectOption("В хотел", "hotel"),
      SelectOption("На открито (парк, плаж, панорама и др.)", "outdoor"),
      SelectOption("Изненада на работното място", "workplace"),
      SelectOption("Все още не съм решил/а – очаквам предложение", "need_suggestion"),
      SelectOption("Друго (ще опиша)", "other")])),
    InquiryField("Имаш ли ориентировъчен бюджет? (по избор)", Select, Some(false), None, Some([
      SelectOption("До 100 лв", "up_to_100"),
      SelectOption("100 – 200 лв", "100_200"),
      SelectOption("200 – 400 лв", "200_400"),
      SelectOption("Над 400 лв", "over_400"),
      SelectOption("Не знам / искам предложение", "unknown")]))
  ]

  /**
   * `{ ...question, options: question.options?.map((o) => ({ ...o })) }`:
   * as a value the copy equals the question, and absent options stay absent.
   */
  function CopyQuestion(q: InquiryField): (copy: InquiryField)
    ensures copy == q
  {
    var options := if q.options.Some?
      then Some(seq(|q.options.value|, i requires 0 <= i < |q.options.value| =>
        SelectOption(q.options.value[i].labelText, q.options.value[i].value)))
      else None;
    assert q.options.Some? ==> options.value == q.options.value;
    InquiryField(q.title, q.fieldType, q.required, q.placeholder, options)
  }

  /** `getDefaultInquiryQuestions`: a copy of every default, in order, equal to it field by field. */
  function GetDefaultInquiryQuestions(): (qs: seq<InquiryField>)
    ensures qs == DEFAULT_INQUIRY_QUESTIONS
  {
    var d := DEFAULT_INQUIRY_QUESTIONS;
    seq(|d|, i requires 0 <= i < |d| => CopyQuestion(d[i]))
  }

  /** The option values of a select are distinct. */
  predicate DistinctValues(opts: seq<SelectOption>) {
    forall i, j :: 0 <= i < j < |opts| ==> opts[i].value != opts[j].value
  }

  /** Six defaults; every select has options with distinct values; only the budget question is optional. */
  lemma DefaultsWellFormed()
    ensures |DEFAULT_INQUIRY_QUESTIONS| == 6
    ensures forall i :: 0 <= i < 6 && DEFAULT_INQUIRY_QUESTIONS[i].fieldType == Select ==>
      DEFAULT_INQUIRY_QUESTIONS[i].options.Some?
      && |DEFAULT_INQUIRY_QUESTIONS[i].options.value| > 0
      && DistinctValues(DEFAULT_INQUIRY_QUESTIONS[i].options.value)
    ensures forall i :: 0 <= i < 6 ==> (IsRequired(DEFAULT_INQUIRY_QUESTIONS[i]) <==> i != 5)
    ensures forall i :: 0 <= i < 6 && DEFAULT_INQUIRY_QUESTIONS[i].fieldType != Select ==>
      DEFAULT_INQUIRY_QUESTIONS[i].options.None?
  {
  }
}
