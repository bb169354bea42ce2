/**
 * The before-validate hook of the product collection
 * (`collections/Product/hooks/ensureInquiryDefaults.ts`): when a product's
 * inquiry form is shown but has no questions, the incoming document is given
 * the default questions, in place.
 */
module EnsureInquiryDefaults {
  import opened Wrappers
  import opened InquiryDefaults

  /** The value stored under `inquiryFormFields`: nullish, some non-array value, or an array of questions. */
  datatype QuestionsValue = Absent | NotArray | List(questions: seq<InquiryField>)

  /** The stored document before the change (`originalDoc`); `None` on create. */
  datatype StoredDoc = StoredDoc(showInquiryForm: Option<bool>, inquiryFormFields: QuestionsValue)

  /**
   * The incoming product data the hook receives and may change. `None` in
   * `showInquiryForm` is a nullish checkbox; `others` stands for every other
   * field of the document, which the hook never touches.
   */
  class ProductData {
    var showInquiryForm: Option<bool>
    var inquiryFormFields: QuestionsValue
    var others: map<string, string>

    constructor (show: Option<bool>, fields: QuestionsValue, others: map<string, string>)
      ensures showInquiryForm == show && inquiryFormFields == fields && this.others == others
    {
      showInquiryForm := show;
      inquiryFormFields := fields;
      this.others := others;
    }
  }

  /** `data.showInquiryForm ?? originalDoc?.showInquiryForm`. */
  function EffectiveShow(show: Option<bool>, original: Option<StoredDoc>): (eff: Option<bool>)
    ensures show.Some? ==> eff == show
    ensures show.None? && original.None? ==> eff.None?
  {
    if show.Some? then show
    else if original.Some? then original.value.showInquiryForm
    else None
  }

  /** `data.inquiryFormFields ?? originalDoc?.inquiryFormFields`. */
  function EffectiveQuestions(fields: QuestionsValue, original: Option<StoredDoc>): (eff: QuestionsValue)
    ensures !fields.Absent? ==> eff == fields
  {
    if !fields.Absent? then fields
    else if original.Some? then original.value.inquiryFormFields
    else Absent
  }

  /** An array with at least one question. */
  predicate HasQuestions(v: QuestionsValue) {
    v.List? && |v.questions| > 0
  }

  /** The hook seeds exactly when the effective flag is truthy and the effective list is missing, not an array, or empty. */
  predicate ShouldSeed(show: Option<bool>, fields: QuestionsValue, original: Option<StoredDoc>) {
    EffectiveShow(show, original) == Some(true) && !HasQuestions(EffectiveQuestions(fields, original))
  }

  /** The value of `data.inquiryFormFields` after the hook. */
  function FieldsAfter(show: Option<bool>, fields: QuestionsValue, original: Option<StoredDoc>): QuestionsValue {
    if ShouldSeed(show, fields, original) then List(GetDefaultInquiryQuestions()) else fields
  }

  /** `ensureInquiryDefaults`: the same object comes back; only `inquiryFormFields` may change. */
  method EnsureInquiryDefaults(data: ProductData?, original: Option<StoredDoc>) returns (result: ProductData?)
    modifies data
    ensures result == data
    ensures data != null ==>
      data.inquiryFormFields == FieldsAfter(old(data.showInquiryForm), old(data.inquiryFormFields), original)
      && data.showInquiryForm == old(data.showInquiryForm)
      && data.others == old(data.others)
  {
    if data == null {
      return data;
    }
    var show := EffectiveShow(data.showInquiryForm, original);
    if show != Some(true) {
      return data;
    }
    var current := EffectiveQuestions(data.inquiryFormFields, original);
    if !current.List? || |current.questions| == 0 {
      data.inquiryFormFields := List(GetDefaultInquiryQuestions());
    }
    return data;
  }

  /** A shown form always has questions after the hook: the data's own, the stored ones, or the defaults. */
  lemma ShownFormHasQuestions(show: Option<bool>, fields: QuestionsValue, original: Option<StoredDoc>)
    requires EffectiveShow(show, original) == Some(true)
    ensures HasQuestions(EffectiveQuestions(FieldsAfter(show, fields, original), original))
  {
    DefaultsWellFormed();
  }

  /** When the hook seeds, the questions are the six defaults, field by field. */
  lemma SeedsDefaults(show: Option<bool>, fields: QuestionsValue, original: Option<StoredDoc>)
    requires ShouldSeed(show, fields, original)
    ensures FieldsAfter(show, fields, original) == List(DEFAULT_INQUIRY_QUESTIONS)
    ensures |FieldsAfter(show, fields, original).questions| == 6
  {
    DefaultsWellFormed();
  }

  /** An explicit `false` in the data wins over a stored `true`: nothing is seeded. */
  lemma ExplicitFalseWins(fields: QuestionsValue, original: Option<StoredDoc>)
    ensures FieldsAfter(Some(false), fields, original) == fields
  {
  }

  /** A hidden form (flag false or nullish in both places) leaves the questions as they are. */
  lemma HiddenFormUnchanged(show: Option<bool>, fields: QuestionsValue, original: Option<StoredDoc>)
    requires EffectiveShow(show, original) != Some(true)
    ensures FieldsAfter(show, fields, original) == fields
  {
  }

  /** Questions already in the data are kept, even an empty stored list does not override them. */
  lemma OwnQuestionsKept(show: Option<bool>, fields: QuestionsValue, original: Option<StoredDoc>)
    requires HasQuestions(fields)
    ensures FieldsAfter(show, fields, original) == fields
  {
  }

  /** Running the hook a second time changes nothing. */
  lemma Idempotent(show: Option<bool>, fields: QuestionsValue, original: Option<StoredDoc>)
    ensures FieldsAfter(show, FieldsAfter(show, fields, original), original) == FieldsAfter(show, fields, original)
  {
    if ShouldSeed(show, fields, original) {
      DefaultsWellFormed();
    }
  }
}
