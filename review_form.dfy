/**
 * The product review form: author and message length checks, the
 * mandatory terms and privacy consents, the star rating input and the
 * outcome of creating the review. `createReview` (an upload and a database
 * write) is outside the model; its `ok` flag is an input.
 */
module ReviewForm {
  import opened Wrappers
  import opened JsString

  const MIN_LENGTH: nat := 3
  const STAR_COUNT: nat := 5
  const INITIAL_RATING: nat := 5

  const MSG_AUTHOR_SHORT: string := "Името трябва да е поне 3 символа"
  const MSG_MESSAGE_SHORT: string := "Съобщението трябва да е поне 3 символа"
  const MSG_CONSENT_REQUIRED: string := "Трябва да се съгласите с задължителните условия, за потвърждаване на поръчката"
  const MSG_CREATE_FAILED: string := "Възникна грешка при изпращане на отзива"

  /** A submitted text field: a missing field reads as empty. */
  function FieldValue(field: Option<string>): string {
    match field
    case Some(s) => s
    case None => ""
  }

  /** An error message for a text shorter than three UTF-16 code units, or the empty text. */
  function LengthError(text: string, message: string): (e: string)
    requires message != ""
    ensures e != "" <==> Utf16Length(text) < MIN_LENGTH
    ensures e != "" ==> e == message
  {
    if Utf16Length(text) < MIN_LENGTH then message else ""
  }

  datatype FieldErrors = FieldErrors(author: string, message: string)

  const NO_FIELD_ERRORS := FieldErrors("", "")

  function CheckFields(author: string, message: string): (r: FieldErrors)
    ensures r.author != "" <==> Utf16Length(author) < MIN_LENGTH
    ensures r.message != "" <==> Utf16Length(message) < MIN_LENGTH
  {
    FieldErrors(LengthError(author, MSG_AUTHOR_SHORT), LengthError(message, MSG_MESSAGE_SHORT))
  }

  /** The review is created only with long enough texts and both mandatory consents; the third consent plays no part. */
  predicate MayCreate(author: string, message: string, acceptTerms: bool, acceptPrivacy: bool) {
    var errors := CheckFields(author, message);
    errors.author == "" && errors.message == "" && acceptTerms && acceptPrivacy
  }

  lemma MayCreateIff(author: string, message: string, acceptTerms: bool, acceptPrivacy: bool)
    ensures MayCreate(author, message, acceptTerms, acceptPrivacy) <==>
      Utf16Length(author) >= MIN_LENGTH && Utf16Length(message) >= MIN_LENGTH && acceptTerms && acceptPrivacy
  {
  }

  /** The length is counted in code units: a two-character name outside the Basic Multilingual Plane passes. */
  lemma TwoAstralCharactersPass()
    ensures MayCreate("\U{1F600}\U{1F600}", "Хубав", true, true)
  {
    assert Utf16Length("Хубав") >= |"Хубав"|;
  }

  /** Star `star` is coloured when it does not exceed the rating. */
  predicate IsColoured(star: nat, rating: nat) {
    star <= rating
  }

  /** The colouring of stars 1 to 5. */
  function StarRow(rating: nat): (row: seq<bool>)
    ensures |row| == STAR_COUNT
    ensures forall i :: 0 <= i < STAR_COUNT ==> row[i] == IsColoured(i + 1, rating)
  {
    seq(STAR_COUNT, i requires 0 <= i < STAR_COUNT => IsColoured(i + 1, rating))
  }

  function CountTrue(xs: seq<bool>): (n: nat)
    ensures n <= |xs|
  {
    if xs == [] then 0 else (if xs[0] then 1 else 0) + CountTrue(xs[1..])
  }

  /** The first `k` stars are coloured and the rest are not. */
  lemma {:induction false} CountLeadingTrue(xs: seq<bool>, k: nat)
    requires k <= |xs|
    requires forall i :: 0 <= i < |xs| ==> xs[i] == (i < k)
    ensures CountTrue(xs) == k
  {
    if xs != [] {
      forall i | 0 <= i < |xs[1..]| ensures xs[1..][i] == (i + 1 < k) {
        assert xs[1..][i] == xs[i + 1];
      }
      if k == 0 {
        CountLeadingTrue(xs[1..], 0);
      } else {
        CountLeadingTrue(xs[1..], k - 1);
      }
    }
  }

  /** Exactly `rating` stars are coloured. */
  lemma ColouredStars(rating: nat)
    requires 1 <= rating <= STAR_COUNT
    ensures CountTrue(StarRow(rating)) == rating
  {
    CountLeadingTrue(StarRow(rating), rating);
  }

  /** The form's state. */
  class Form {
    var acceptTerms: bool
    var acceptPrivacy: bool
    var acceptNextContacts: bool
    var rating: nat
    var error: string
    var errors: FieldErrors
    var isSuccess: bool

    constructor()
      ensures rating == INITIAL_RATING && error == "" && errors == NO_FIELD_ERRORS && !isSuccess
      ensures !acceptTerms && !acceptPrivacy && !acceptNextContacts
    {
      acceptTerms := false;
      acceptPrivacy := false;
      acceptNextContacts := false;
      rating := INITIAL_RATING;
      error := "";
      errors := NO_FIELD_ERRORS;
      isSuccess := false;
    }

    method ToggleTerms()
      modifies this`acceptTerms
      ensures acceptTerms == !old(acceptTerms)
    {
      acceptTerms := !acceptTerms;
    }

    method TogglePrivacy()
      modifies this`acceptPrivacy
      ensures acceptPrivacy == !old(acceptPrivacy)
    {
      acceptPrivacy := !acceptPrivacy;
    }

    method ToggleNextContacts()
      modifies this`acceptNextContacts
      ensures acceptNextContacts == !old(acceptNextContacts)
    {
      acceptNextContacts := !acceptNextContacts;
    }

    /** Choosing a star sets the rating to it. */
    method ChooseStar(star: nat)
      requires 1 <= star <= STAR_COUNT
      modifies this`rating
      ensures rating == star
    {
      rating := star;
    }

    /**
     * `submitHandler` up to the call of `createReview`: the general error is
     * cleared, then set when a mandatory consent is missing; the field
     * errors are shown only when the submission is refused (on acceptance
     * the previous ones stay as they were).
     */
    method Submit(authorField: Option<string>, messageField: Option<string>) returns (create: bool)
      modifies this`error, this`errors
      ensures create <==> MayCreate(FieldValue(authorField), FieldValue(messageField), acceptTerms, acceptPrivacy)
      ensures error == if acceptTerms && acceptPrivacy then "" else MSG_CONSENT_REQUIRED
      ensures errors == if create then old(errors) else CheckFields(FieldValue(authorField), FieldValue(messageField))
    {
      error := "";
      var author := FieldValue(authorField);
      var message := FieldValue(messageField);
      var authorError := LengthError(author, MSG_AUTHOR_SHORT);
      var messageError := LengthError(message, MSG_MESSAGE_SHORT);
      if !acceptTerms || !acceptPrivacy {
        error := MSG_CONSENT_REQUIRED;
      }
      if authorError != "" || messageError != "" || !acceptTerms || !acceptPrivacy {
        errors := FieldErrors(authorError, messageError);
        return false;
      }
      return true;
    }

    /** The outcome of `createReview`: success only with `ok`, otherwise the general error. */
    method Settle(ok: bool)
      modifies this`error, this`isSuccess
      ensures isSuccess == (old(isSuccess) || ok)
      ensures error == if ok then old(error) else MSG_CREATE_FAILED
    {
      if !ok {
        error := MSG_CREATE_FAILED;
        return;
      }
      isSuccess := true;
    }
  }
}
