/**
  The browser contact form: the five field values and the two error messages it keeps as state,
  updated by typing, by leaving a field, and by validating on submit. Its checks are weaker than
  the server's: only the email (required, then the pattern) and the phone (required, no format)
  are checked, and name and message are never validated.
 */
module ContactForm {
  import opened Wrappers
  import opened JsText
  import opened ContactPatterns
  import opened MailTypes
  import EmailRoute

  /** The fields the form's inputs report changes for. */
  datatype Field = NameField | EmailField | PhoneField | SubjectField | MessageField

  /** The `errors` state: one message per checked field, "" for none. */
  datatype FormErrors = FormErrors(email: string, phone: string)

  const NoErrors := FormErrors("", "")
  const EmptyForm := ContactData("", "", "", "", "")
  const EmailRequired := "Email is required"
  const EmailInvalid := "Please enter a valid email address"
  const PhoneRequired := "Phone is required"

  /** `formData[field]` */
  function Value(d: ContactData, f: Field): string
  {
    match f
    case NameField => d.name
    case EmailField => d.email
    case PhoneField => d.phone
    case SubjectField => d.subject
    case MessageField => d.message
  }

  /** `errors[field]`, "" (falsy) for a field the errors record has no entry for. */
  function ErrorOf(e: FormErrors, f: Field): string
  {
    match f
    case EmailField => e.email
    case PhoneField => e.phone
    case _ => ""
  }

  /** The errors `validateForm` computes from the form data. */
  function Validation(d: ContactData): (e: FormErrors)
    ensures e.email == EmailRequired <==> IsBlank(d.email)
    ensures e.email == EmailInvalid <==> !IsBlank(d.email) && !MatchesEmailPattern(d.email)
    ensures e.email == "" <==> !IsBlank(d.email) && MatchesEmailPattern(d.email)
    ensures e.phone == PhoneRequired <==> IsBlank(d.phone)
    ensures e.phone == "" <==> !IsBlank(d.phone)
  {
    FormErrors(
      if IsBlank(d.email) then EmailRequired else if !MatchesEmailPattern(d.email) then EmailInvalid else "",
      if IsBlank(d.phone) then PhoneRequired else "")
  }

  /** The errors after `handleBlur(field)` with the given form data. */
  function BlurredErrors(d: ContactData, e: FormErrors, f: Field): FormErrors
  {
    if f == EmailField && IsBlank(d.email) then e.(email := EmailRequired)
    else if f == EmailField && !MatchesEmailPattern(d.email) then e.(email := EmailInvalid)
    else if f == PhoneField && IsBlank(d.phone) then e.(phone := PhoneRequired)
    else e
  }

  /** `validateForm()`'s result: true exactly when both messages are empty. */
  predicate ClientValid(d: ContactData)
  {
    Validation(d) == NoErrors
  }

  class ContactFormState {
    var formData: ContactData
    var errors: FormErrors

    /** The initial state: every field empty and no messages. */
    constructor()
      ensures formData == EmptyForm && errors == NoErrors
    {
      formData := EmptyForm;
      errors := NoErrors;
    }

    /** `handleInputChange(field, value)`: the field takes the value, every other field keeps its
        value, and the field's message, if it had one, is cleared; the other message stays. */
    method HandleInputChange(field: Field, value: string)
      modifies this
      ensures forall g :: Value(formData, g) == if g == field then value else Value(old(formData), g)
      ensures forall g :: ErrorOf(errors, g) == if g == field then "" else ErrorOf(old(errors), g)
    {
      match field {
        case NameField => formData := formData.(name := value);
        case EmailField => formData := formData.(email := value);
        case PhoneField => formData := formData.(phone := value);
        case SubjectField => formData := formData.(subject := value);
        case MessageField => formData := formData.(message := value);
      }
      if ErrorOf(errors, field) != "" {
        if field == EmailField {
          errors := errors.(email := "");
        } else {
          errors := errors.(phone := "");
        }
      }
    }

    /** `handleBlur(field)`: the three checks, in the order written. */
    method HandleBlur(field: Field)
      modifies this
      ensures formData == old(formData)
      ensures errors == BlurredErrors(formData, old(errors), field)
    {
      if field == EmailField && !IsBlank(formData.email) {
        if !MatchesEmailPattern(formData.email) {
          errors := errors.(email := EmailInvalid);
        }
      }
      if field == PhoneField && IsBlank(formData.phone) {
        errors := errors.(phone := PhoneRequired);
      }
      if field == EmailField && IsBlank(formData.email) {
        errors := errors.(email := EmailRequired);
      }
    }

    /** `validateForm()`: the whole errors record is replaced by a freshly built one. */
    method ValidateForm() returns (valid: bool)
      modifies this
      ensures formData == old(formData)
      ensures errors == Validation(formData)
      ensures valid <==> ClientValid(formData)
    {
      var newErrors := NoErrors;
      if IsBlank(formData.email) {
        newErrors := newErrors.(email := EmailRequired);
      } else if !MatchesEmailPattern(formData.email) {
        newErrors := newErrors.(email := EmailInvalid);
      }
      if IsBlank(formData.phone) {
        newErrors := newErrors.(phone := PhoneRequired);
      }
      errors := newErrors;
      valid := newErrors.email == "" && newErrors.phone == "";
    }

    /** `handleSubmit`: validates; a valid form is only logged, nothing is sent. `submitted` is
        whether the logging branch runs. */
    method HandleSubmit() returns (submitted: bool)
      modifies this
      ensures formData == old(formData)
      ensures errors == Validation(formData)
      ensures submitted <==> ClientValid(formData)
    {
      submitted := ValidateForm();
    }
  }

  /** What the form accepts, in plain terms: a non-blank email matching the pattern and a
      non-blank phone; name, subject and message play no part. */
  lemma ClientValidIff(d: ContactData)
    ensures ClientValid(d) <==> !IsBlank(d.email) && MatchesEmailPattern(d.email) && !IsBlank(d.phone)
  {
  }

  /** Leaving the email field shows the message validation would show for it, when there is
      one, and otherwise keeps the message it had; the phone message is kept. */
  lemma BlurEmailAgreesWithValidation(d: ContactData, e: FormErrors)
    ensures Validation(d).email != "" ==> BlurredErrors(d, e, EmailField).email == Validation(d).email
    ensures Validation(d).email == "" ==> BlurredErrors(d, e, EmailField).email == e.email
    ensures BlurredErrors(d, e, EmailField).phone == e.phone
  {
    if IsBlank(d.email) {
      assert BlurredErrors(d, e, EmailField) == e.(email := EmailRequired);
    } else if !MatchesEmailPattern(d.email) {
      assert BlurredErrors(d, e, EmailField) == e.(email := EmailInvalid);
    } else {
      assert BlurredErrors(d, e, EmailField) == e;
    }
  }

  /** Leaving the phone field shows the message validation would show for it, when there is
      one, and otherwise keeps the message it had; the email message is kept. */
  lemma BlurPhoneAgreesWithValidation(d: ContactData, e: FormErrors)
    ensures Validation(d).phone != "" ==> BlurredErrors(d, e, PhoneField).phone == Validation(d).phone
    ensures Validation(d).phone == "" ==> BlurredErrors(d, e, PhoneField).phone == e.phone
    ensures BlurredErrors(d, e, PhoneField).email == e.email
  {
    if IsBlank(d.phone) {
      assert BlurredErrors(d, e, PhoneField) == e.(phone := PhoneRequired);
    } else {
      assert BlurredErrors(d, e, PhoneField) == e;
    }
  }

  /** Leaving any field but the email or the phone changes nothing. */
  lemma BlurOtherFieldUnchanged(d: ContactData, e: FormErrors, f: Field)
    requires f != EmailField && f != PhoneField
    ensures BlurredErrors(d, e, f) == e
  {
  }

  /** Blurring never clears a message: a field's message only goes away by typing or by
      validating. */
  lemma BlurKeepsMessages(d: ContactData, e: FormErrors, f: Field, g: Field)
    requires ErrorOf(e, g) != ""
    ensures ErrorOf(BlurredErrors(d, e, f), g) != ""
  {
  }

  /** Every submission the Express route accepts passes the form's checks. */
  lemma ServerAcceptedIsClientValid(d: ContactData)
    requires EmailRoute.ValidateEmailData(d).None?
    ensures ClientValid(d)
  {
    assert MatchesEmailPattern(d.email) && MatchesPhonePattern(RemoveWhitespace(d.phone));
    EmailMatchNotBlank(d.email);
    PhoneMatchNotBlank(d.phone);
    ClientValidIff(d);
  }

  /** The address both counterexamples use passes both checks' email pattern. */
  lemma SampleAddressMatches()
    ensures MatchesEmailPattern("a@b.c") && !IsBlank("a@b.c")
  {
    var email := "a@b.c";
    assert OnlyAtSignAt(email, 1);
    EmailShapeMatches(email, 1, 3);
    EmailMatchNotBlank(email);
  }

  /** A one-digit phone is not blank, and removing whitespace leaves it as it is. */
  lemma OneDigitPhone()
    ensures !IsBlank("1") && RemoveWhitespace("1") == "1"
  {
    assert TrimStart("1") == "1";
    assert RemoveWhitespace("1") == "1";
  }

  /** The converse fails: the form lets through a submission with no name, which the route
      reports as missing fields, ... */
  lemma ClientAcceptsMissingName(d: ContactData)
    requires d.name == "" && MatchesEmailPattern(d.email) && !IsBlank(d.phone)
    ensures ClientValid(d)
    ensures EmailRoute.ValidateEmailData(d) == Some(EmailRoute.MissingFields)
  {
    EmailMatchNotBlank(d.email);
    ClientValidIff(d);
  }

  /** ... and a phone with fewer than eight characters besides whitespace, which the route
      reports as badly formatted when the required fields are there. */
  lemma ClientAcceptsShortPhone(d: ContactData)
    requires !MissingRequired(d) && MatchesEmailPattern(d.email) && !IsBlank(d.phone)
    requires |RemoveWhitespace(d.phone)| < 8
    ensures EmailRoute.ValidateEmailData(d) == Some(EmailRoute.InvalidPhoneFormat)
    ensures ClientValid(d)
  {
    ShortPhoneRejected(d.phone);
    EmailMatchNotBlank(d.email);
    ClientValidIff(d);
  }

  /** Both cases occur: the address "a@b.c" and the phone "1" meet their conditions. */
  lemma ClientWeakerThanServer()
    ensures MatchesEmailPattern("a@b.c")
    ensures !IsBlank("1") && |RemoveWhitespace("1")| < 8
  {
    SampleAddressMatches();
    OneDigitPhone();
  }
}
