/** The contact form's record shape and its validator `validateForm`.

    The form keeps two records of the same shape, `formData` (what the user typed) and
    `errors` (one message per field, "" meaning no error). `ValidateForm` computes the new
    `errors` from `formData` alone: each field is judged on its own and all three are always
    judged, so every invalid field is reported at once. */
module Validation {
  import opened Text
  import opened EmailRegex

  /** The three inputs, by their `name` attribute: `from_name`, `email`, `message`. */
  datatype Field = FromName | Email | Message

  /** A value per field; used both for `formData` and for `errors`. */
  datatype Fields = Fields(fromName: string, email: string, message: string) {

    function Get(f: Field): string {
      match f
      case FromName => fromName
      case Email => email
      case Message => message
    }

    /** `{ ...this, [f]: v }` */
    function Set(f: Field, v: string): (r: Fields)
      ensures r.Get(f) == v
      ensures forall g :: g != f ==> r.Get(g) == Get(g)
    {
      match f
      case FromName => this.(fromName := v)
      case Email => this.(email := v)
      case Message => this.(message := v)
    }
  }

  /** `{ from_name: '', email: '', message: '' }` */
  const Blank := Fields("", "", "")

  const NameRequired := "Name is required"
  const NameTooShort := "Name must be at least 2 characters"
  const EmailRequired := "Email is required"
  const EmailInvalid := "Please enter a valid email"
  const MessageRequired := "Message is required"
  const MessageTooShort := "Message must be at least 10 characters"

  const MinNameLength := 2
  const MinMessageLength := 10

  /** The rule shared by name and message: required after trimming, then a minimum trimmed length. */
  function LengthRule(v: string, min: nat, required: string, tooShort: string): (e: string)
    requires min > 0 && required != "" && tooShort != "" && required != tooShort
    ensures e == required <==> AllSpace(v)
    ensures e == tooShort <==> !AllSpace(v) && |Trim(v)| < min
    ensures e == "" <==> |Trim(v)| >= min
  {
    TrimEmptyIffAllSpace(v);
    var t := Trim(v);
    if t == [] then required
    else if |t| < min then tooShort
    else ""
  }

  /** The error shown under the name input. */
  function NameError(v: string): (e: string)
    ensures e == NameRequired <==> AllSpace(v)
    ensures e == NameTooShort <==> !AllSpace(v) && |Trim(v)| < MinNameLength
    ensures e == "" <==> |Trim(v)| >= MinNameLength
  {
    LengthRule(v, MinNameLength, NameRequired, NameTooShort)
  }

  /** The error shown under the message input. */
  function MessageError(v: string): (e: string)
    ensures e == MessageRequired <==> AllSpace(v)
    ensures e == MessageTooShort <==> !AllSpace(v) && |Trim(v)| < MinMessageLength
    ensures e == "" <==> |Trim(v)| >= MinMessageLength
  {
    LengthRule(v, MinMessageLength, MessageRequired, MessageTooShort)
  }

  /** The error shown under the email input. "Required" looks at the trimmed value, but the
      pattern is tested on the value as typed. */
  function EmailError(v: string): (e: string)
    ensures e == EmailRequired <==> AllSpace(v)
    ensures e == EmailInvalid <==> !AllSpace(v) && !Test(v)
    ensures e == "" <==> Test(v)
  {
    TrimEmptyIffAllSpace(v);
    if Trim(v) == [] then EmailRequired
    else if !Test(v) then EmailInvalid
    else ""
  }

  /** The error rule of one field. */
  function FieldError(f: Field, v: string): string {
    match f
    case FromName => NameError(v)
    case Email => EmailError(v)
    case Message => MessageError(v)
  }

  /** What `validateForm` computes: the record it hands to `setErrors`, and its return value. */
  datatype Verdict = Verdict(errors: Fields, isValid: bool)

  /** `validateForm()` on the current `formData`. As in the component, the flag `isValid` is
      cleared by every failing branch (a blank or short name, a blank or non-matching email, a
      blank or short message), independently of the error strings; the form is then valid exactly
      when no field has an error. What each field's error is, and what validity means for the
      typed values, are `ValidateFormErrors` and `ValidateFormValid`. */
  function ValidateForm(data: Fields): (r: Verdict)
    ensures r.isValid <==> r.errors == Blank
  {
    var name, email, message := Trim(data.fromName), Trim(data.email), Trim(data.message);
    var nameFails := name == [] || |name| < MinNameLength;
    var emailFails := email == [] || !Test(data.email);
    var messageFails := message == [] || |message| < MinMessageLength;
    var errors := Fields(NameError(data.fromName), EmailError(data.email), MessageError(data.message));
    Verdict(errors, !nameFails && !emailFails && !messageFails)
  }

  /** Every field is judged, each by its own rule, with no short-circuit: the error recorded for
      a field depends only on that field's value. */
  lemma ValidateFormErrors(data: Fields)
    ensures forall f :: ValidateForm(data).errors.Get(f) == FieldError(f, data.Get(f))
  {
  }

  /** The form is valid exactly when the trimmed name has at least 2 characters, the email as
      typed matches the pattern, and the trimmed message has at least 10 characters. */
  lemma ValidateFormValid(data: Fields)
    ensures ValidateForm(data).isValid <==>
      |Trim(data.fromName)| >= MinNameLength && Test(data.email) && |Trim(data.message)| >= MinMessageLength
  {
  }

  /** An email that is not blank but carries a space at either end is reported as invalid,
      not as missing. */
  lemma PaddedEmailInvalid(v: string)
    requires !AllSpace(v) && (IsSpace(v[0]) || IsSpace(v[|v| - 1]))
    ensures EmailError(v) == EmailInvalid
  {
    EdgeSpaceFails(v);
  }

  /** A valid form's email has no whitespace anywhere, exactly one '@', and a dotted domain. */
  lemma ValidEmailShape(data: Fields)
    requires ValidateForm(data).isValid
    ensures NoSpace(data.email)
    ensures Count(data.email, '@') == 1
    ensures LocalPart(data.email) != [] && HasInnerDot(DomainPart(data.email))
  {
    ValidateFormValid(data);
    TestShape(data.email);
  }

  /** Submitting the empty form reports every field as required. */
  lemma EmptyFormVerdict()
    ensures ValidateForm(Blank) == Verdict(Fields(NameRequired, EmailRequired, MessageRequired), false)
  {
  }

  /** A one-letter name, an email without '@' and a five-letter message each fail their own rule. */
  lemma ShortFormVerdict()
    ensures ValidateForm(Fields("A", "bad", "short")) == Verdict(Fields(NameTooShort, EmailInvalid, MessageTooShort), false)
  {
    assert "A"[0] == 'A' && !AllSpace("A");
    assert "bad"[0] == 'b' && !AllSpace("bad");
    assert "short"[0] == 's' && !AllSpace("short");
    assert NameError("A") == NameTooShort;
    assert IndexOf("bad", '@') == 3;
    assert EmailError("bad") == EmailInvalid;
    assert MessageError("short") == MessageTooShort;
  }
}
