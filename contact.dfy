/**
 * The contact form of components/Contact.tsx: the client-side validator
 * (`validateForm`) and the small state machine driven by `handleSubmit`
 * and `handleChange`. The network call is replaced by its outcome.
 */
module Contact {
  import opened Wrappers

  // ---------------------------------------------------------------------
  // Whitespace and trimming
  // ---------------------------------------------------------------------

  /** The ECMAScript WhiteSpace and LineTerminator characters: the set that
      both `String.prototype.trim` and the regular-expression class `\s` use. */
  predicate IsWhitespace(c: char) {
    || c == '\t' || c == '\n' || c == '\U{000B}' || c == '\U{000C}' || c == '\r'
    || c == ' ' || c == '\U{00A0}' || c == '\U{1680}'
    || ('\U{2000}' <= c <= '\U{200A}')
    || c == '\U{2028}' || c == '\U{2029}' || c == '\U{202F}' || c == '\U{205F}'
    || c == '\U{3000}' || c == '\U{FEFF}'
  }

  predicate AllWhitespace(s: string) {
    forall i | 0 <= i < |s| :: IsWhitespace(s[i])
  }

  /** The number of whitespace characters `s` starts with. */
  function LeadingBlanks(s: string): (n: nat)
    ensures n <= |s|
    ensures forall i | 0 <= i < n :: IsWhitespace(s[i])
    ensures n < |s| ==> !IsWhitespace(s[n])
  {
    if |s| > 0 && IsWhitespace(s[0]) then 1 + LeadingBlanks(s[1..]) else 0
  }

  /** The number of whitespace characters `s` ends with. */
  function TrailingBlanks(s: string): (n: nat)
    ensures n <= |s|
    ensures forall i | |s| - n <= i < |s| :: IsWhitespace(s[i])
    ensures n < |s| ==> !IsWhitespace(s[|s| - 1 - n])
  {
    if |s| > 0 && IsWhitespace(s[|s| - 1]) then 1 + TrailingBlanks(s[..|s| - 1]) else 0
  }

  /** `s.trim()`: empty exactly when `s` is all whitespace; otherwise it
      starts and ends with a non-whitespace character. */
  function Trim(s: string): (r: string)
    ensures |r| <= |s|
    ensures r == [] <==> AllWhitespace(s)
    ensures !AllWhitespace(s) ==>
              LeadingBlanks(s) <= |s| - TrailingBlanks(s)
              && r == s[LeadingBlanks(s)..|s| - TrailingBlanks(s)]
    ensures r != [] ==> !IsWhitespace(r[0]) && !IsWhitespace(r[|r| - 1])
  {
    var t := s[LeadingBlanks(s)..];
    t[..|t| - TrailingBlanks(t)]
  }

  /** Trimming twice is trimming once. */
  lemma TrimIdempotent(s: string)
    ensures Trim(Trim(s)) == Trim(s)
  {
  }

  // ---------------------------------------------------------------------
  // The e-mail shape ^[^\s@]+@[^\s@]+\.[^\s@]+$
  // ---------------------------------------------------------------------

  /** A character of the class [^\s@]. */
  predicate IsPartChar(c: char) {
    !IsWhitespace(c) && c != '@'
  }

  /** A match of [^\s@]+. */
  predicate IsPart(s: string) {
    |s| > 0 && forall i | 0 <= i < |s| :: IsPartChar(s[i])
  }

  /** What the regular expression accepts: `local@d1.d2` with three
      non-empty parts free of whitespace and '@' (d1 and d2 may contain dots). */
  ghost predicate MatchesEmailPattern(s: string) {
    exists local, d1, d2 :: IsPart(local) && IsPart(d1) && IsPart(d2) && s == Address(local, d1, d2)
  }

  /** The text `local@d1.d2`. */
  function Address(local: string, d1: string, d2: string): string {
    local + ['@'] + d1 + ['.'] + d2
  }

  /** `d` splits at some '.' into two parts. */
  predicate HasDottedDomain(d: string) {
    exists j | 0 < j < |d| :: d[j] == '.' && IsPart(d[..j]) && IsPart(d[j + 1..])
  }

  /** The executable test: some '@' splits `s` into a part and a dotted domain. */
  predicate IsEmailShaped(s: string) {
    exists i | 0 < i < |s| :: s[i] == '@' && IsPart(s[..i]) && HasDottedDomain(s[i + 1..])
  }

  /** Every split the executable test finds is a match of the pattern. */
  lemma ShapedEmailMatches(s: string)
    requires IsEmailShaped(s)
    ensures MatchesEmailPattern(s)
  {
    var i :| 0 < i < |s| && s[i] == '@' && IsPart(s[..i]) && HasDottedDomain(s[i + 1..]);
    var d := s[i + 1..];
    var j :| 0 < j < |d| && d[j] == '.' && IsPart(d[..j]) && IsPart(d[j + 1..]);
    var local, d1, d2 := s[..i], d[..j], d[j + 1..];
    SplitAddress(s, i, j);
    assert IsPart(local) && IsPart(d1) && IsPart(d2) && s == Address(local, d1, d2);
  }

  /** Cutting at an '@' and then at a later '.' gives back the address. */
  lemma SplitAddress(s: string, i: nat, j: nat)
    requires i < |s| && s[i] == '@'
    requires j < |s[i + 1..]| && s[i + 1..][j] == '.'
    ensures s == Address(s[..i], s[i + 1..][..j], s[i + 1..][j + 1..])
  {
  }

  /** Every match of the pattern is found by the executable test. */
  lemma MatchingEmailIsShaped(s: string)
    requires MatchesEmailPattern(s)
    ensures IsEmailShaped(s)
  {
    var local, d1, d2 :| IsPart(local) && IsPart(d1) && IsPart(d2) && s == Address(local, d1, d2);
    var i := |local|;
    var d := s[i + 1..];
    assert s[..i] == local;
    assert s[i] == '@';
    assert d == d1 + ['.'] + d2;
    assert d[..|d1|] == d1 && d[|d1| + 1..] == d2;
    assert d[|d1|] == '.';
    assert HasDottedDomain(d);
  }

  /** The executable test decides exactly the regular expression's language. */
  lemma EmailShapeMatchesPattern(s: string)
    ensures IsEmailShaped(s) <==> MatchesEmailPattern(s)
  {
    if IsEmailShaped(s) {
      ShapedEmailMatches(s);
    }
    if MatchesEmailPattern(s) {
      MatchingEmailIsShaped(s);
    }
  }

  /** Every character of a matching address is outside \s, so an address
      with a leading or trailing blank never matches. */
  lemma PatternExcludesWhitespace(s: string)
    requires MatchesEmailPattern(s)
    ensures |s| >= 5
    ensures forall k | 0 <= k < |s| :: !IsWhitespace(s[k])
  {
  }

  /** A matching address is never blank. */
  lemma PatternIsNotBlank(s: string)
    ensures MatchesEmailPattern(s) ==> !AllWhitespace(s)
  {
    if MatchesEmailPattern(s) {
      PatternExcludesWhitespace(s);
      assert !IsWhitespace(s[0]);
    }
  }

  // ---------------------------------------------------------------------
  // Form data, errors and validation
  // ---------------------------------------------------------------------

  /** The three inputs of the form, by their `name` attribute. */
  datatype Field = Name | Email | Message

  datatype FormData = FormData(name: string, email: string, message: string) {
    function Get(f: Field): string {
      match f
      case Name => name
      case Email => email
      case Message => message
    }

    /** `{ ...prev, [f]: v }`: the named field takes `v`, the others keep theirs. */
    function With(f: Field, v: string): (r: FormData)
      ensures r.Get(f) == v
      ensures forall g: Field | g != f :: r.Get(g) == Get(g)
    {
      match f
      case Name => this.(name := v)
      case Email => this.(email := v)
      case Message => this.(message := v)
    }
  }

  const EmptyForm := FormData("", "", "")

  /** The translation keys of the field error messages; the form stores
      the translated text, which these stand for. */
  datatype ErrorText = NameError | EmailError | EmailInvalid | MessageError | MessageMinLength

  /** The `errors` object: at most one message per field. */
  datatype FormErrors = FormErrors(name: Option<ErrorText>, email: Option<ErrorText>, message: Option<ErrorText>) {
    function Get(f: Field): Option<ErrorText> {
      match f
      case Name => name
      case Email => email
      case Message => message
    }

    /** `Object.keys(errors).length === 0` */
    predicate IsEmpty() {
      name.None? && email.None? && message.None?
    }

    /** `{ ...prev, [f]: undefined }`: only the named field loses its message. */
    function Cleared(f: Field): (r: FormErrors)
      ensures r.Get(f).None?
      ensures forall g: Field | g != f :: r.Get(g) == Get(g)
    {
      match f
      case Name => this.(name := None)
      case Email => this.(email := None)
      case Message => this.(message := None)
    }
  }

  const NoErrors := FormErrors(None, None, None)

  const MinMessageLength := 10

  /** The name is required: it errs exactly when it is blank. */
  function ValidateName(name: string): (e: Option<ErrorText>)
    ensures e.Some? <==> AllWhitespace(name)
    ensures e.Some? ==> e == Some(NameError)
  {
    if Trim(name) == [] then Some(NameError) else None
  }

  /** A blank address is "required"; any other address that the pattern
      rejects (tested untrimmed) is "invalid"; the two never both apply. */
  function ValidateEmail(email: string): (e: Option<ErrorText>)
    ensures e == Some(EmailError) <==> AllWhitespace(email)
    ensures e == Some(EmailInvalid) <==> !AllWhitespace(email) && !MatchesEmailPattern(email)
    ensures e == None <==> MatchesEmailPattern(email)
  {
    EmailShapeMatchesPattern(email);
    PatternIsNotBlank(email);
    if Trim(email) == [] then Some(EmailError)
    else if !IsEmailShaped(email) then Some(EmailInvalid)
    else None
  }

  /** A blank message is "required"; a trimmed message of fewer than ten
      characters is "too short"; ten or more is accepted. */
  function ValidateMessage(message: string): (e: Option<ErrorText>)
    ensures e == Some(MessageError) <==> AllWhitespace(message)
    ensures e == Some(MessageMinLength) <==> !AllWhitespace(message) && |Trim(message)| < MinMessageLength
    ensures e == None <==> |Trim(message)| >= MinMessageLength
  {
    if Trim(message) == [] then Some(MessageError)
    else if |Trim(message)| < MinMessageLength then Some(MessageMinLength)
    else None
  }

  /** The `newErrors` object that `validateForm` builds, field by field. */
  function Validate(f: FormData): FormErrors {
    FormErrors(ValidateName(f.name), ValidateEmail(f.email), ValidateMessage(f.message))
  }

  /** The form is accepted exactly when the name is not blank, the address
      matches the pattern and the trimmed message has at least ten characters. */
  lemma ValidateAcceptsIff(f: FormData)
    ensures Validate(f).IsEmpty() <==>
      !AllWhitespace(f.name) && MatchesEmailPattern(f.email) && |Trim(f.message)| >= MinMessageLength
  {
  }

  /** An address with a blank at either end is rejected as invalid, even
      though its trimmed form might match. */
  lemma PaddedEmailIsInvalid(email: string)
    requires |email| > 0 && !AllWhitespace(email)
    requires IsWhitespace(email[0]) || IsWhitespace(email[|email| - 1])
    ensures ValidateEmail(email) == Some(EmailInvalid)
  {
  }

  // ---------------------------------------------------------------------
  // Submission
  // ---------------------------------------------------------------------

  datatype Status = Idle | Loading | Success | Error

  /** How the form-relay request ended: a response with `ok`, a response
      without it, or a thrown exception. */
  datatype FetchOutcome = ResponseOk | ResponseNotOk | Threw

  /** The status the form settles in once the request has ended. The
      exception path deliberately simulates success. */
  function SettledStatus(o: FetchOutcome): (s: Status)
    ensures s == Error <==> o == ResponseNotOk
    ensures s != Error ==> s == Success
  {
    match o
    case ResponseOk => Success
    case ResponseNotOk => Error
    case Threw => Success
  }

  /** The fields are cleared exactly when the form settles in success. */
  predicate ClearsForm(o: FetchOutcome) {
    o != ResponseNotOk
  }

  lemma ClearsFormIffSuccess(o: FetchOutcome)
    ensures ClearsForm(o) <==> SettledStatus(o) == Success
  {
  }

  /** The component's state: `formData`, `errors` and `status`. */
  class ContactForm {
    var formData: FormData
    var errors: FormErrors
    var status: Status

    constructor ()
      ensures formData == EmptyForm && errors == NoErrors && status == Idle
    {
      formData := EmptyForm;
      errors := NoErrors;
      status := Idle;
    }

    /** The inputs and the submit button are disabled while a request is out. */
    predicate InputsDisabled()
      reads this
    {
      status == Loading
    }

    /** `validateForm`: replaces the errors with those of the current data
        and reports whether there are none. */
    method ValidateForm() returns (valid: bool)
      modifies this
      ensures errors == Validate(formData) && valid == errors.IsEmpty()
      ensures formData == old(formData) && status == old(status)
    {
      var newErrors := Validate(formData);
      errors := newErrors;
      valid := newErrors.IsEmpty();
    }

    /** `handleSubmit` up to the request: on invalid data nothing is sent and
        the status is left as it was; otherwise the status becomes loading
        and the current data is the payload. */
    method Submit() returns (payload: Option<FormData>)
      modifies this
      ensures errors == Validate(old(formData)) && formData == old(formData)
      ensures payload.Some? <==> errors.IsEmpty()
      ensures payload.Some? ==> payload.value == formData && status == Loading && InputsDisabled()
      ensures payload.None? ==> status == old(status)
    {
      var valid := ValidateForm();
      if !valid {
        return None;
      }
      status := Loading;
      payload := Some(formData);
    }

    /** `handleSubmit` after the request: success (also when the request
        threw) clears the three fields; a response without `ok` keeps them. */
    method Settle(outcome: FetchOutcome)
      modifies this
      ensures status == SettledStatus(outcome)
      ensures formData == if ClearsForm(outcome) then EmptyForm else old(formData)
      ensures errors == old(errors)
    {
      match outcome
      case ResponseOk =>
        status := Success;
        formData := EmptyForm;
      case ResponseNotOk =>
        status := Error;
      case Threw =>
        status := Success;
        formData := EmptyForm;
    }

    /** The whole of `handleSubmit` when nothing happens while the request is out. */
    method HandleSubmit(outcome: FetchOutcome) returns (payload: Option<FormData>)
      modifies this
      ensures errors == Validate(old(formData))
      ensures payload.Some? <==> errors.IsEmpty()
      ensures payload.Some? ==>
                payload.value == old(formData)
                && status == SettledStatus(outcome)
                && formData == (if ClearsForm(outcome) then EmptyForm else old(formData))
      ensures payload.None? ==> status == old(status) && formData == old(formData)
    {
      payload := Submit();
      if payload.Some? {
        Settle(outcome);
      }
    }

    /** `handleChange`: the named field takes the typed value, and that
        field's message, if any, is cleared; nothing else changes. */
    method HandleChange(field: Field, value: string)
      modifies this
      ensures formData == old(formData).With(field, value)
      ensures errors == old(errors).Cleared(field)
      ensures status == old(status)
    {
      formData := formData.With(field, value);
      if errors.Get(field).Some? {
        errors := errors.Cleared(field);
      }
    }
  }
}
