/**
 * Client-side validation of the request form: the e-mail pattern, the phone-number
 * digit count, the phone formatter and the ordered error list of `validateRequestForm`
 * (src/utils/formValidation.ts).
 */
module FormValidation {
  import opened Options
  import opened JsString

  /** The five fields `validateRequestForm` checks; `Name()` is the `field` string the source stores. */
  datatype Field = FullName | Email | Phone | ServiceType | TermsAccepted {
    function Name(): string {
      match this
      case FullName => "fullName"
      case Email => "email"
      case Phone => "phone"
      case ServiceType => "serviceType"
      case TermsAccepted => "termsAccepted"
    }

    /** Position in the order the checks run. */
    function Rank(): nat {
      match this
      case FullName => 0
      case Email => 1
      case Phone => 2
      case ServiceType => 3
      case TermsAccepted => 4
    }
  }

  datatype ValidationError = ValidationError(field: Field, message: string)

  datatype ValidationResult = ValidationResult(isValid: bool, errors: seq<ValidationError>)

  /** `RequestFormData`: the optional fields are `None` when the caller leaves them out. */
  datatype RequestFormData = RequestFormData(
    fullName: string,
    email: string,
    phone: string,
    serviceType: string,
    documentType: Option<string>,
    appointmentDateTime: Option<string>,
    location: Option<string>,
    additionalNotes: Option<string>,
    termsAccepted: bool)

  // ---------------------------------------------------------------------------
  // validateEmail: EMAIL_REGEX is /^[^\s@]+@[^\s@]+\.[^\s@]+$/
  // ---------------------------------------------------------------------------

  /** Every character is in the class `[^\s@]`. */
  predicate Plain(s: string) {
    forall i :: 0 <= i < |s| ==> !IsWhiteSpace(s[i]) && s[i] != '@'
  }

  /** The language of EMAIL_REGEX, read off the pattern: a plain run, `@`, a plain run, `.`, a plain run. */
  ghost predicate MatchesEmailRegex(s: string) {
    exists i, j :: 0 < i && i + 1 < j && j + 1 < |s| && s[i] == '@' && s[j] == '.'
      && Plain(s[..i]) && Plain(s[i + 1..j]) && Plain(s[j + 1..])
  }

  /** Index of the first `c` in `s`, or `|s|` when there is none. */
  function IndexOf(s: string, c: char): (k: nat)
    ensures k <= |s|
    ensures k < |s| ==> s[k] == c
    ensures forall m :: 0 <= m < k ==> s[m] != c
  {
    if s == [] then 0 else if s[0] == c then 0 else 1 + IndexOf(s[1..], c)
  }

  /** The domain after the `@`: plain characters with a `.` that is neither first nor last. */
  predicate DomainMatches(d: string) {
    Plain(d) && exists j :: 0 < j < |d| - 1 && d[j] == '.'
  }

  /** `validateEmail`: the one `@` splits a non-empty plain local part from a dotted domain. */
  function ValidateEmail(email: string): bool {
    var at := IndexOf(email, '@');
    0 < at < |email| && Plain(email[..at]) && DomainMatches(email[at + 1..])
  }

  lemma PlainSlice(d: string, a: nat, b: nat)
    requires Plain(d) && a <= b <= |d|
    ensures Plain(d[a..b])
  {
    assert forall m :: 0 <= m < b - a ==> d[a..b][m] == d[a + m];
  }

  lemma ValidateEmailMatches(s: string)
    requires ValidateEmail(s)
    ensures MatchesEmailRegex(s)
  {
    var i := IndexOf(s, '@');
    var d := s[i + 1..];
    var j' :| 0 < j' < |d| - 1 && d[j'] == '.';
    var j := i + 1 + j';
    PlainSlice(d, 0, j');
    PlainSlice(d, j' + 1, |d|);
    assert s[i + 1..j] == d[..j'];
    assert s[j + 1..] == d[j' + 1..];
    assert s[j] == '.';
  }

  lemma MatchesValidateEmail(s: string, i: nat, j: nat)
    requires 0 < i && i + 1 < j && j + 1 < |s| && s[i] == '@' && s[j] == '.'
    requires Plain(s[..i]) && Plain(s[i + 1..j]) && Plain(s[j + 1..])
    ensures ValidateEmail(s)
  {
    assert forall m :: 0 <= m < i ==> s[m] == s[..i][m];
    assert IndexOf(s, '@') == i;
    var d := s[i + 1..];
    var b, c := s[i + 1..j], s[j + 1..];
    assert d == b + [s[j]] + c;
    assert forall m :: 0 <= m < |b| ==> d[m] == b[m];
    assert forall m :: |b| < m < |d| ==> d[m] == c[m - |b| - 1];
    assert Plain(d);
    assert d[j - i - 1] == '.';
  }

  /** `validateEmail(s)` is exactly `EMAIL_REGEX.test(s)`. */
  lemma ValidateEmailIsRegex(s: string)
    ensures ValidateEmail(s) <==> MatchesEmailRegex(s)
  {
    if ValidateEmail(s) {
      ValidateEmailMatches(s);
    }
    if MatchesEmailRegex(s) {
      var i, j :| 0 < i && i + 1 < j && j + 1 < |s| && s[i] == '@' && s[j] == '.'
        && Plain(s[..i]) && Plain(s[i + 1..j]) && Plain(s[j + 1..]);
      MatchesValidateEmail(s, i, j);
    }
  }

  /** A matching address always contains a non-space character, so it is never blank. */
  lemma ValidEmailIsNotBlank(s: string)
    requires ValidateEmail(s)
    ensures !Blank(s)
  {
    BlankIsAllWhiteSpace(s);
    assert !IsWhiteSpace(s[IndexOf(s, '@')]);
  }

  // ---------------------------------------------------------------------------
  // validatePhone and formatPhoneNumber
  // ---------------------------------------------------------------------------

  /** `validatePhone`: 10 to 14 digits, whatever else the string holds (PHONE_REGEX is never used). */
  predicate ValidatePhone(phone: string) {
    10 <= |Digits(phone)| <= 14
  }

  /** The shape `(ddd) ddd-dddd`. */
  predicate IsLocalFormat(r: string) {
    |r| == 14 && r[0] == '(' && r[4] == ')' && r[5] == ' ' && r[9] == '-'
    && AllDigits(r[1..4]) && AllDigits(r[6..9]) && AllDigits(r[10..])
  }

  /** The shape `+1 (ddd) ddd-dddd`. */
  predicate IsCountryFormat(r: string) {
    |r| == 17 && r[..4] == "+1 (" && r[7] == ')' && r[8] == ' ' && r[12] == '-'
    && AllDigits(r[4..7]) && AllDigits(r[9..12]) && AllDigits(r[13..])
  }

  /** Exactly ten digits, or eleven digits starting with `1`: the two cases `formatPhoneNumber` rewrites. */
  predicate Formattable(phone: string) {
    var d := Digits(phone);
    |d| == 10 || (|d| == 11 && d[0] == '1')
  }

  lemma {:induction false} NoDigits(p: string)
    requires forall i :: 0 <= i < |p| ==> !IsDigit(p[i])
    ensures Digits(p) == []
  {
    if p != [] {
      NoDigits(p[1..]);
    }
  }

  /** Digits of three pieces set between digit-free punctuation. */
  lemma DigitsBetween(p: string, a: string, q: string, b: string, t: string, e: string)
    requires Digits(q) == [] && Digits(t) == []
    ensures Digits(p + a + q + b + t + e) == Digits(p) + Digits(a) + Digits(b) + Digits(e)
  {
    DigitsAppend(p, a);
    DigitsAppend(p + a, q);
    DigitsAppend(p + a + q, b);
    DigitsAppend(p + a + q + b, t);
    DigitsAppend(p + a + q + b + t, e);
    assert Digits(p + a + q) == Digits(p) + Digits(a);
    assert Digits(p + a + q + b + t) == Digits(p) + Digits(a) + Digits(b);
  }

  /** The punctuation of `(aaa) bbb-eeee` contributes no digits. */
  lemma LocalFormatDigits(a: string, b: string, e: string)
    ensures Digits("(" + a + ") " + b + "-" + e) == Digits(a) + Digits(b) + Digits(e)
  {
    var r := "(" + a + ") " + b + "-" + e;
    assert Digits(r) == Digits("(") + Digits(a) + Digits(b) + Digits(e) by {
      NoDigits(") ");
      NoDigits("-");
      DigitsBetween("(", a, ") ", b, "-", e);
    }
    NoDigits("(");
    assert Digits("(") + Digits(a) == Digits(a);
  }

  /** The punctuation of `+1 (aaa) bbb-eeee` contributes only the `1`. */
  lemma CountryFormatDigits(a: string, b: string, e: string)
    ensures Digits("+1 (" + a + ") " + b + "-" + e) == "1" + Digits(a) + Digits(b) + Digits(e)
  {
    var r := "+1 (" + a + ") " + b + "-" + e;
    assert Digits(r) == Digits("+1 (") + Digits(a) + Digits(b) + Digits(e) by {
      NoDigits(") ");
      NoDigits("-");
      DigitsBetween("+1 (", a, ") ", b, "-", e);
    }
    assert Digits("+1 (") == "1";
  }

  /** Ten digits laid out as `(ddd) ddd-dddd` keep their digits. */
  lemma LocalFormatted(c: string)
    requires |c| == 10 && AllDigits(c)
    ensures var r := "(" + c[..3] + ") " + c[3..6] + "-" + c[6..];
      IsLocalFormat(r) && Digits(r) == c
  {
    var a, b, e := c[..3], c[3..6], c[6..];
    var r := "(" + a + ") " + b + "-" + e;
    DigitsSpec(a);
    DigitsSpec(b);
    DigitsSpec(e);
    LocalFormatDigits(a, b, e);
    assert a + b + e == c;
    assert r[1..4] == a && r[6..9] == b && r[10..] == e;
  }

  /** Eleven digits led by `1` laid out as `+1 (ddd) ddd-dddd` keep their digits. */
  lemma CountryFormatted(c: string)
    requires |c| == 11 && c[0] == '1' && AllDigits(c)
    ensures var r := "+1 (" + c[1..4] + ") " + c[4..7] + "-" + c[7..];
      IsCountryFormat(r) && Digits(r) == c
  {
    var a, b, e := c[1..4], c[4..7], c[7..];
    var r := "+1 (" + a + ") " + b + "-" + e;
    DigitsSpec(a);
    DigitsSpec(b);
    DigitsSpec(e);
    CountryFormatDigits(a, b, e);
    assert "1" + a + b + e == c;
    assert r[4..7] == a && r[9..12] == b && r[13..] == e;
  }

  /**
   * `formatPhoneNumber`: ten digits become `(ddd) ddd-dddd`, eleven digits led by `1`
   * become `+1 (ddd) ddd-dddd`, anything else comes back unchanged; the digits never change.
   */
  function FormatPhoneNumber(phone: string): (r: string)
    ensures Digits(r) == Digits(phone)
    ensures |Digits(phone)| == 10 ==> IsLocalFormat(r)
    ensures |Digits(phone)| == 11 && Digits(phone)[0] == '1' ==> IsCountryFormat(r)
    ensures !Formattable(phone) ==> r == phone
  {
    var c := Digits(phone);
    DigitsSpec(phone);
    if |c| == 10 then
      LocalFormatted(c);
      "(" + c[..3] + ") " + c[3..6] + "-" + c[6..]
    else if |c| == 11 && c[0] == '1' then
      CountryFormatted(c);
      "+1 (" + c[1..4] + ") " + c[4..7] + "-" + c[7..]
    else
      phone
  }

  /** Formatting an already formatted number changes nothing. */
  lemma FormatPhoneNumberIdempotent(phone: string)
    ensures FormatPhoneNumber(FormatPhoneNumber(phone)) == FormatPhoneNumber(phone)
  {
    var r := FormatPhoneNumber(phone);
    if Formattable(phone) {
      assert Digits(r) == Digits(phone);
    }
  }

  // ---------------------------------------------------------------------------
  // validateRequestForm
  // ---------------------------------------------------------------------------

  /** `!s?.trim()` for a string field. */
  predicate Blank(s: string) {
    s == [] || (IsWhiteSpace(s[0]) && Blank(s[1..]))
  }

  lemma {:induction false} BlankIsAllWhiteSpace(s: string)
    ensures Blank(s) <==> AllWhiteSpace(s)
  {
    if s != [] {
      BlankIsAllWhiteSpace(s[1..]);
      assert forall i :: 0 < i < |s| ==> s[i] == s[1..][i - 1];
    }
  }

  /** `Blank` is the falsiness of `s.trim()`. */
  lemma BlankIsTrimEmpty(s: string)
    ensures Blank(s) <==> Trim(s) == []
  {
    BlankIsAllWhiteSpace(s);
    TrimEmptyIffAllWhiteSpace(s);
  }

  /** The fields `validateRequestForm` checks, in the order it checks them. */
  const FieldOrder: seq<Field> := [FullName, Email, Phone, ServiceType, TermsAccepted]

  /** The message `validateRequestForm` records for `field`, if any. */
  function FieldCheck(data: RequestFormData, field: Field): Option<string> {
    match field
    case FullName =>
      if Blank(data.fullName) then Some("Name is required") else None
    case Email =>
      if Blank(data.email) then Some("Email is required")
      else if !ValidateEmail(data.email) then Some("Invalid email address")
      else None
    case Phone =>
      if Blank(data.phone) then Some("Phone is required")
      else if !ValidatePhone(data.phone) then Some("Invalid phone number")
      else None
    case ServiceType =>
      if Blank(data.serviceType) then Some("Service type is required") else None
    case TermsAccepted =>
      if !data.termsAccepted then Some("You must accept the terms") else None
  }

  /** The error pushed for `field` when its check yields a message: none or one. */
  function ErrorOf(data: RequestFormData, field: Field): seq<ValidationError> {
    match FieldCheck(data, field)
    case Some(m) => [ValidationError(field, m)]
    case None => []
  }

  /** The errors for `fields`, checked one after the other. */
  function CollectErrors(data: RequestFormData, fields: seq<Field>): seq<ValidationError> {
    if fields == [] then [] else ErrorOf(data, fields[0]) + CollectErrors(data, fields[1..])
  }

  /** The list `validateRequestForm` builds. */
  function ExpectedErrors(data: RequestFormData): seq<ValidationError> {
    CollectErrors(data, FieldOrder)
  }

  /** The list for fields `[f] + rest`: the error of `f`, then the errors of `rest`. */
  lemma CollectErrorsCons(data: RequestFormData, fields: seq<Field>)
    requires fields != []
    ensures CollectErrors(data, fields) == ErrorOf(data, fields[0]) + CollectErrors(data, fields[1..])
  {
  }

  lemma CollectErrorsInOrder(data: RequestFormData)
    ensures CollectErrors(data, FieldOrder) == ErrorOf(data, FullName) + ErrorOf(data, Email)
      + ErrorOf(data, Phone) + ErrorOf(data, ServiceType) + ErrorOf(data, TermsAccepted)
  {
    var f4 := [TermsAccepted];
    var f3 := [ServiceType] + f4;
    var f2 := [Phone] + f3;
    var f1 := [Email] + f2;
    assert FieldOrder == [FullName] + f1;
    CollectErrorsCons(data, [FullName] + f1);
    assert ([FullName] + f1)[1..] == f1;
    CollectErrorsCons(data, f1);
    assert f1[1..] == f2;
    CollectErrorsCons(data, f2);
    assert f2[1..] == f3;
    CollectErrorsCons(data, f3);
    assert f3[1..] == f4;
    CollectErrorsCons(data, f4);
    assert f4[1..] == [];
  }

  /** `validateRequestForm`: each failed check pushes one error onto `errors`. */
  method ValidateRequestForm(data: RequestFormData) returns (result: ValidationResult)
    ensures result.errors == ExpectedErrors(data)
    ensures result.isValid <==> result.errors == []
  {
    var errors: seq<ValidationError> := [];
    if Blank(data.fullName) {
      errors := errors + [ValidationError(FullName, "Name is required")];
    }
    assert errors == ErrorOf(data, FullName);
    ghost var done := errors;
    if Blank(data.email) {
      errors := errors + [ValidationError(Email, "Email is required")];
    } else if !ValidateEmail(data.email) {
      errors := errors + [ValidationError(Email, "Invalid email address")];
    }
    assert errors == done + ErrorOf(data, Email);
    done := errors;
    if Blank(data.phone) {
      errors := errors + [ValidationError(Phone, "Phone is required")];
    } else if !ValidatePhone(data.phone) {
      errors := errors + [ValidationError(Phone, "Invalid phone number")];
    }
    assert errors == done + ErrorOf(data, Phone);
    done := errors;
    if Blank(data.serviceType) {
      errors := errors + [ValidationError(ServiceType, "Service type is required")];
    }
    assert errors == done + ErrorOf(data, ServiceType);
    done := errors;
    if !data.termsAccepted {
      errors := errors + [ValidationError(TermsAccepted, "You must accept the terms")];
    }
    assert errors == done + ErrorOf(data, TermsAccepted);
    CollectErrorsInOrder(data);
    result := ValidationResult(|errors| == 0, errors);
  }

  predicate Increasing(fields: seq<Field>) {
    forall i, j :: 0 <= i < j < |fields| ==> fields[i].Rank() < fields[j].Rank()
  }

  /** The errors follow the order of `fields`, at most one per field, each one for a field of `fields`. */
  lemma {:induction false} CollectErrorsOrdered(data: RequestFormData, fields: seq<Field>)
    requires Increasing(fields)
    ensures forall k :: 0 <= k < |CollectErrors(data, fields)| ==> CollectErrors(data, fields)[k].field in fields
    ensures forall i, j :: 0 <= i < j < |CollectErrors(data, fields)| ==>
      CollectErrors(data, fields)[i].field.Rank() < CollectErrors(data, fields)[j].field.Rank()
  {
    if fields != [] {
      var tail := CollectErrors(data, fields[1..]);
      CollectErrorsOrdered(data, fields[1..]);
      forall k | 0 <= k < |tail|
        ensures tail[k].field.Rank() > fields[0].Rank()
      {
        var p :| 0 <= p < |fields[1..]| && fields[1..][p] == tail[k].field;
        assert fields[p + 1] == tail[k].field;
      }
    }
  }

  /** An error is in the list exactly when its field is among `fields` and the check of that field yields its message. */
  lemma {:induction false} CollectErrorsMembers(data: RequestFormData, fields: seq<Field>, e: ValidationError)
    ensures e in CollectErrors(data, fields) <==> e.field in fields && FieldCheck(data, e.field) == Some(e.message)
  {
    if fields != [] {
      CollectErrorsMembers(data, fields[1..], e);
      assert fields == [fields[0]] + fields[1..];
    }
  }

  /** Two forms whose checks agree on every field get the same list. */
  lemma {:induction false} CollectErrorsAgree(data: RequestFormData, other: RequestFormData, fields: seq<Field>)
    requires forall f :: FieldCheck(data, f) == FieldCheck(other, f)
    ensures CollectErrors(data, fields) == CollectErrors(other, fields)
  {
    if fields != [] {
      CollectErrorsAgree(data, other, fields[1..]);
      assert ErrorOf(data, fields[0]) == ErrorOf(other, fields[0]);
    }
  }

  /** `validateRequestForm` reports errors in the order fullName, email, phone, serviceType, termsAccepted, at most one per field. */
  lemma ExpectedErrorsOrdered(data: RequestFormData)
    ensures forall i, j :: 0 <= i < j < |ExpectedErrors(data)| ==>
      ExpectedErrors(data)[i].field.Rank() < ExpectedErrors(data)[j].field.Rank()
  {
    CollectErrorsOrdered(data, FieldOrder);
  }

  /** `validateRequestForm` reports exactly the failed checks, each with its message. */
  lemma ExpectedErrorsMembers(data: RequestFormData, e: ValidationError)
    ensures e in ExpectedErrors(data) <==> FieldCheck(data, e.field) == Some(e.message)
  {
    CollectErrorsMembers(data, FieldOrder, e);
    EveryFieldIsChecked(e.field);
  }

  lemma EveryFieldIsChecked(f: Field)
    ensures f in FieldOrder
  {
    assert FieldOrder[f.Rank()] == f;
  }

  /** A blank e-mail gets "Email is required" and never "Invalid email address"; an e-mail passes exactly when it matches. */
  lemma EmailCheckSpec(data: RequestFormData)
    ensures Blank(data.email) ==> FieldCheck(data, Email) == Some("Email is required")
    ensures FieldCheck(data, Email) == None <==> ValidateEmail(data.email)
  {
    if ValidateEmail(data.email) {
      ValidEmailIsNotBlank(data.email);
    }
  }

  /** A blank phone gets "Phone is required" and never "Invalid phone number"; a phone passes exactly when it validates. */
  lemma PhoneCheckSpec(data: RequestFormData)
    ensures Blank(data.phone) ==> FieldCheck(data, Phone) == Some("Phone is required")
    ensures FieldCheck(data, Phone) == None <==> ValidatePhone(data.phone)
  {
    if Blank(data.phone) {
      BlankIsAllWhiteSpace(data.phone);
      WhiteSpaceHasNoDigits(data.phone);
    }
  }

  lemma {:induction false} WhiteSpaceHasNoDigits(s: string)
    requires AllWhiteSpace(s)
    ensures Digits(s) == []
  {
    if s != [] {
      WhiteSpaceHasNoDigits(s[1..]);
    }
  }
}
