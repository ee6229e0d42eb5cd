/**
 * The booking page (src/pages/book/index.tsx): the controlled form, its change handler
 * that also clears the errors of the edited field, and the submit handler that
 * validates, submits and resets the form on success.
 */
module BookingPage {
  import opened Options
  import opened FetchApi
  import opened PendingStore
  import FormValidation
  import opened FormSubmission

  /** The text inputs of the form, by their `name` attribute. */
  datatype TextField = FullName | Email | Phone | ServiceType | PreferredDate | PreferredTime
                     | Location | DocumentType | Notes {
    function Name(): string {
      match this
      case FullName => "fullName"
      case Email => "email"
      case Phone => "phone"
      case ServiceType => "serviceType"
      case PreferredDate => "preferredDate"
      case PreferredTime => "preferredTime"
      case Location => "location"
      case DocumentType => "documentType"
      case Notes => "notes"
    }
  }

  /** The checkbox's `name`. */
  const TermsName: string := "termsAccepted"

  /** `BookingFormData`. */
  datatype BookingFormData = BookingFormData(
    fullName: string,
    email: string,
    phone: string,
    serviceType: string,
    preferredDate: string,
    preferredTime: string,
    location: string,
    documentType: string,
    notes: string,
    termsAccepted: bool)

  /** The initial form, and the form after a successful booking. */
  const EmptyForm: BookingFormData := BookingFormData("", "", "", "notary", "", "", "", "", "", false)

  /** A change event: a text input's new value, or the terms checkbox's new `checked`. */
  datatype ChangeEvent = TextChange(field: TextField, value: string) | CheckboxChange(checked: bool) {
    /** `e.target.name`. */
    function Name(): string {
      if TextChange? then field.Name() else TermsName
    }
  }

  /** The current value of a text input. */
  function Get(form: BookingFormData, field: TextField): string {
    match field
    case FullName => form.fullName
    case Email => form.email
    case Phone => form.phone
    case ServiceType => form.serviceType
    case PreferredDate => form.preferredDate
    case PreferredTime => form.preferredTime
    case Location => form.location
    case DocumentType => form.documentType
    case Notes => form.notes
  }

  /** `{ ...prev, [name]: val }`: the named input takes the event's value and nothing else changes. */
  function Updated(form: BookingFormData, e: ChangeEvent): (r: BookingFormData)
    ensures e.TextChange? ==>
      (Get(r, e.field) == e.value && r.termsAccepted == form.termsAccepted
       && forall f :: f != e.field ==> Get(r, f) == Get(form, f))
    ensures e.CheckboxChange? ==> (r.termsAccepted == e.checked && forall f :: Get(r, f) == Get(form, f))
  {
    match e
    case CheckboxChange(checked) => form.(termsAccepted := checked)
    case TextChange(field, value) =>
      match field
      case FullName => form.(fullName := value)
      case Email => form.(email := value)
      case Phone => form.(phone := value)
      case ServiceType => form.(serviceType := value)
      case PreferredDate => form.(preferredDate := value)
      case PreferredTime => form.(preferredTime := value)
      case Location => form.(location := value)
      case DocumentType => form.(documentType := value)
      case Notes => form.(notes := value)
  }

  /** `prev.filter((err) => err.field !== name)`. */
  function ClearErrors(errors: seq<FormValidation.ValidationError>, name: string): seq<FormValidation.ValidationError> {
    if errors == [] then []
    else (if errors[0].field.Name() == name then [] else [errors[0]]) + ClearErrors(errors[1..], name)
  }

  /** The filter drops exactly the errors of the named field and keeps the others. */
  lemma {:induction false} ClearErrorsSpec(errors: seq<FormValidation.ValidationError>, name: string)
    ensures forall e :: e in ClearErrors(errors, name) <==> e in errors && e.field.Name() != name
    ensures |ClearErrors(errors, name)| <= |errors|
  {
    if errors != [] {
      ClearErrorsSpec(errors[1..], name);
      assert errors == [errors[0]] + errors[1..];
    }
  }

  /** The filter works element by element: filtering a concatenation filters each part, in order. */
  lemma {:induction false} ClearErrorsAppend(a: seq<FormValidation.ValidationError>, b: seq<FormValidation.ValidationError>, name: string)
    ensures ClearErrors(a + b, name) == ClearErrors(a, name) + ClearErrors(b, name)
  {
    if a == [] {
      assert a + b == b;
    } else {
      assert (a + b)[1..] == a[1..] + b;
      ClearErrorsAppend(a[1..], b, name);
    }
  }

  /** Filtering one error keeps it exactly when it belongs to another field. */
  lemma ClearErrorsSingle(e: FormValidation.ValidationError, name: string)
    ensures ClearErrors([e], name) == if e.field.Name() == name then [] else [e]
  {
    assert [e][1..] == [];
  }

  /** A list with no error of the named field passes through unchanged, so clearing twice is clearing once. */
  lemma {:induction false} ClearErrorsIdempotent(errors: seq<FormValidation.ValidationError>, name: string)
    ensures (forall e :: e in errors ==> e.field.Name() != name) ==> ClearErrors(errors, name) == errors
    ensures ClearErrors(ClearErrors(errors, name), name) == ClearErrors(errors, name)
  {
    if errors != [] {
      ClearErrorsIdempotent(errors[1..], name);
      var rest := ClearErrors(errors[1..], name);
      if errors[0].field.Name() != name {
        var kept := [errors[0]] + rest;
        assert ClearErrors(errors, name) == kept;
        assert kept[0] == errors[0] && kept[1..] == rest;
        assert ClearErrors(kept, name) == [errors[0]] + ClearErrors(rest, name);
      } else {
        assert ClearErrors(errors, name) == [] + rest == rest;
      }
    }
  }

  /** An input that `validateRequestForm` does not check never has errors to clear. */
  lemma {:induction false} ClearErrorsOfUncheckedField(errors: seq<FormValidation.ValidationError>, name: string)
    requires forall f: FormValidation.Field :: f.Name() != name
    ensures ClearErrors(errors, name) == errors
  {
    if errors != [] {
      ClearErrorsOfUncheckedField(errors[1..], name);
      assert errors == [errors[0]] + errors[1..];
    }
  }

  /** Typing in the date, time, location, document or notes input never clears a validation error. */
  lemma EditingUncheckedInputKeepsErrors(errors: seq<FormValidation.ValidationError>, e: ChangeEvent)
    requires e.TextChange? && e.field in {PreferredDate, PreferredTime, Location, DocumentType, Notes}
    ensures ClearErrors(errors, e.Name()) == errors
  {
    ClearErrorsOfUncheckedField(errors, e.Name());
  }

  /** The data handed to `validateRequestForm` and `submitRequestForm`: the date and time joined by `T`. */
  function ToRequest(form: BookingFormData): (data: FormValidation.RequestFormData)
    ensures data.fullName == form.fullName && data.email == form.email && data.phone == form.phone
    ensures data.serviceType == form.serviceType && data.termsAccepted == form.termsAccepted
    ensures data.appointmentDateTime.Some?
    ensures var when := data.appointmentDateTime.value;
      |when| == |form.preferredDate| + 1 + |form.preferredTime|
      && when[..|form.preferredDate|] == form.preferredDate
      && when[|form.preferredDate|] == 'T'
      && when[|form.preferredDate| + 1..] == form.preferredTime
    ensures data.documentType == Some(form.documentType) && data.location == Some(form.location)
    ensures data.additionalNotes == Some(form.notes)
  {
    FormValidation.RequestFormData(
      form.fullName, form.email, form.phone, form.serviceType,
      Some(form.documentType),
      Some(form.preferredDate + "T" + form.preferredTime),
      Some(form.location),
      Some(form.notes),
      form.termsAccepted)
  }

  /** The page's state hooks. */
  class Page {
    var formData: BookingFormData
    var errors: seq<FormValidation.ValidationError>
    var loading: bool
    var success: bool

    /** While a submission is pending, no errors are shown. */
    predicate Valid()
      reads this
    {
      loading ==> errors == []
    }

    constructor ()
      ensures Valid() && formData == EmptyForm && errors == [] && !loading && !success
    {
      formData := EmptyForm;
      errors := [];
      loading := false;
      success := false;
    }

    /** `handleChange`: store the input's value and clear the errors recorded for that input. */
    method HandleChange(e: ChangeEvent)
      requires Valid()
      modifies this
      ensures Valid()
      ensures formData == Updated(old(formData), e)
      ensures errors == ClearErrors(old(errors), e.Name())
      ensures loading == old(loading) && success == old(success)
    {
      formData := Updated(formData, e);
      errors := ClearErrors(errors, e.Name());
    }

    /** The "Book Another Appointment" button. */
    method DismissSuccess()
      requires Valid()
      modifies this
      ensures Valid() && !success
      ensures formData == old(formData) && errors == old(errors) && loading == old(loading)
    {
      success := false;
    }

    /**
     * `handleSubmit`: an invalid form shows its errors; a valid one is submitted as a
     * notary request. Success shows the confirmation and empties the form; a saved or
     * failed submission leaves the form as it was; a save that never settles leaves the
     * page loading. `None` means the form did not validate.
     */
    method HandleSubmit(db: Database<Payload>, env: Option<string>, submittedAt: string, now: nat,
                        timestamp: string, post: (string, Payload) -> FetchOutcome, parse: string -> JsonBody)
      returns (submitted: Option<SubmitOutcome>)
      requires Valid() && db.Valid()
      modifies this, db
      ensures Valid() && db.Valid()
      ensures var data := ToRequest(old(formData));
        submitted.None? <==> FormValidation.ExpectedErrors(data) != []
      ensures submitted.None? ==>
        errors == FormValidation.ExpectedErrors(ToRequest(old(formData))) && !loading
        && formData == old(formData) && success == old(success)
        && db.records == old(db.records) && db.created == old(db.created) && db.hasStore == old(db.hasStore)
      ensures submitted.Some? ==>
        var payload := FormatPayload(ToRequest(old(formData)), Notary, submittedAt);
        var outcome := post(SubmitUrl(env), payload);
        submitted.value == SubmitOutcomeOf(old(db.created), old(db.hasStore), old(db.records).Keys, now, outcome, parse)
        && errors == []
        && (loading <==> submitted.value == Hung)
        && (submitted.value.Returned? && submitted.value.response.success ==> success && formData == EmptyForm)
        && (!(submitted.value.Returned? && submitted.value.response.success) ==>
              success == old(success) && formData == old(formData))
      ensures submitted.Some? ==>
        var payload := FormatPayload(ToRequest(old(formData)), Notary, submittedAt);
        var outcome := post(SubmitUrl(env), payload);
        var key := RecordKey(now);
        if Accepted(outcome, parse) then
          db.records == old(db.records) && db.created == old(db.created) && db.hasStore == old(db.hasStore)
        else
          db.created && db.hasStore == (old(db.hasStore) || !old(db.created))
          && db.records == if db.hasStore && key !in old(db.records)
                           then old(db.records)[key := PendingRecord(key, payload, timestamp)]
                           else old(db.records)
    {
      loading := true;
      errors := [];
      var data := ToRequest(formData);
      var result := FormValidation.ValidateRequestForm(data);
      if !result.isValid {
        errors := result.errors;
        loading := false;
        submitted := None;
        return;
      }
      var out := SubmitRequestForm(db, env, data, Notary, submittedAt, now, timestamp, post, parse);
      submitted := Some(out);
      if out == Hung {
        // The awaited promise never settles: the `finally` block never runs.
        return;
      }
      if out.Returned? && out.response.success {
        success := true;
        formData := EmptyForm;
      }
      loading := false;
    }
  }
}
