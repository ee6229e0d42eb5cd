/**
 * The request-form submission service (src/services/formSubmissionService.ts): build
 * the payload, POST it, and when that fails in any way save it in the IndexedDB store
 * for the service worker's background sync.
 *
 * The clock readings (`Date.now()` and two `new Date().toISOString()` calls), the
 * outcome of the POST and the JSON parser are parameters.
 */
module FormSubmission {
  import opened Options
  import opened JsString
  import opened FetchApi
  import opened PendingStore
  import opened FormValidation
  import ServiceWorker

  datatype FormType = Notary | Courier | Inquiry {
    function Name(): string {
      match this
      case Notary => "notary"
      case Courier => "courier"
      case Inquiry => "inquiry"
    }
  }

  /** `formatted`: the form data with the phone formatted, plus the form type and the submission time. */
  datatype Payload = Payload(form: RequestFormData, formType: FormType, submittedAt: string)

  /** `{ success, message, id? }`. */
  datatype SubmissionResponse = SubmissionResponse(success: bool, message: string, id: Option<string>)

  /** What `await response.json()` gives: a value whose `id` is read, or a failure (bad JSON, or a value with no properties such as `null`). */
  datatype JsonBody = Malformed | Parsed(id: Option<string>)

  /** How `savePendingSubmission`'s promise ends; it never settles when the store is missing. */
  datatype SaveOutcome = Saved | SaveRejected | NeverSettles

  /** How `submitRequestForm`'s promise ends. */
  datatype SubmitOutcome = Returned(response: SubmissionResponse) | Rejected | Hung

  const DefaultApiBaseUrl: string := "http://localhost:3000/api"
  const SuccessMessage: string := "Form submitted successfully"
  const OfflineMessage: string := "Submission saved for offline sync. Will submit when connection restored."

  /** `import.meta.env.VITE_API_BASE_URL || 'http://localhost:3000/api'`: an unset or empty variable falls back to the default. */
  function ApiBaseUrl(env: Option<string>): (base: string)
    ensures env.Some? && env.value != "" ==> base == env.value
    ensures env.None? || env.value == "" ==> base == DefaultApiBaseUrl
    ensures base != ""
  {
    if env.Some? && env.value != "" then env.value else DefaultApiBaseUrl
  }

  /** The endpoint the form is posted to: the base, then `/request-form` and nothing else. */
  function SubmitUrl(env: Option<string>): (url: string)
    ensures StartsWith(url, ApiBaseUrl(env)) && EndsWith(url, "/request-form")
    ensures |url| == |ApiBaseUrl(env)| + |"/request-form"|
  {
    ApiBaseUrl(env) + "/request-form"
  }

  /** The object spread `{ ...formData, phone: formatPhoneNumber(formData.phone), formType, submittedAt }`. */
  function FormatPayload(data: RequestFormData, formType: FormType, submittedAt: string): Payload {
    Payload(data.(phone := FormatPhoneNumber(data.phone)), formType, submittedAt)
  }

  /** The payload differs from the form data in the phone only, and the phone keeps its digits. */
  lemma FormatPayloadSpec(data: RequestFormData, formType: FormType, submittedAt: string)
    ensures var p := FormatPayload(data, formType, submittedAt);
      p.form.fullName == data.fullName && p.form.email == data.email && p.form.serviceType == data.serviceType
      && p.form.documentType == data.documentType && p.form.appointmentDateTime == data.appointmentDateTime
      && p.form.location == data.location && p.form.additionalNotes == data.additionalNotes
      && p.form.termsAccepted == data.termsAccepted
      && Digits(p.form.phone) == Digits(data.phone)
      && (!Formattable(data.phone) ==> p.form == data)
  {
  }

  /** Formatting the phone never changes how the phone validates. */
  lemma FormatPhoneKeepsValidity(phone: string)
    ensures Blank(FormatPhoneNumber(phone)) <==> Blank(phone)
    ensures ValidatePhone(FormatPhoneNumber(phone)) <==> ValidatePhone(phone)
  {
    var r := FormatPhoneNumber(phone);
    if Formattable(phone) {
      BlankIsAllWhiteSpace(phone);
      BlankIsAllWhiteSpace(r);
      if AllWhiteSpace(phone) {
        WhiteSpaceHasNoDigits(phone);
      }
      if AllWhiteSpace(r) {
        WhiteSpaceHasNoDigits(r);
      }
    }
  }

  /** The payload's form data gets exactly the validation errors the form data got. */
  lemma FormatPayloadKeepsErrors(data: RequestFormData, formType: FormType, submittedAt: string)
    ensures ExpectedErrors(FormatPayload(data, formType, submittedAt).form) == ExpectedErrors(data)
  {
    var p := FormatPayload(data, formType, submittedAt).form;
    FormatPhoneKeepsValidity(data.phone);
    forall f: Field
      ensures FieldCheck(p, f) == FieldCheck(data, f)
    {
    }
    CollectErrorsAgree(p, data, FieldOrder);
  }

  /** The server took the form: an ok status and a body that parses. */
  predicate Accepted(outcome: FetchOutcome, parse: string -> JsonBody) {
    outcome.Responded? && outcome.response.Ok() && parse(outcome.response.body).Parsed?
  }

  /**
   * How `submitRequestForm` ends, given the database before the call: an accepted POST
   * returns success; otherwise a database that exists without the store hangs, a taken
   * key rejects, and a successful save returns the offline message.
   */
  function SubmitOutcomeOf(created: bool, hasStore: bool, keys: set<string>, now: nat,
                           outcome: FetchOutcome, parse: string -> JsonBody): SubmitOutcome
  {
    if Accepted(outcome, parse) then Returned(SubmissionResponse(true, SuccessMessage, parse(outcome.response.body).id))
    else if created && !hasStore then Hung
    else if RecordKey(now) in keys then Rejected
    else Returned(SubmissionResponse(false, OfflineMessage, None))
  }

  /** Only an accepted POST reports success; the offline message never carries an id. */
  lemma SubmitOutcomeSuccess(created: bool, hasStore: bool, keys: set<string>, now: nat,
                             outcome: FetchOutcome, parse: string -> JsonBody)
    ensures var out := SubmitOutcomeOf(created, hasStore, keys, now, outcome, parse);
      (out.Returned? && out.response.success <==> Accepted(outcome, parse))
      && (out.Returned? && !out.response.success ==> out.response.id.None? && out.response.message == OfflineMessage)
      && (out == Hung ==> !Accepted(outcome, parse) && created && !hasStore)
  {
  }

  /** The key `Date.now().toString()` of a record saved at `now` milliseconds. */
  function RecordKey(now: nat): (key: string)
    ensures key != "" && AllDigits(key)
  {
    NatToString(now)
  }

  /** Saves at two different clock readings never compete for a key. */
  lemma RecordKeysDiffer(m: nat, n: nat)
    requires m != n
    ensures RecordKey(m) != RecordKey(n)
  {
    NatToStringInjective(m, n);
  }

  /**
   * `savePendingSubmission(formData)`: open the database with an upgrade handler, then
   * add `{ id: Date.now().toString(), data, timestamp }` in a read-write transaction.
   * A taken key fails the transaction; a missing store throws inside `onsuccess`, so the
   * promise never settles.
   */
  method SavePendingSubmission(db: Database<Payload>, data: Payload, now: nat, timestamp: string)
    returns (out: SaveOutcome)
    requires db.Valid()
    modifies db
    ensures db.Valid() && db.created
    ensures db.hasStore == (old(db.hasStore) || !old(db.created))
    ensures out == NeverSettles <==> !db.hasStore
    ensures out == Saved <==> db.hasStore && RecordKey(now) !in old(db.records)
    ensures out == Saved ==> db.records == old(db.records)[RecordKey(now) := PendingRecord(RecordKey(now), data, timestamp)]
    ensures out != Saved ==> db.records == old(db.records)
  {
    db.Open(true);
    if !db.hasStore {
      out := NeverSettles;
      return;
    }
    var added := db.Add(PendingRecord(RecordKey(now), data, timestamp));
    out := if added then Saved else SaveRejected;
  }

  /**
   * `submitRequestForm(formData, formType)`: POST the payload to the endpoint; an
   * accepted POST returns success with the server's id; any failure (network error,
   * error status, unreadable body) saves the payload and returns the offline message,
   * unless the save itself rejects or hangs.
   *
   * The network is `post`: the outcome of POSTing a payload, as JSON, to a URL.
   */
  method SubmitRequestForm(db: Database<Payload>, env: Option<string>, formData: RequestFormData,
                           formType: FormType, submittedAt: string, now: nat, timestamp: string,
                           post: (string, Payload) -> FetchOutcome, parse: string -> JsonBody)
    returns (out: SubmitOutcome)
    requires db.Valid()
    modifies db
    ensures db.Valid()
    ensures var outcome := post(SubmitUrl(env), FormatPayload(formData, formType, submittedAt));
      out == SubmitOutcomeOf(old(db.created), old(db.hasStore), old(db.records).Keys, now, outcome, parse)
    ensures var outcome := post(SubmitUrl(env), FormatPayload(formData, formType, submittedAt));
      Accepted(outcome, parse) ==>
      out == Returned(SubmissionResponse(true, SuccessMessage, parse(outcome.response.body).id))
      && db.records == old(db.records) && db.created == old(db.created) && db.hasStore == old(db.hasStore)
    ensures var outcome := post(SubmitUrl(env), FormatPayload(formData, formType, submittedAt));
      !Accepted(outcome, parse) ==>
      var key := RecordKey(now);
      var saved := db.hasStore && key !in old(db.records);
      db.created && db.hasStore == (old(db.hasStore) || !old(db.created))
      && (saved ==> out == Returned(SubmissionResponse(false, OfflineMessage, None))
                    && db.records == old(db.records)[key := PendingRecord(key, FormatPayload(formData, formType, submittedAt), timestamp)])
      && (!saved ==> db.records == old(db.records))
      && (out == Hung <==> !db.hasStore)
      && (out == Rejected <==> db.hasStore && key in old(db.records))
  {
    var payload := FormatPayload(formData, formType, submittedAt);
    var outcome := post(SubmitUrl(env), payload);
    if Accepted(outcome, parse) {
      out := Returned(SubmissionResponse(true, SuccessMessage, parse(outcome.response.body).id));
      return;
    }
    var saved := SavePendingSubmission(db, payload, now, timestamp);
    match saved
    case Saved => out := Returned(SubmissionResponse(false, OfflineMessage, None));
    case SaveRejected => out := Rejected;
    case NeverSettles => out := Hung;
  }

  // ---------------------------------------------------------------------------
  // The page and the service worker sharing the database
  // ---------------------------------------------------------------------------

  /**
   * The service worker opens `bridgenotary` at version 1 without an upgrade handler. When
   * its sync runs before the page has ever saved, it creates the database with no store,
   * the page's upgrade handler never runs again, and every later save hangs.
   */
  method SaveAfterFirstSync(origin: string, replay: PendingRecord<Payload> -> FetchOutcome,
                            data: Payload, now: nat, timestamp: string)
    returns (out: SaveOutcome)
    ensures out == NeverSettles
  {
    var db := new Database<Payload>();
    var worker := new ServiceWorker.Worker(origin);
    worker.SyncFormSubmissions(db, replay);
    out := SavePendingSubmission(db, data, now, timestamp);
  }

  /** A first save creates the store and the record; the next sync delivers it and deletes it, unless the network fails. */
  method SaveThenSync(origin: string, replay: PendingRecord<Payload> -> FetchOutcome,
                      data: Payload, now: nat, timestamp: string)
    returns (out: SaveOutcome, left: map<string, PendingRecord<Payload>>)
    ensures out == Saved
    ensures var rec := PendingRecord(RecordKey(now), data, timestamp);
      left == if replay(rec).NetworkError? then map[RecordKey(now) := rec] else map[]
  {
    var db := new Database<Payload>();
    out := SavePendingSubmission(db, data, now, timestamp);
    var worker := new ServiceWorker.Worker(origin);
    worker.SyncFormSubmissions(db, replay);
    left := db.records;
  }
}
