/**
  The entities of the lead-capture service: the submitted payload, the
  validated fields handed to the store, the stored lead, and the JSON
  responses; plus the validation of a payload (src/index.js, lines 30-59).
*/
module Leads {
  import opened Wrappers

  /** The request body of `POST /api/leads`. Every field may be absent. */
  datatype Payload = Payload(
    name: Option<string>,
    email: Option<string>,
    phone: Option<string>,
    company: Option<string>,
    message: Option<string>,
    demo: Option<string>,
    source: Option<string>)

  /** The `data` the handler gives to the store's create operation. */
  datatype LeadData = LeadData(
    name: string,
    email: string,
    phone: string,
    company: Option<string>,
    message: Option<string>,
    demo: Option<string>,
    source: string)

  /** A stored lead: the validated fields plus the `id` and `createdAt` the store generates. */
  datatype Lead = Lead(
    id: nat,
    name: string,
    email: string,
    phone: string,
    company: Option<string>,
    message: Option<string>,
    demo: Option<string>,
    source: string,
    createdAt: int)

  /** The `lead` object echoed by a successful submission. */
  datatype LeadSummary = LeadSummary(id: nat, name: string, createdAt: int)

  /** A JSON response body; `success` is true exactly for the first two shapes. */
  datatype Body =
    | CreatedBody(message: string, lead: LeadSummary)   // {success: true, message, lead}
    | LeadsBody(leads: seq<Lead>)                       // {success: true, leads}
    | ErrorBody(error: string)                          // {success: false, error}
  {
    predicate Success() { !ErrorBody? }
  }

  datatype Response = Response(status: nat, body: Body)

  const MISSING_FIELDS_ERROR := "Missing required fields: name, email, phone, and source are required"
  const INVALID_SOURCE_ERROR := "Source must be either \"contact\" or \"hero\""
  const SUBMIT_FAILED_ERROR := "Failed to submit lead. Please try again."
  const CREATED_MESSAGE := "Lead submitted successfully!"
  const FETCH_FAILED_ERROR := "Failed to fetch leads"

  /** JavaScript truthiness of an optional string: present and not empty. */
  predicate Truthy(o: Option<string>) {
    o.Some? && o.value != ""
  }

  /** The expression `x || null` on an optional string. */
  function OrNull(o: Option<string>): Option<string> {
    if Truthy(o) then o else None
  }

  /** The required-field check: name, email, phone and source are all truthy. */
  predicate RequiredPresent(p: Payload) {
    Truthy(p.name) && Truthy(p.email) && Truthy(p.phone) && Truthy(p.source)
  }

  /** The source check: membership in ['contact', 'hero'] under strict equality. */
  predicate ValidSource(s: string) {
    s == "contact" || s == "hero"
  }

  /**
    Validation and normalisation of a payload: the required-field check first,
    then the source check, then `|| null` on the optional fields.
  */
  function Validate(p: Payload): (r: Result<LeadData, string>)
    // a missing or empty required field is reported first, whatever the source is
    ensures (p.name.None? || p.name == Some("") || p.email.None? || p.email == Some("")
             || p.phone.None? || p.phone == Some("") || p.source.None? || p.source == Some(""))
            ==> r == Err(MISSING_FIELDS_ERROR)
    // with every required field present, any source other than the two tags is refused
    ensures RequiredPresent(p) && p.source.value != "contact" && p.source.value != "hero"
            ==> r == Err(INVALID_SOURCE_ERROR)
    // validation succeeds exactly when both checks pass
    ensures r.Ok? <==> RequiredPresent(p) && ValidSource(p.source.value)
    // the errors are the two fixed messages only
    ensures r.Err? ==> r.error in {MISSING_FIELDS_ERROR, INVALID_SOURCE_ERROR}
    // required fields are passed on as submitted
    ensures r.Ok? ==> Some(r.value.name) == p.name && Some(r.value.email) == p.email
                      && Some(r.value.phone) == p.phone && Some(r.value.source) == p.source
    // an absent or empty optional field becomes null; any other value is kept
    ensures r.Ok? ==> r.value.company == (if p.company == Some("") then None else p.company)
    ensures r.Ok? ==> r.value.message == (if p.message == Some("") then None else p.message)
    ensures r.Ok? ==> r.value.demo == (if p.demo == Some("") then None else p.demo)
    ensures r.Ok? ==> WellFormedData(r.value)
  {
    if !RequiredPresent(p) then Err(MISSING_FIELDS_ERROR)
    else if !ValidSource(p.source.value) then Err(INVALID_SOURCE_ERROR)
    else Ok(LeadData(p.name.value, p.email.value, p.phone.value,
                     OrNull(p.company), OrNull(p.message), OrNull(p.demo),
                     p.source.value))
  }

  /** What validation guarantees of the fields it passes to the store. */
  predicate WellFormedData(d: LeadData) {
    d.name != "" && d.email != "" && d.phone != "" && ValidSource(d.source)
    && d.company != Some("") && d.message != Some("") && d.demo != Some("")
  }

  /** The record the store returns from a successful create. */
  function Persist(d: LeadData, id: nat, createdAt: int): Lead {
    Lead(id, d.name, d.email, d.phone, d.company, d.message, d.demo, d.source, createdAt)
  }

  /** What every lead stored through the submission handler satisfies. */
  predicate WellFormed(l: Lead) {
    l.name != "" && l.email != "" && l.phone != "" && ValidSource(l.source)
    && l.company != Some("") && l.message != Some("") && l.demo != Some("")
  }

  predicate WellFormedStore(store: seq<Lead>) {
    forall i :: 0 <= i < |store| ==> WellFormed(store[i])
  }
}
