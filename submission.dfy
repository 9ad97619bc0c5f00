/**
  The `POST /api/leads` handler (src/index.js, lines 28-85) as a function from
  a payload and the service state to a response and the new state, with the
  handler's promises stated as lemmas about it.
*/
module Submission {
  import opened Wrappers
  import opened Leads

  /**
    What the handler can change: the leads in the store, the log of dispatched
    notifications, and the log of notifications whose detached promise
    rejected (what the `.catch` logger records).
  */
  datatype State = State(store: seq<Lead>, notified: seq<Lead>, notifyFailures: seq<Lead>)

  datatype Outcome = Outcome(response: Response, state: State)

  /** The response body of a successful submission of `lead`. */
  function CreatedResponse(lead: Lead): Response {
    Response(201, CreatedBody(CREATED_MESSAGE, LeadSummary(lead.id, lead.name, lead.createdAt)))
  }

  /**
    One submission. `createFails` says whether the store's create rejects;
    `id` and `createdAt` are what the store generates when it does not;
    `notifyFails` is the eventual outcome of the detached notification.
  */
  function HandleSubmit(p: Payload, st: State, createFails: bool, notifyFails: bool,
                        id: nat, createdAt: int): (o: Outcome)
    ensures o.response.status in {201, 400, 500}
    ensures o.response.body.Success() <==> o.response.status == 201
    // the store is either unchanged or grows by exactly one lead at its end
    ensures o.state.store == st.store
            || (|o.state.store| == |st.store| + 1 && o.state.store[..|st.store|] == st.store)
  {
    match Validate(p)
    case Err(e) => Outcome(Response(400, ErrorBody(e)), st)
    case Ok(d) =>
      if createFails then Outcome(Response(500, ErrorBody(SUBMIT_FAILED_ERROR)), st)
      else
        var lead := Persist(d, id, createdAt);
        var failures := if notifyFails then st.notifyFailures + [lead] else st.notifyFailures;
        Outcome(CreatedResponse(lead), State(st.store + [lead], st.notified + [lead], failures))
  }

  /**
    A missing or empty required field gives 400 with the missing-fields message
    and changes nothing, whatever the source is: the required-field check wins
    over the source check.
  */
  lemma MissingFieldsRejected(p: Payload, st: State, createFails: bool, notifyFails: bool,
                              id: nat, createdAt: int)
    requires !Truthy(p.name) || !Truthy(p.email) || !Truthy(p.phone) || !Truthy(p.source)
    ensures var o := HandleSubmit(p, st, createFails, notifyFails, id, createdAt);
            o.response == Response(400, ErrorBody(MISSING_FIELDS_ERROR)) && !o.response.body.Success()
            && o.state == st
  {
  }

  /** A payload without `phone` and with the source "newsletter" gets the missing-fields error. */
  lemma MissingPhoneWithNewsletterSource(st: State)
    ensures var p := Payload(Some("Jo"), Some("jo@x.com"), None, None, None, None, Some("newsletter"));
            HandleSubmit(p, st, false, false, 1, 0).response == Response(400, ErrorBody(MISSING_FIELDS_ERROR))
  {
  }

  /** With the required fields present, a source other than "contact" or "hero" gives 400 and changes nothing. */
  lemma InvalidSourceRejected(p: Payload, st: State, createFails: bool, notifyFails: bool,
                              id: nat, createdAt: int)
    requires RequiredPresent(p)
    requires p.source.value != "contact" && p.source.value != "hero"
    ensures var o := HandleSubmit(p, st, createFails, notifyFails, id, createdAt);
            o.response == Response(400, ErrorBody(INVALID_SOURCE_ERROR)) && o.state == st
  {
  }

  /** A 400 response happens exactly when validation fails, and then nothing is stored or notified. */
  lemma BadRequestIffInvalid(p: Payload, st: State, createFails: bool, notifyFails: bool,
                             id: nat, createdAt: int)
    ensures var o := HandleSubmit(p, st, createFails, notifyFails, id, createdAt);
            (o.response.status == 400 <==> !(RequiredPresent(p) && ValidSource(p.source.value)))
            && (o.response.status == 400 ==> o.state == st)
  {
  }

  /**
    A valid payload whose create succeeds appends exactly one lead, carrying the
    required fields as submitted and each optional field as given, or null when
    absent or empty; the same lead is dispatched to the notifier.
  */
  lemma ValidSubmissionStoresOneLead(p: Payload, st: State, notifyFails: bool, id: nat, createdAt: int)
    requires RequiredPresent(p) && ValidSource(p.source.value)
    ensures var o := HandleSubmit(p, st, false, notifyFails, id, createdAt);
            |o.state.store| == |st.store| + 1 && o.state.store[..|st.store|] == st.store
            && var lead := o.state.store[|st.store|];
            && lead.id == id && lead.createdAt == createdAt
            && Some(lead.name) == p.name && Some(lead.email) == p.email
            && Some(lead.phone) == p.phone && Some(lead.source) == p.source
            && lead.company == (if p.company == Some("") then None else p.company)
            && lead.message == (if p.message == Some("") then None else p.message)
            && lead.demo == (if p.demo == Some("") then None else p.demo)
            && WellFormed(lead)
            && o.state.notified == st.notified + [lead]
  {
  }

  /** A 201 response carries `success: true` and echoes exactly the stored lead's id, name and createdAt. */
  lemma CreatedEchoesStoredLead(p: Payload, st: State, createFails: bool, notifyFails: bool,
                                id: nat, createdAt: int)
    ensures var o := HandleSubmit(p, st, createFails, notifyFails, id, createdAt);
            o.response.status == 201 <==> (RequiredPresent(p) && ValidSource(p.source.value) && !createFails)
    ensures var o := HandleSubmit(p, st, createFails, notifyFails, id, createdAt);
            o.response.status == 201 ==>
              var lead := o.state.store[|o.state.store| - 1];
              o.response.body.Success()
              && o.response.body == CreatedBody(CREATED_MESSAGE, LeadSummary(lead.id, lead.name, lead.createdAt))
              && lead.id == id && Some(lead.name) == p.name && lead.createdAt == createdAt
  {
  }

  /** A failing create gives 500 with the fixed message only, stores nothing and notifies nothing. */
  lemma CreateFailureIsServerError(p: Payload, st: State, notifyFails: bool, id: nat, createdAt: int)
    requires RequiredPresent(p) && ValidSource(p.source.value)
    ensures var o := HandleSubmit(p, st, true, notifyFails, id, createdAt);
            o.response == Response(500, ErrorBody(SUBMIT_FAILED_ERROR)) && o.state == st
  {
  }

  /**
    The notification is dispatched only for a lead the create has returned: every
    dispatch is of the lead just appended to the store, with its store-generated
    id and createdAt.
  */
  lemma NotifiesOnlyPersistedLead(p: Payload, st: State, createFails: bool, notifyFails: bool,
                                  id: nat, createdAt: int)
    ensures var o := HandleSubmit(p, st, createFails, notifyFails, id, createdAt);
            (o.state.notified == st.notified || o.state.notified == st.notified + [o.state.store[|o.state.store| - 1]])
            && (o.state.notified != st.notified <==> o.response.status == 201)
            && (o.state.notified != st.notified ==> o.state.store != st.store)
  {
  }

  /**
    The notifier's eventual failure reaches only its failure log: the response,
    the store and the dispatch log are the same whichever way it ends.
  */
  lemma NotificationFailureIsolated(p: Payload, st: State, createFails: bool, id: nat, createdAt: int)
    ensures var ok := HandleSubmit(p, st, createFails, false, id, createdAt);
            var failed := HandleSubmit(p, st, createFails, true, id, createdAt);
            ok.response == failed.response
            && ok.state.store == failed.state.store && ok.state.notified == failed.state.notified
  {
  }

  /** Every lead in the store satisfies the validation guarantees, and submissions keep it so. */
  lemma SubmitPreservesWellFormedStore(p: Payload, st: State, createFails: bool, notifyFails: bool,
                                       id: nat, createdAt: int)
    requires WellFormedStore(st.store)
    ensures WellFormedStore(HandleSubmit(p, st, createFails, notifyFails, id, createdAt).state.store)
  {
  }

  /** Concrete submission: a valid hero-form lead is created and echoed by name. */
  lemma HeroSubmissionCreated(st: State)
    ensures var p := Payload(Some("Jo"), Some("jo@x.com"), Some("123"), None, None, None, Some("hero"));
            var o := HandleSubmit(p, st, false, false, 7, 100);
            o.response.status == 201 && o.response.body.lead.name == "Jo"
            && o.state.store == st.store + [Lead(7, "Jo", "jo@x.com", "123", None, None, None, "hero", 100)]
  {
  }
}
