/**
  The lead endpoints as one object over the store they share: the store's rows,
  the notifier's dispatch log and the log of failed notifications, updated step
  by step the way the handlers of src/index.js do.
*/
module Service {
  import opened Leads
  import opened Submission
  import opened Listing

  class LeadService {
    /** The leads persisted in the store, in insertion order. */
    var store: seq<Lead>
    /** The leads handed to the notifier by this process, in dispatch order. */
    var notified: seq<Lead>
    /** The dispatched leads whose notification ended in failure and was logged. */
    var notifyFailures: seq<Lead>

    function CurrentState(): State
      reads this
    {
      State(store, notified, notifyFailures)
    }

    /**
      The dispatch log is the most recent part of the store (every lead this
      process stored was dispatched once, in order), and only dispatched leads
      can fail. This is the class-level form of "only persisted leads are
      notified": no dispatched lead is missing from the store.
    */
    ghost predicate Valid()
      reads this
    {
      |notified| <= |store| && store[|store| - |notified|..] == notified
      && forall l :: l in notifyFailures ==> l in notified
    }

    /** A service over a store that already holds `existing`, with nothing dispatched yet. */
    constructor (existing: seq<Lead>)
      ensures Valid()
      ensures store == existing && notified == [] && notifyFailures == []
    {
      store := existing;
      notified := [];
      notifyFailures := [];
    }

    /**
      `POST /api/leads`: validate, create, dispatch the notification, respond.
      `createFails` says whether the store's create rejects, `id` and
      `createdAt` are what it generates otherwise, and `notifyFails` is how the
      detached notification eventually ends.
    */
    method Submit(p: Payload, createFails: bool, notifyFails: bool, id: nat, createdAt: int)
      returns (r: Response)
      requires Valid()
      modifies this
      ensures Valid()
      ensures Outcome(r, CurrentState())
              == HandleSubmit(p, old(CurrentState()), createFails, notifyFails, id, createdAt)
    {
      if !Truthy(p.name) || !Truthy(p.email) || !Truthy(p.phone) || !Truthy(p.source) {
        return Response(400, ErrorBody(MISSING_FIELDS_ERROR));
      }
      if !ValidSource(p.source.value) {
        return Response(400, ErrorBody(INVALID_SOURCE_ERROR));
      }
      var data := LeadData(p.name.value, p.email.value, p.phone.value,
                           OrNull(p.company), OrNull(p.message), OrNull(p.demo),
                           p.source.value);
      if createFails {
        return Response(500, ErrorBody(SUBMIT_FAILED_ERROR));
      }
      var lead := Persist(data, id, createdAt);
      store := store + [lead];
      notified := notified + [lead];
      if notifyFails {
        notifyFailures := notifyFailures + [lead];
      }
      r := CreatedResponse(lead);
    }

    /** `GET /api/leads`: all stored leads newest first, or 500 when the store's query rejects. */
    method List(fails: bool) returns (r: Response)
      ensures fails ==> r == Response(500, ErrorBody(FETCH_FAILED_ERROR))
      ensures !fails ==> r.status == 200 && r.body.LeadsBody?
      ensures !fails ==> NewestFirstOrdered(r.body.leads) && multiset(r.body.leads) == multiset(store)
    {
      if fails {
        return Response(500, ErrorBody(FETCH_FAILED_ERROR));
      }
      var leads := NewestFirst(store);
      r := Response(200, LeadsBody(leads));
    }
  }
}
