# Lead-capture service: a Dafny model of its two lead handlers

The service accepts contact-form and hero-form submissions at `POST /api/leads`.
It checks that `name`, `email`, `phone` and `source` are present and that
`source` is `"contact"` or `"hero"`, stores the lead, dispatches an email
notification without waiting for it, and answers 201, 400 or 500.
`GET /api/leads` returns every stored lead, newest first.

The model is organised as follows:

- `wrappers.dfy` (`Wrappers`): `Option` for JSON fields that may be absent or
  null, and `Result`.
- `leads.dfy` (`Leads`): the entities. These are the payload, the validated
  fields given to the store, the stored `Lead`, and the response shapes
  `{success, message, lead}`, `{success, leads}` and `{success: false, error}`.
  The module also holds the five fixed messages and the validation. JavaScript
  truthiness of an optional string (`!x`, `x || null`) reads as "present and
  not the empty string".
- `submission.dfy` (`Submission`): the submission handler as a pure function
  `HandleSubmit`. It maps a payload and the state (store rows, dispatch log,
  failed-notification log) to a response and the new state. Each of the
  handler's promises is a lemma about it.
- `listing.dfy` (`Listing`): the listing handler. `NewestFirst` is a reference
  definition of the database's `createdAt` descending order: an insertion sort
  proved to produce a sorted permutation. The file also has lemmas about the
  order of submissions.
- `service.dfy` (`Service`): class `LeadService` holds the shared store and the
  notifier's logs. Its `Submit` method performs the handler's steps in the
  source's order and is proved equal to `HandleSubmit`. Its `List` method is
  the listing handler.

The following come from outside and are parameters:

- The database's behaviour: whether `create` or `findMany` rejects, and the
  `id` and `createdAt` it generates.
- The eventual outcome of the detached notification.

## Model

| member | source | states |
|---|---|---|
| Leads.Validate | src/index.js:30-59 | A missing or empty required field yields the missing-fields error whatever the source is. With all four present, any source other than "contact" or "hero" yields the source error. Validation succeeds exactly when both checks pass. Required fields are passed on as submitted. An absent or empty company, message or demo becomes null and any other value is kept, so no empty string reaches the store. |
| Submission.HandleSubmit | src/index.js:28-85 | The status is always 201, 400 or 500, and `success` is true exactly on 201. The store is either unchanged or has exactly one lead appended at its end. |
| Submission.MissingFieldsRejected | src/index.js:33-46 | An absent or empty name, email, phone or source gives 400, `success: false` and the missing-fields message, whatever the source is. So the required-field check wins over the source check. Store and notification logs are unchanged. |
| Submission.MissingPhoneWithNewsletterSource | src/index.js:33-46 | A payload without phone and with source "newsletter" gets the missing-fields error, not the source error. |
| Submission.InvalidSourceRejected | src/index.js:41-46 | With every required field present, a source other than "contact" or "hero" gives 400 with the source message. No create happens and nothing changes. |
| Submission.BadRequestIffInvalid | src/index.js:33-46 | The response is 400 exactly when validation fails, and a 400 leaves the whole state unchanged. |
| Submission.ValidSubmissionStoresOneLead | src/index.js:49-59 | A valid payload whose create succeeds appends exactly one well-formed lead. The lead has the store's id and createdAt and the submitted name, email, phone and source. Each optional field is null when absent or empty and as given otherwise. That same lead is dispatched. |
| Submission.CreatedEchoesStoredLead | src/index.js:68-76 | The status is 201 exactly when the payload is valid and the create succeeds. The body then has `success: true`, the fixed message, and exactly the stored lead's id, name and createdAt. |
| Submission.CreateFailureIsServerError | src/index.js:49-84 | A failing create gives 500 with only the fixed generic message. Nothing is stored or dispatched. |
| Submission.NotifiesOnlyPersistedLead | src/index.js:49-66 | A notification is dispatched exactly on a 201, and only for the lead the create just appended, which already carries its generated id and createdAt. |
| Submission.NotificationFailureIsolated | src/index.js:64-68 | A failing notification leaves the response, the store and the dispatch log exactly as a successful one would. Only the failure log differs. |
| Submission.SubmitPreservesWellFormedStore | src/index.js:33-59 | Each stored lead has non-empty name, email and phone, a valid source and no empty optional string. Every submission keeps this true. |
| Submission.HeroSubmissionCreated | src/index.js:28-76 | Submitting Jo / jo@x.com / 123 / hero gives 201 with `lead.name == "Jo"` and stores exactly that lead with null optional fields. |
| Listing.NewestFirst | src/index.js:90-92 | The result is ordered by createdAt descending and is a permutation of the stored leads. |
| Listing.ListLeads | src/index.js:88-98 | When the store succeeds, the result is 200 with `success: true` and the stored leads newest first, as a permutation. When it fails, the result is 500 with only the fixed message. |
| Listing.InsertOldest | src/index.js:90-92 | A lead no newer than every lead of an ordered listing is listed last. |
| Listing.NewestFirstOfChronological | src/index.js:90-92 | When leads were stored with non-decreasing timestamps, the reference order `NewestFirst` is exactly the insertion order reversed. |
| Listing.SubmitKeepsChronological | src/index.js:49 | A submission stamped no earlier than every stored lead keeps the store in timestamp order. |
| Listing.ListingOfTwoIsFixed | src/index.js:90-92 | Two leads with strictly increasing timestamps have exactly one listing ordered by createdAt descending: the later lead, then the earlier one. |
| Listing.TwoSubmissionsListedNewestFirst | src/index.js:28-98 | After two valid submissions into an empty store, the second stamped strictly later, every listing ordered by createdAt descending holds both leads with the second first. The listing `ListLeads` returns is that one. |
| Service.LeadService.constructor | src/index.js:8 | The service starts over the rows already in the database, with empty notification logs and its invariant established. |
| Service.LeadService.Submit | src/index.js:28-85 | Runs the handler's steps in order: required-field check, source check, normalisation, create, dispatch, response. The response and new state equal `HandleSubmit` on the old state. It keeps the invariant that the dispatch log is the newest part of the store and that only dispatched leads fail. |
| Service.LeadService.List | src/index.js:88-98 | When the store succeeds, returns 200 with the stored leads as a newest-first permutation. When it fails, returns 500 with the fixed message. |

## Left out

- Express setup, CORS, JSON body parsing, the two health endpoints, `app.listen`, environment loading and the serverless export (src/index.js:1-25, 100-109) are framework wiring.
- The database's id and timestamp generation and its execution of `orderBy` are not modelled. They come from Prisma, which is not part of this model. Ids and timestamps are parameters. `NewestFirst` is one admissible ordering. Its order among leads with equal `createdAt` (later insertion first) is a choice, since the database does not fix one. `List` and `ListLeads` promise only "sorted descending and a permutation".
- src/email.js (`sendLeadNotification`) is not part of this model. A dispatch is recorded in the `notified` log. Its eventual failure is recorded in the `notifyFailures` log, standing for the `.catch` logger. A synchronous throw from it, which would turn a stored lead into a 500, is not modelled.
- Asynchronous scheduling is not modelled. This includes the time at which the detached notification settles and interleavings between concurrent requests. Each request is one atomic step.
- `console.log` / `console.error` output is not modelled, except the failed-notification log above.
- Payload fields are optional strings. JavaScript truthiness of numbers, booleans, arrays and objects in the body is not modelled.
- Unique ids are the database's responsibility, and the model does not enforce them.
- Listing.NewestFirstOfChronological: this is stated of the reference order `NewestFirst` only. The code's `orderBy` is non-strict (`>=`) and allows two leads with the same timestamp in either order. So the database's listing is pinned down as reverse insertion order only when timestamps strictly increase, as `Listing.ListingOfTwoIsFixed` shows for two leads. With equal timestamps, reverse insertion order is just the tie-break `NewestFirst` happens to choose.
