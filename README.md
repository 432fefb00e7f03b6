# foodshare backend — a Dafny model

This project models the REST backend of foodshare, a food-sharing platform
where donors offer surplus food, recipients request it and admins approve the
handover, alongside a food-item inventory and a volunteer registry. Its core is
four Mongoose schemas (Donation, Request, FoodItem, Volunteer) and the four
controllers that read and write them.

The model represents:

- **Documents** as datatypes: `DonationSchema.Donation`, `RequestSchema.Request`,
  `FoodItemSchema.FoodItem` and `VolunteerSchema.Volunteer`.
  - Each one's `Valid` predicate is what its schema's validators guarantee of a saved document.
  - Each schema's `Create` function is `Model.create` (for Volunteer, `new
    Volunteer(body).save()`). The Donation and Request schemas also have an
    `Update` function, which is `findByIdAndUpdate(..., {runValidators: true})`.
    These functions apply defaults, enum parsing and the required validators.
    They return `None` where Mongoose rejects the document.
- **Request bodies** as datatypes of optional paths.
  - JavaScript truthiness is written out: an absent path or `""` is falsy,
    and so is a food-item quantity of `0`.
- **The database**: the class `Store.Db`.
  - It holds one map per collection, keyed by document id.
  - `nextId` supplies fresh ObjectIds.
  - `Valid()` says every stored document passed its validators, and that
    volunteer emails are unique, as the unique index demands.
- **Handlers that write** are methods on the store:
  - `createDonation`, `updateDonation`, `deleteDonation` and `requestDonation`;
  - `createRequest`, `updateRequest` and `deleteRequest`;
  - `createFoodItem` and `collectFoodItem`;
  - `createVolunteer`, `addReward` and `addStars`.

  Each method states its whole outcome and its whole new state, and keeps `Valid()`.
- **The ownership guard** is the one predicate `Ownership.CanMutate`: the
  document's owner or any admin may proceed. It is the inline check at
  donation.Controller.js:68 and :94 and request.Controller.js:40, :80 and :114.
  At request.Controller.js:40, as written, only the admin clause can pass,
  because the recipient has been populated before the comparison (see
  "## Findings").
  The predicate itself carries no contract. What a refusal means, 401 with the
  store unchanged, is proved in the `ensures` of `UpdateDonation`,
  `DeleteDonation`, `UpdateRequest` and `DeleteRequest`; `GetRequest` states
  the 401 for the read.
- **Handlers that only read** are functions of a collection:
  - the donation listings and lookup;
  - `getMyRequests` and `getRequest`;
  - `getFoodItems` and `getFoodStats`;
  - `getAllVolunteers`.
- **Outcomes**: a handler's answer is an `Outcome` that carries the HTTP code
  the controller attaches:
  - 200 (`Ok`) or 201 (`Created`);
  - 404 for an unknown id;
  - 401 for a caller who is neither the owner nor an admin;
  - 400 for the handler-level refusals.
  - A document the schema refuses is `ValidationFailed`, which reaches the
    error middleware at `server.js:60-63` and becomes 500.
    That middleware also rewrites the controllers' own 4xx codes to 500.
    The model keeps the controller's code, because that is the code
    each handler states.
- **Inputs from outside**:
  - the authenticated user (`req.user`) is a `Caller` parameter, with id, role and address;
  - the current time is a `now` parameter;
  - ids and timestamps are integers (milliseconds for dates).

The donation lifecycle runs as follows.
1. `requestDonation` reserves an available donation for the caller.
2. An admin's approval in `updateRequest` distributes it.
3. `deleteRequest` releases the linked donation back to available, whatever its state.

The intended invariant says a donation has a recipient exactly when it is not
available (`DonationSchema.AllRecipientsMatch`).
- `requestDonation` and `deleteRequest` preserve it.
- `createDonation` and `updateDonation` can break it (lemmas below).
- So can an approval of a request whose donation has no recipient (`DistributeKeepsLifecycle`).

## Model

| member | source | states |
|---|---|---|
| Base.Failure.Code | donation.Controller.js:125-132 | unknown id 404, not the owner 401, every other handler refusal 400; only a schema refusal answers 500 |
| Base.Outcome.Code | donation.Controller.js:45-55 | 200 exactly for success, 201 exactly for a created document, at least 400 exactly for a failure |
| DonationSchema.ParseStatus | Donation.js:23-27 | a string is accepted exactly when it is one of the three enum names, and then names the parsed status |
| DonationSchema.ParseStatusName | Donation.js:23-27 | every status's name parses back to that status |
| DonationSchema.Create | Donation.js:3-41 | saved exactly when the five required paths are set and every set path passes its validator; the document holds the body's paths, status defaults to available, recipient and description stay unset unless given, createdAt is now |
| DonationSchema.Update | donation.Controller.js:72-75 | succeeds exactly when the paths the body sets pass their validators; set paths take the body's values, the others and createdAt keep theirs, validity is kept |
| DonationSchema.CreateAsBody | Donation.js:3-41 | creating from a valid donation's own paths at its createdAt gives the same donation back |
| DonationSchema.UpdateIdempotent | donation.Controller.js:72-75 | an empty body changes nothing, and applying an accepted body twice equals applying it once |
| DonationSchema.Reserve | donation.Controller.js:145-148 | the donation becomes reserved with the caller as recipient and every other field unchanged; the result matches the lifecycle invariant and validity is kept |
| DonationSchema.Distribute | request.Controller.js:85-90 | the donation becomes distributed with every other field unchanged; the result matches the lifecycle invariant exactly when a recipient was already recorded; validity is kept |
| DonationSchema.Release | request.Controller.js:118-124 | the donation becomes available with no recipient and every other field unchanged, matching the invariant; validity is kept |
| DonationSchema.ReleaseUndoesReserve | request.Controller.js:118-124 | deleting the request undoes a reservation of an available donation exactly |
| DonationSchema.ReleaseIsNotInverseOfDistribute | request.Controller.js:118-124 | after an approval, deleting the request returns the donation to the market, not to its reserved state |
| DonationSchema.CreateCanBreakLifecycle | donation.Controller.js:45-49 | a body with status reserved and no recipient is saved, and breaks the lifecycle invariant |
| DonationSchema.UpdateCanBreakLifecycle | donation.Controller.js:72-75 | setting a reserved donation's status to available leaves its recipient, breaking the invariant |
| RequestSchema.ParseStatus | Request.js:23-27 | a string is accepted exactly when it is one of the four enum names |
| RequestSchema.ParseStatusName | Request.js:23-27 | every status's name parses back to that status |
| RequestSchema.Create | Request.js:3-43 | saved exactly when the five required paths are set and pass their validators; status defaults to pending, the donation link stays unset unless given, both timestamps are now |
| RequestSchema.Update | request.Controller.js:92-95 | succeeds exactly when the set paths pass their validators; set paths are taken, the rest kept, updatedAt becomes now, validity is kept |
| RequestSchema.UpdateIdempotent | request.Controller.js:92-95 | an empty body only stamps updatedAt; an accepted body applied twice equals applying it once |
| FoodItemSchema.ParseCategory | FoodItem.js:9-21 | a string is accepted exactly when it names one of the seven categories |
| FoodItemSchema.ParseUnit | FoodItem.js:27-31 | a string is accepted exactly when it names one of the seven units |
| FoodItemSchema.ParseStatus | FoodItem.js:40-44 | a string is accepted exactly when it names one of the five statuses |
| FoodItemSchema.ParseNames | FoodItem.js:9-44 | every category, unit and status name parses back to itself |
| FoodItemSchema.LeadingSpace | FoodItem.js:4-8 | the length of the whitespace prefix, followed by a non-space |
| FoodItemSchema.TrailingSpace | FoodItem.js:4-8 | the length of the whitespace suffix, preceded by a non-space |
| FoodItemSchema.StripBoth | FoodItem.js:4-8 | prefix, remainder and suffix together account for the whole string |
| FoodItemSchema.StripBothSlice | FoodItem.js:4-8 | the stripped string is a slice of the input, with only spaces after it |
| FoodItemSchema.StripBothEnds | FoodItem.js:4-8 | the stripped string is empty exactly for all-space input and otherwise starts and ends with a non-space |
| FoodItemSchema.Trim | FoodItem.js:4-8 | `trim: true`: the result is the slice of the input between its leading and trailing spaces, empty exactly for an all-space string, and its ends are non-space |
| FoodItemSchema.TrimIdempotent | FoodItem.js:4-8 | trimming twice equals trimming once |
| FoodItemSchema.Create | FoodItem.js:3-68 | saved exactly when every validator passes after trimming the name; the item holds the trimmed name and the body's other paths, status defaults to available |
| FoodItemSchema.Collect | foodItem.Controller.js:104-107 | only the status changes, to collected; validity is kept |
| VolunteerSchema.Create | Volunteer.js:3-16 | saved exactly when all nine required strings are truthy; stars default to 0, rewards to the empty list, the other paths are the body's |
| VolunteerSchema.InsertKeepsEmailsUnique | Volunteer.js:5 | adding a volunteer whose email nobody holds keeps emails unique |
| VolunteerSchema.AddStars | volunteer.Controller.js:98-102 | `$inc`: stars grow by exactly the delta and nothing else changes |
| VolunteerSchema.AddReward | volunteer.Controller.js:70-74 | `$push`: the reward is appended at the end, earlier rewards and other paths unchanged |
| VolunteerSchema.StarsAccumulate | volunteer.Controller.js:96-102 | a run of star additions adds the sum of the deltas |
| VolunteerSchema.RewardsAppend | volunteer.Controller.js:68-74 | a run of rewards appends them in call order, with no deduplication |
| VolunteerSchema.LedgerExamples | volunteer.Controller.js:68-102 | 5 then 3 stars add 8; Gold then Silver lists both in that order |
| Listing.FirstExists | foodItem.Controller.js:39-41 | every non-empty set of documents has a first one in sort order |
| Listing.ConsInOrder | foodItem.Controller.js:39-41 | putting the first document before an ordered listing of the rest gives an ordered listing |
| Listing.SortBy | foodItem.Controller.js:39-41 | `.sort(...)`: each document exactly once, in non-decreasing key order |
| Store.Db.NewId | donation.Controller.js:49 | a fresh ObjectId is unused in every collection |
| Store.Db.RemoveFoodItem | FoodItem.js:70-74 | only the item is removed; the pre-remove hook's filter on the foodItem path matches no request, since requests have no such path, so every request stays |
| DonationController.GetAvailableDonations | donation.Controller.js:16-24 | exactly the available donations, unchanged |
| DonationController.GetDonation | donation.Controller.js:29-40 | the donation for a known id, 404 otherwise, with no ownership check |
| DonationController.GetMyDonations | donation.Controller.js:109-117 | exactly the caller's donations |
| DonationController.ListingsFollowLifecycle | donation.Controller.js:16-24 | a reservation takes the donation off the available listing, a release puts it back, and the donor's listing keeps it |
| DonationController.CreateDonation | donation.Controller.js:45-55 | the caller is the donor whatever the body says; the created donation is stored under a fresh id and nothing else changes, or the schema's refusal leaves the store unchanged |
| DonationController.UpdateDonation | donation.Controller.js:60-81 | 404 for an unknown id, 401 for a caller who is neither donor nor admin; a body that fails validation gives the schema's refusal; success exactly when the guard passes and the body validates, and then only that donation changes |
| DonationController.DeleteDonation | donation.Controller.js:86-104 | the same guard; on success only that donation is removed, and its requests stay |
| DonationController.RequestFor | donation.Controller.js:135-143 | the request body carries the donation's food, quantity and expiry, the caller as recipient with the caller's address, and status pending |
| DonationController.RequestDonation | donation.Controller.js:122-154 | 404 for an unknown id, 400 unless available; a caller without an address gets the schema's refusal; success exactly when available and the caller has an address; then a pending request linked to the donation is stored and the donation is reserved for the caller; the lifecycle invariant is kept |
| RequestController.GetMyRequests | request.Controller.js:17-25 | exactly the caller's requests |
| RequestController.GetRequest | request.Controller.js:30-48 | the intended guard: 404 for an unknown id, 401 unless recipient or admin, otherwise the request (the code as written refuses the recipient; see Findings) |
| RequestController.GetRequestAsWritten | request.Controller.js:30-42 | as written, the guard compares the populated recipient document with the caller's id and never matches: 404 for an unknown id, otherwise the request exactly for an admin and 401 for everyone else |
| RequestController.RecipientRefusedOwnRequest | request.Controller.js:31-41 | a recipient reading their own request is refused with 401 as written and served by the intended guard |
| RequestController.GetRequestDiffersOnlyForOwners | request.Controller.js:31-41 | the written and intended guards differ exactly for a non-admin caller who owns the request |
| RequestController.RequestData | request.Controller.js:52-59 | the renamed body paths, the caller as recipient, no status and no donation link |
| RequestController.CreateRequest | request.Controller.js:50-66 | a pending, unlinked request of the caller's is stored under a fresh id, or the schema's refusal leaves the store unchanged |
| RequestController.DistributeLinked | request.Controller.js:87-89 | only the linked donation, if it exists, becomes distributed; every other donation and validity are kept; with no link nothing changes (the intended write, see "## Findings") |
| RequestController.LeastId | request.Controller.js:87-89 | the id picked by an empty filter is in the set and no larger than any other |
| RequestController.DistributeLinkedAsWritten | request.Controller.js:85-89 | as written: the same ids; a linked request distributes exactly as the intended write; an unlinked request distributes some existing donation when there is one |
| RequestController.ApprovingUnlinkedRequestDistributesAnother | request.Controller.js:85-89 | approving a request made by `createRequest` (no donation link) turns an available donation into a distributed one as written, while the intended write leaves the donations unchanged |
| RequestController.ReleaseLinked | request.Controller.js:119-124 | only the linked donation, if it exists, is released; every other donation and validity are kept |
| RequestController.DistributeKeepsLifecycle | request.Controller.js:85-90 | an approval keeps the lifecycle invariant exactly when the linked donation already has a recipient |
| RequestController.ReleaseKeepsLifecycle | request.Controller.js:118-124 | releasing a linked donation keeps the lifecycle invariant |
| RequestController.UpdateRequest | request.Controller.js:72-101 | 404 or 401 with nothing changed; an admin's approval distributes the donation the request linked before the update, even when the body then fails validation; a valid body updates only that request |
| RequestController.DeleteRequest | request.Controller.js:106-132 | 404 or 401 with nothing changed; otherwise the linked donation is released whatever the request's status and the request is removed; the lifecycle invariant is kept |
| FoodItemController.Missing | foodItem.Controller.js:13-14 | exactly the falsy required fields, in their listed order |
| FoodItemController.MissingIsDistinct | foodItem.Controller.js:13-14 | the missing-field list has no repeats |
| FoodItemController.CheckIsStricterThanSchema | foodItem.Controller.js:13-18 | every body the schema admits passes the required-field check, except a quantity of 0, which the check reports as the one missing field |
| FoodItemController.CreateFoodItem | foodItem.Controller.js:8-27 | 400 naming the falsy required fields with nothing changed; otherwise the schema's refusal with nothing changed, or the item, with the caller as donor, stored under a fresh id |
| FoodItemController.GetFoodItems | foodItem.Controller.js:32-48 | exactly the items matching the given status and category, each once, by ascending expiry date |
| FoodItemController.UnfilteredListsAll | foodItem.Controller.js:33-41 | with no filter every item is listed |
| FoodItemController.SubsetCard | foodItem.Controller.js:60-64 | helper of GetFoodStats: a subset's count is at most the set's |
| FoodItemController.DisjointCard | foodItem.Controller.js:67-72 | helper of GetFoodStats: counts of disjoint sets add up |
| FoodItemController.StatusStep | foodItem.Controller.js:67-69 | adding one status group adds its count |
| FoodItemController.CategoryStep | foodItem.Controller.js:70-72 | adding one category group adds its count |
| FoodItemController.StatusPartitionFirst | foodItem.Controller.js:67-69 | the first three status groups count the items with those statuses |
| FoodItemController.StatusPartition | foodItem.Controller.js:67-69 | the status groups count every item once |
| FoodItemController.CategoryPartitionFirst | foodItem.Controller.js:70-72 | the first four category groups count the items in those categories |
| FoodItemController.CategoryPartition | foodItem.Controller.js:70-72 | the category groups count every item once |
| FoodItemController.StatusGroups | foodItem.Controller.js:67-69 | one entry per status some item holds, counting those items; the counts sum to the number of items |
| FoodItemController.CategoryGroups | foodItem.Controller.js:70-72 | one entry per category some item is in, counting those items; the counts sum to the number of items |
| FoodItemController.GetFoodStats | foodItem.Controller.js:53-87 | the seven counts at one instant; expiring soon is at most available-and-unexpired, which is at most the available group; both group tables sum to the total |
| FoodItemController.CollectFoodItem | foodItem.Controller.js:92-114 | 404 for an unknown id, 400 if already collected, nothing changed on failure; otherwise only that item becomes collected |
| FoodItemController.CollectMovesStats | foodItem.Controller.js:100-107 | collecting one item keeps the total, adds one to the collected count and removes one from its former status group |
| VolunteerController.FirstMissingField | volunteer.Controller.js:13-21 | the loop answers none exactly when every required field is truthy, and otherwise the first falsy one in listed order |
| VolunteerController.FirstMissingUnique | volunteer.Controller.js:13-21 | the first falsy field is unique |
| VolunteerController.CreateVolunteer | volunteer.Controller.js:10-47 | 400 naming the first falsy field exactly when one is falsy; otherwise "Email already exists" exactly when another volunteer holds the email; otherwise the volunteer is stored under a fresh id, so a body with every field truthy and a free email is always stored; failures change nothing; emails stay unique |
| VolunteerController.GetAllVolunteers | volunteer.Controller.js:49-64 | every volunteer once, newest first |
| VolunteerController.SameEmailKeepsUnique | Volunteer.js:5 | changing a volunteer without touching the email keeps emails unique |
| VolunteerController.AddRewardTo | volunteer.Controller.js:68-94 | 404 exactly for an unknown id, success exactly for a known one; nothing changed on failure; on success the reward is appended to that volunteer only |
| VolunteerController.AddStarsTo | volunteer.Controller.js:96-122 | 404 exactly for an unknown id, success exactly for a known one; nothing changed on failure; on success that volunteer's stars grow by the delta and nothing else changes |
| Scenarios.OfferBread | donation.Controller.js:45-55 | a donor's new donation is available, has no recipient and records the donor |
| Scenarios.RequestBread | donation.Controller.js:122-154 | the first request reserves the donation for its recipient; a second request by someone else is refused as not available |
| Scenarios.ApproveBread | request.Controller.js:84-90 | an admin's approval distributes the linked donation |
| Scenarios.RewardVolunteer | volunteer.Controller.js:68-122 | through the handlers, 5 stars then 3 add 8 and Gold then Silver are appended in that order, email kept |
| Scenarios.BreadLifecycle | request.Controller.js:72-101 | the whole run on an empty database: available, then reserved for the recipient, a second request refused with 400, then distributed with the recipient kept |

## Left out

- Routing, the authentication middleware, `server.js`, `db.js` and the browser script are not part of this model. Authentication is replaced by the `Caller` parameter.
- `getDonations` and `getRequests` are not modelled: they only return `res.advancedResults`, which a query middleware computes and which is not part of this model.
- `populate` and the JSON response shapes (`success`, `count`, messages) are left out. Handlers return the documents themselves. The one place where `populate` changes behaviour, the guard of `getRequest`, is modelled (see Findings).
- The error middleware's rewrite of every forwarded error to 500 is left out. Outcomes carry the code each controller attaches.
- A malformed id (Mongoose `CastError`) and database failures, which reach the 500 paths, are left out. Ids are integers, so every id is well formed.
- Number casting of bodies and non-integer food-item quantities are left out. Quantities are integers.
- Dates in bodies are integers. A body date that is present counts as truthy, so a raw `""` or `0` date is modelled as absent.
- Whitespace for `trim` is the ECMAScript WhiteSpace and LineTerminator code points. Other Unicode categories are not handled.
- Setting a path to `null` through a body and supplying `createdAt` in a body are not modelled. A body can only set a value or leave the path out.
- `FoodItemController.CollectFoodItem`: `collectedAt` is not stored, because FoodItem.js declares no such path and strict mode drops it.
- Concurrency between requests is left out: each handler runs atomically. So is the race between two concurrent `requestDonation` calls.
- `RequestController.UpdateRequest`: for a request with no donation link the model writes no donation on approval. As written, `findByIdAndUpdate(undefined, ...)` filters on `{ _id: undefined }`, which Mongoose treats as the empty filter, so an arbitrary donation may be distributed (see "## Findings"); `RequestController.DistributeLinkedAsWritten` picks the earliest one, since the document order the database uses is not modelled.
- `Store.Db.RemoveFoodItem`: Mongoose's `strictQuery` handling of the unknown `foodItem` filter path is not modelled. The filter is taken literally, so it matches no request.
- `Listing.SortBy`: ties in the sort key are broken by id. MongoDB leaves the order of ties unspecified.
- `VolunteerController.AddRewardTo` and `VolunteerController.AddStarsTo`: a body without `reward` or `stars` is not modelled. The reward is a string and the delta an integer.
- `FoodItemController.GetFoodStats`: the week is exactly seven times 24 hours. Calendar and daylight-saving effects of `setDate` are left out, and the handler's two `new Date()` calls are taken as one instant.
- `RequestController.GetRequest` is the intended guard. `RequestController.GetRequestAsWritten` models the code, where the populated recipient never equals the caller's id. A deleted recipient user, for whom `populate` yields `null` and the guard throws (answering 500), is not modelled, because users are not part of this model.

## Findings

| source | as written | input that shows it | evidently intended | confidence | as-written member | corrected member |
|---|---|---|---|---|---|---|
| request.Controller.js:31-41 | `getRequest` populates `recipient` before the guard, so `request.recipient.toString()` is the user document's printed form and `!== req.user.id` always holds | a recipient (role other than admin) fetching their own request gets 401 | the recipient or an admin may read the request, as at request.Controller.js:80 and :114 where the document is not populated | medium, not executed | RequestController.GetRequestAsWritten, RequestController.RecipientRefusedOwnRequest | RequestController.GetRequest |
| request.Controller.js:85-89 | an admin approval calls `Donation.findByIdAndUpdate(request.donation, ...)` even when the request has no donation link, which every request made by `createRequest` lacks | an admin approving such a request while some donation is available: the filter `{ _id: undefined }` matches an arbitrary donation, which becomes distributed | approving an unlinked request writes no donation | low, not executed | RequestController.DistributeLinkedAsWritten, RequestController.ApprovingUnlinkedRequestDistributesAnother | RequestController.DistributeLinked |
