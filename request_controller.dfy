/** request.Controller.js: the request handlers, and the writes to the
    linked donation that approval and deletion make. */
module RequestController {
  import opened Base
  import opened RequestSchema
  import DonationSchema
  import Ownership
  import Store
  import Listing

  /** `getMyRequests`: `Request.find({ recipient: req.user.id })`. */
  function GetMyRequests(rs: map<Id, Request>, caller: Caller): (r: map<Id, Request>)
    ensures forall k :: k in r <==> k in rs && rs[k].recipient == caller.id
    ensures forall k :: k in r ==> r[k] == rs[k]
  {
    map k | k in rs && rs[k].recipient == caller.id :: rs[k]
  }

  /** `getRequest`: 404 for an unknown id, 401 unless the caller is the
      recipient or an admin. */
  function GetRequest(rs: map<Id, Request>, caller: Caller, id: Id): (r: Outcome<Request>)
    ensures r.Ok? <==> id in rs && Ownership.CanMutate(rs[id].recipient, caller)
    ensures r.Ok? ==> r.value == rs[id]
    ensures id !in rs ==> r == Fail(NotFound)
    ensures id in rs && !Ownership.CanMutate(rs[id].recipient, caller) ==> r == Fail(NotAuthorized)
  {
    if id !in rs then Fail(NotFound)
    else if !Ownership.CanMutate(rs[id].recipient, caller) then Fail(NotAuthorized)
    else Ok(rs[id])
  }

  /** `getRequest` as written: `.populate('recipient', ...)` runs before the
      guard, so `request.recipient.toString()` is the populated user
      document's printed form, never the caller's id. The owner clause of the
      guard therefore never holds and only an admin passes. */
  function GetRequestAsWritten(rs: map<Id, Request>, caller: Caller, id: Id): (r: Outcome<Request>)
    ensures r.Ok? <==> id in rs && caller.role == AdminRole
    ensures r.Ok? ==> r.value == rs[id]
    ensures id !in rs ==> r == Fail(NotFound)
    ensures id in rs && caller.role != AdminRole ==> r == Fail(NotAuthorized)
  {
    if id !in rs then Fail(NotFound)
    else if caller.role != AdminRole then Fail(NotAuthorized)
    else Ok(rs[id])
  }

  /** A recipient reading their own request is refused as written and
      served by the intended guard. */
  lemma RecipientRefusedOwnRequest(q: Request)
    ensures var caller := Caller(q.recipient, RecipientRole, None);
            && GetRequestAsWritten(map[5 := q], caller, 5) == Fail(NotAuthorized)
            && GetRequest(map[5 := q], caller, 5) == Ok(q)
  {
  }

  /** The two guards differ exactly on a non-admin caller who owns the request. */
  lemma GetRequestDiffersOnlyForOwners(rs: map<Id, Request>, caller: Caller, id: Id)
    ensures GetRequestAsWritten(rs, caller, id) != GetRequest(rs, caller, id)
            <==> id in rs && caller.role != AdminRole && rs[id].recipient == caller.id
  {
  }

  /** The fields of `req.body` that `createRequest` reads. */
  datatype CreateRequestInput = CreateRequestInput(
    foodType: Option<string>,
    requestQuantity: Option<string>,
    preferredDate: Option<Timestamp>,
    requestDescription: Option<string>,
    deliveryAddress: Option<string>)

  /** `requestData`: the renamed fields, the caller as recipient, and no
      status or donation link. */
  function RequestData(input: CreateRequestInput, caller: Caller): (body: RequestBody)
    ensures body.recipient == Some(caller.id) && body.donation.None? && body.status.None?
    ensures body.quantity == input.requestQuantity && body.description == input.requestDescription
    ensures body.foodType == input.foodType && body.preferredDate == input.preferredDate
    ensures body.deliveryAddress == input.deliveryAddress
  {
    RequestBody(input.foodType, input.requestQuantity, input.preferredDate, input.requestDescription,
                input.deliveryAddress, None, Some(caller.id), None)
  }

  /** `createRequest`: a pending, unlinked request of the caller's. */
  method CreateRequest(db: Store.Db, caller: Caller, input: CreateRequestInput, now: Timestamp)
    returns (r: Outcome<Request>, id: Id)
    requires db.Valid()
    modifies db
    ensures db.Valid()
    ensures var made := Create(RequestData(input, caller), now);
            if made.Some? then
              && r == Created(made.value) && id !in old(db.requests)
              && db.requests == old(db.requests)[id := made.value]
              && db.donations == old(db.donations) && db.foodItems == old(db.foodItems)
              && db.volunteers == old(db.volunteers) && db.nextId == old(db.nextId) + 1
            else
              r == Fail(ValidationFailed) && unchanged(db)
    ensures r.Created? ==> && r.value.recipient == caller.id && r.value.donation.None?
                           && r.value.status == Pending && r.value.quantity == input.requestQuantity.value
                           && r.value.description == input.requestDescription
  {
    var made := Create(RequestData(input, caller), now);
    if made.None? {
      return Fail(ValidationFailed), 0;
    }
    id := db.NewId();
    db.requests := db.requests[id := made.value];
    r := Created(made.value);
  }

  /** The smallest id of a non-empty set: the earliest document inserted. */
  function LeastId(ids: set<Id>): (k: Id)
    requires ids != {}
    ensures k in ids && forall j :: j in ids ==> k <= j
  {
    var key := map j | j in ids :: 0;
    Listing.FirstExists(key, ids);
    var k :| Listing.IsFirst(key, k, ids);
    k
  }

  /** The approval write as written: for an unlinked request `request.donation`
      is undefined, and `findByIdAndUpdate(undefined, ...)` filters on
      `{ _id: undefined }`, which Mongoose treats as the empty filter, so some
      donation is distributed (modelled as the earliest one). */
  function DistributeLinkedAsWritten(ds: map<Id, DonationSchema.Donation>, link: Option<Id>)
    : (r: map<Id, DonationSchema.Donation>)
    ensures r.Keys == ds.Keys
    ensures link.Some? ==> r == DistributeLinked(ds, link)
    ensures link.None? && ds != map[] ==> exists k :: k in ds && r == ds[k := DonationSchema.Distribute(ds[k])]
  {
    if link.Some? then DistributeLinked(ds, link)
    else if ds.Keys == {} then ds
    else
      var k := LeastId(ds.Keys);
      ds[k := DonationSchema.Distribute(ds[k])]
  }

  /** An admin approving a request that `createRequest` made (never linked)
      distributes an unrelated available donation as written; the intended
      write leaves the donations alone. */
  lemma ApprovingUnlinkedRequestDistributesAnother(input: CreateRequestInput, caller: Caller, d: DonationSchema.Donation)
    requires d.status == DonationSchema.Available
    ensures var ds, link := map[3 := d], RequestData(input, caller).donation;
            && DistributeLinkedAsWritten(ds, link)[3].status == DonationSchema.Distributed
            && DistributeLinked(ds, link) == ds
  {
    var ds := map[3 := d];
    assert ds.Keys == {3};
    assert LeastId(ds.Keys) == 3;
  }

  /** `Donation.findByIdAndUpdate(link, { status: 'distributed' })`: the linked
      donation, if it exists, is distributed; no validators run and no other
      donation changes. */
  function DistributeLinked(ds: map<Id, DonationSchema.Donation>, link: Option<Id>)
    : (r: map<Id, DonationSchema.Donation>)
    ensures r.Keys == ds.Keys
    ensures forall k :: k in ds && link != Some(k) ==> r[k] == ds[k]
    ensures link.Some? && link.value in ds ==> r[link.value] == DonationSchema.Distribute(ds[link.value])
    ensures (forall k :: k in ds ==> DonationSchema.Valid(ds[k])) ==> forall k :: k in r ==> DonationSchema.Valid(r[k])
  {
    if link.Some? && link.value in ds
    then ds[link.value := DonationSchema.Distribute(ds[link.value])]
    else ds
  }

  /** `Donation.findByIdAndUpdate(link, { status: 'available', recipient: null })`. */
  function ReleaseLinked(ds: map<Id, DonationSchema.Donation>, link: Option<Id>)
    : (r: map<Id, DonationSchema.Donation>)
    ensures r.Keys == ds.Keys
    ensures forall k :: k in ds && link != Some(k) ==> r[k] == ds[k]
    ensures link.Some? && link.value in ds ==> r[link.value] == DonationSchema.Release(ds[link.value])
    ensures (forall k :: k in ds ==> DonationSchema.Valid(ds[k])) ==> forall k :: k in r ==> DonationSchema.Valid(r[k])
  {
    if link.Some? && link.value in ds
    then ds[link.value := DonationSchema.Release(ds[link.value])]
    else ds
  }

  /** After an approval the lifecycle invariant still holds exactly when the
      linked donation already had a recipient (the write leaves it alone). */
  lemma DistributeKeepsLifecycle(ds: map<Id, DonationSchema.Donation>, link: Id)
    requires DonationSchema.AllRecipientsMatch(ds) && link in ds
    ensures DonationSchema.AllRecipientsMatch(DistributeLinked(ds, Some(link)))
            <==> ds[link].recipient.Some?
  {
    var r := DistributeLinked(ds, Some(link));
    if ds[link].recipient.Some? {
      forall k | k in r ensures DonationSchema.RecipientMatchesStatus(r[k]) {
        if k != link { assert r[k] == ds[k]; }
      }
    } else {
      assert !DonationSchema.RecipientMatchesStatus(r[link]);
    }
  }

  /** Releasing a linked donation keeps the lifecycle invariant. */
  lemma ReleaseKeepsLifecycle(ds: map<Id, DonationSchema.Donation>, link: Option<Id>)
    requires DonationSchema.AllRecipientsMatch(ds)
    ensures DonationSchema.AllRecipientsMatch(ReleaseLinked(ds, link))
  {
    var r := ReleaseLinked(ds, link);
    forall k | k in r ensures DonationSchema.RecipientMatchesStatus(r[k]) {
      if link != Some(k) { assert r[k] == ds[k]; }
    }
  }

  /** The condition under which `updateRequest` writes the donation: the body
      asks for approved and the caller is an admin. */
  predicate Approves(body: RequestBody, caller: Caller) {
    body.status == Some(StatusName(Approved)) && caller.role == AdminRole
  }

  /** `updateRequest`: after the guard, an admin approval distributes the
      donation the request linked before the update; then the body is applied
      with validators. The donation write comes first, so it stays even when
      the body is refused. */
  method UpdateRequest(db: Store.Db, caller: Caller, id: Id, body: RequestBody, now: Timestamp)
    returns (r: Outcome<Request>)
    requires db.Valid()
    modifies db
    ensures db.Valid()
    ensures id !in old(db.requests) ==> r == Fail(NotFound) && unchanged(db)
    ensures id in old(db.requests) && !Ownership.CanMutate(old(db.requests)[id].recipient, caller)
            ==> r == Fail(NotAuthorized) && unchanged(db)
    ensures id in old(db.requests) && Ownership.CanMutate(old(db.requests)[id].recipient, caller) ==>
              var q := old(db.requests)[id];
              && db.donations == (if Approves(body, caller) then DistributeLinked(old(db.donations), q.donation)
                                  else old(db.donations))
              && (if SetPathsValid(body)
                  then r == Ok(Update(q, body, now).value) && db.requests == old(db.requests)[id := r.value]
                  else r == Fail(ValidationFailed) && db.requests == old(db.requests))
              && db.foodItems == old(db.foodItems) && db.volunteers == old(db.volunteers)
              && db.nextId == old(db.nextId)
  {
    if id !in db.requests {
      return Fail(NotFound);
    }
    var q := db.requests[id];
    if !Ownership.CanMutate(q.recipient, caller) {
      return Fail(NotAuthorized);
    }
    if Approves(body, caller) {
      db.donations := DistributeLinked(db.donations, q.donation);
    }
    var updated := Update(q, body, now);
    if updated.None? {
      return Fail(ValidationFailed);
    }
    db.requests := db.requests[id := updated.value];
    r := Ok(updated.value);
  }

  /** `deleteRequest`: after the guard, a linked donation is released
      whatever the request's status, then the request is removed. */
  method DeleteRequest(db: Store.Db, caller: Caller, id: Id) returns (r: Outcome<()>)
    requires db.Valid()
    modifies db
    ensures db.Valid()
    ensures id !in old(db.requests) ==> r == Fail(NotFound)
    ensures id in old(db.requests) && !Ownership.CanMutate(old(db.requests)[id].recipient, caller)
            ==> r == Fail(NotAuthorized)
    ensures r.Fail? ==> unchanged(db)
    ensures r.Ok? <==> id in old(db.requests) && Ownership.CanMutate(old(db.requests)[id].recipient, caller)
    ensures r.Ok? ==> && db.donations == ReleaseLinked(old(db.donations), old(db.requests)[id].donation)
                      && db.requests == old(db.requests) - {id}
                      && db.foodItems == old(db.foodItems) && db.volunteers == old(db.volunteers)
                      && db.nextId == old(db.nextId)
    ensures r.Ok? || r.Fail?
    ensures DonationSchema.AllRecipientsMatch(old(db.donations)) ==> DonationSchema.AllRecipientsMatch(db.donations)
  {
    if id !in db.requests {
      return Fail(NotFound);
    }
    var q := db.requests[id];
    if !Ownership.CanMutate(q.recipient, caller) {
      return Fail(NotAuthorized);
    }
    if DonationSchema.AllRecipientsMatch(db.donations) {
      ReleaseKeepsLifecycle(db.donations, q.donation);
    }
    var released := ReleaseLinked(db.donations, q.donation);
    assert Store.DonationsValid(released, db.nextId);
    assert Store.RequestsValid(db.requests - {id}, db.nextId);
    db.donations := released;
    db.requests := db.requests - {id};
    r := Ok(());
  }
}
