/** donation.Controller.js: the donation handlers. Listings and lookups are
    functions of the donations collection; handlers that write take the store. */
module DonationController {
  import opened Base
  import opened DonationSchema
  import RequestSchema
  import Ownership
  import Store

  /** `getAvailableDonations`: `Donation.find({ status: 'available' })`. */
  function GetAvailableDonations(ds: map<Id, Donation>): (r: map<Id, Donation>)
    ensures forall k :: k in r <==> k in ds && ds[k].status == Available
    ensures forall k :: k in r ==> r[k] == ds[k]
  {
    map k | k in ds && ds[k].status == Available :: ds[k]
  }

  /** `getDonation`: public, no ownership check. */
  function GetDonation(ds: map<Id, Donation>, id: Id): (r: Outcome<Donation>)
    ensures r.Ok? <==> id in ds
    ensures r.Ok? ==> r.value == ds[id]
    ensures !r.Ok? ==> r == Fail(NotFound)
  {
    if id in ds then Ok(ds[id]) else Fail(NotFound)
  }

  /** `getMyDonations`: `Donation.find({ donor: req.user.id })`. */
  function GetMyDonations(ds: map<Id, Donation>, caller: Caller): (r: map<Id, Donation>)
    ensures forall k :: k in r <==> k in ds && ds[k].donor == caller.id
    ensures forall k :: k in r ==> r[k] == ds[k]
  {
    map k | k in ds && ds[k].donor == caller.id :: ds[k]
  }

  /** A reservation takes the donation off the available listing and a
      release puts it back; the donor's own listing keeps it throughout. */
  lemma ListingsFollowLifecycle(ds: map<Id, Donation>, id: Id, u: UserId, caller: Caller)
    requires id in ds
    ensures id !in GetAvailableDonations(ds[id := Reserve(ds[id], u)])
    ensures id in GetAvailableDonations(ds[id := Release(ds[id])])
    ensures id in GetMyDonations(ds, caller) <==> id in GetMyDonations(ds[id := Reserve(ds[id], u)], caller)
  {
  }

  /** `createDonation`: the caller becomes the donor whatever the body says,
      then `Donation.create` validates and saves. */
  method CreateDonation(db: Store.Db, caller: Caller, body: DonationBody, now: Timestamp)
    returns (r: Outcome<Donation>, id: Id)
    requires db.Valid()
    modifies db
    ensures db.Valid()
    ensures var made := Create(body.(donor := Some(caller.id)), now);
            if made.Some? then
              && r == Created(made.value) && id !in old(db.donations)
              && db.donations == old(db.donations)[id := made.value]
              && db.requests == old(db.requests) && db.foodItems == old(db.foodItems)
              && db.volunteers == old(db.volunteers) && db.nextId == old(db.nextId) + 1
            else
              r == Fail(ValidationFailed) && unchanged(db)
    ensures r.Created? ==> r.value.donor == caller.id && r.value.createdAt == now
  {
    var made := Create(body.(donor := Some(caller.id)), now);
    if made.None? {
      return Fail(ValidationFailed), 0;
    }
    id := db.NewId();
    db.donations := db.donations[id := made.value];
    r := Created(made.value);
  }

  /** `updateDonation`: 404 for an unknown id, 401 unless the caller is the
      donor or an admin; otherwise the body is applied with validators. */
  method UpdateDonation(db: Store.Db, caller: Caller, id: Id, body: DonationBody)
    returns (r: Outcome<Donation>)
    requires db.Valid()
    modifies db
    ensures db.Valid()
    ensures id !in old(db.donations) ==> r == Fail(NotFound)
    ensures id in old(db.donations) && !Ownership.CanMutate(old(db.donations)[id].donor, caller)
            ==> r == Fail(NotAuthorized)
    ensures r.Fail? ==> unchanged(db)
    ensures r.Ok? <==> && id in old(db.donations)
                       && Ownership.CanMutate(old(db.donations)[id].donor, caller)
                       && SetPathsValid(body)
    ensures (id in old(db.donations) && Ownership.CanMutate(old(db.donations)[id].donor, caller)
             && !SetPathsValid(body)) ==> r == Fail(ValidationFailed)
    ensures r.Ok? ==> && r.value == Update(old(db.donations)[id], body).value
                      && db.donations == old(db.donations)[id := r.value]
                      && db.requests == old(db.requests) && db.foodItems == old(db.foodItems)
                      && db.volunteers == old(db.volunteers) && db.nextId == old(db.nextId)
    ensures r.Ok? || r.Fail?
  {
    if id !in db.donations {
      return Fail(NotFound);
    }
    var d := db.donations[id];
    if !Ownership.CanMutate(d.donor, caller) {
      return Fail(NotAuthorized);
    }
    var updated := Update(d, body);
    if updated.None? {
      return Fail(ValidationFailed);
    }
    db.donations := db.donations[id := updated.value];
    r := Ok(updated.value);
  }

  /** `deleteDonation`: the same guard; the donation goes and the Donation
      schema has no remove hook, so requests linked to it stay. */
  method DeleteDonation(db: Store.Db, caller: Caller, id: Id) returns (r: Outcome<()>)
    requires db.Valid()
    modifies db
    ensures db.Valid()
    ensures id !in old(db.donations) ==> r == Fail(NotFound)
    ensures id in old(db.donations) && !Ownership.CanMutate(old(db.donations)[id].donor, caller)
            ==> r == Fail(NotAuthorized)
    ensures r.Fail? ==> unchanged(db)
    ensures r.Ok? <==> id in old(db.donations) && Ownership.CanMutate(old(db.donations)[id].donor, caller)
    ensures r.Ok? ==> && db.donations == old(db.donations) - {id}
                      && db.requests == old(db.requests) && db.foodItems == old(db.foodItems)
                      && db.volunteers == old(db.volunteers) && db.nextId == old(db.nextId)
    ensures r.Ok? || r.Fail?
  {
    if id !in db.donations {
      return Fail(NotFound);
    }
    if !Ownership.CanMutate(db.donations[id].donor, caller) {
      return Fail(NotAuthorized);
    }
    db.donations := db.donations - {id};
    r := Ok(());
  }

  /** The request `requestDonation` files for a donation: its food, quantity
      and expiry, the caller as recipient and the caller's address. */
  function RequestFor(d: Donation, id: Id, caller: Caller): (body: RequestSchema.RequestBody)
    ensures body.donation == Some(id) && body.recipient == Some(caller.id)
    ensures body.foodType == Some(d.foodName) && body.quantity == Some(d.quantity)
    ensures body.preferredDate == Some(d.expiryDate) && body.deliveryAddress == caller.address
    ensures body.status == Some(RequestSchema.StatusName(RequestSchema.Pending))
  {
    RequestSchema.RequestBody(Some(d.foodName), Some(d.quantity), Some(d.expiryDate), None,
                              caller.address, Some("pending"), Some(caller.id), Some(id))
  }

  /** `requestDonation`: only an available donation can be requested. The
      request is created first; only if that succeeds is the donation
      reserved for the caller. */
  method RequestDonation(db: Store.Db, caller: Caller, id: Id, now: Timestamp)
    returns (r: Outcome<RequestSchema.Request>, rid: Id)
    requires db.Valid()
    modifies db
    ensures db.Valid()
    ensures id !in old(db.donations) ==> r == Fail(NotFound)
    ensures id in old(db.donations) && old(db.donations)[id].status != Available ==> r == Fail(NotAvailable)
    ensures r.Fail? ==> unchanged(db)
    ensures r.Created? <==> && id in old(db.donations) && old(db.donations)[id].status == Available
                            && Present(caller.address)
    ensures (id in old(db.donations) && old(db.donations)[id].status == Available
             && !Present(caller.address)) ==> r == Fail(ValidationFailed)
    ensures r.Created? ==>
              var d := old(db.donations)[id];
              && r.value == RequestSchema.Request(d.foodName, d.quantity, d.expiryDate, None,
                                                  caller.address.value, RequestSchema.Pending,
                                                  caller.id, Some(id), now, now)
              && rid !in old(db.requests) && db.requests == old(db.requests)[rid := r.value]
              && db.donations == old(db.donations)[id := Reserve(d, caller.id)]
              && db.foodItems == old(db.foodItems) && db.volunteers == old(db.volunteers)
              && db.nextId == old(db.nextId) + 1
    ensures r.Created? || r.Fail?
    ensures AllRecipientsMatch(old(db.donations)) ==> AllRecipientsMatch(db.donations)
  {
    if id !in db.donations {
      return Fail(NotFound), 0;
    }
    var d := db.donations[id];
    if d.status != Available {
      return Fail(NotAvailable), 0;
    }
    var filed := RequestSchema.Create(RequestFor(d, id, caller), now);
    if filed.None? {
      return Fail(ValidationFailed), 0;
    }
    rid := db.NewId();
    db.requests := db.requests[rid := filed.value];
    db.donations := db.donations[id := Reserve(d, caller.id)];
    r := Created(filed.value);
  }
}
