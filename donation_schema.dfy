/** Donation.js: the Donation document, its status enum and what the schema's
    validators accept, plus the status transitions the handlers apply. */
module DonationSchema {
  import opened Base

  datatype DonationStatus = Available | Reserved | Distributed

  /** The strings Donation.js lists in `enum`. */
  function StatusName(s: DonationStatus): string {
    match s
    case Available => "available"
    case Reserved => "reserved"
    case Distributed => "distributed"
  }

  /** The enum validator: a string is accepted exactly when it names a status. */
  function ParseStatus(t: string): (r: Option<DonationStatus>)
    ensures r.Some? ==> StatusName(r.value) == t
    ensures r.None? ==> forall s :: StatusName(s) != t
  {
    if t == "available" then Some(Available)
    else if t == "reserved" then Some(Reserved)
    else if t == "distributed" then Some(Distributed)
    else None
  }

  lemma ParseStatusName(s: DonationStatus)
    ensures ParseStatus(StatusName(s)) == Some(s)
  {
  }

  /** A stored donation. `quantity` is free text ("2 loaves"), not a number. */
  datatype Donation = Donation(
    foodName: string,
    quantity: string,
    expiryDate: Timestamp,
    description: Option<string>,
    pickupAddress: string,
    status: DonationStatus,
    donor: UserId,
    recipient: Option<UserId>,
    createdAt: Timestamp)

  /** The schema's `required` validators: a required String path holds a
      non-empty string (the Date and ObjectId paths are present by typing). */
  predicate Valid(d: Donation) {
    d.foodName != "" && d.quantity != "" && d.pickupAddress != ""
  }

  /** The lifecycle's intended invariant: a recipient is recorded exactly when
      the donation is reserved or distributed. Donation.js does not enforce it. */
  predicate RecipientMatchesStatus(d: Donation) {
    d.recipient.Some? <==> d.status != Available
  }

  /** The lifecycle invariant over the whole collection. */
  predicate AllRecipientsMatch(ds: map<Id, Donation>) {
    forall k :: k in ds ==> RecipientMatchesStatus(ds[k])
  }

  /** A request body as far as the schema sees it: every path may be absent;
      paths the schema does not declare are dropped by strict mode. */
  datatype DonationBody = DonationBody(
    foodName: Option<string>,
    quantity: Option<string>,
    expiryDate: Option<Timestamp>,
    description: Option<string>,
    pickupAddress: Option<string>,
    status: Option<string>,
    donor: Option<UserId>,
    recipient: Option<UserId>)

  const EmptyBody: DonationBody := DonationBody(None, None, None, None, None, None, None, None)

  /** Every path the body sets holds the body's value in `d`. */
  predicate TakesBody(d: Donation, body: DonationBody) {
    && (body.foodName.Some? ==> d.foodName == body.foodName.value)
    && (body.quantity.Some? ==> d.quantity == body.quantity.value)
    && (body.expiryDate.Some? ==> d.expiryDate == body.expiryDate.value)
    && (body.description.Some? ==> d.description == body.description)
    && (body.pickupAddress.Some? ==> d.pickupAddress == body.pickupAddress.value)
    && (body.status.Some? ==> StatusName(d.status) == body.status.value)
    && (body.donor.Some? ==> d.donor == body.donor.value)
    && (body.recipient.Some? ==> d.recipient == body.recipient)
  }

  /** Every path the body leaves out keeps its value from `prev`. */
  predicate KeepsUnset(prev: Donation, d: Donation, body: DonationBody) {
    && (body.foodName.None? ==> d.foodName == prev.foodName)
    && (body.quantity.None? ==> d.quantity == prev.quantity)
    && (body.expiryDate.None? ==> d.expiryDate == prev.expiryDate)
    && (body.description.None? ==> d.description == prev.description)
    && (body.pickupAddress.None? ==> d.pickupAddress == prev.pickupAddress)
    && (body.status.None? ==> d.status == prev.status)
    && (body.donor.None? ==> d.donor == prev.donor)
    && (body.recipient.None? ==> d.recipient == prev.recipient)
    && d.createdAt == prev.createdAt
  }

  /** The document as a body that sets every path it has. */
  function AsBody(d: Donation): DonationBody {
    DonationBody(Some(d.foodName), Some(d.quantity), Some(d.expiryDate), d.description,
                 Some(d.pickupAddress), Some(StatusName(d.status)), Some(d.donor), d.recipient)
  }

  /** What the validators demand of a path a body sets. */
  predicate SetPathsValid(body: DonationBody) {
    && (body.foodName.Some? ==> body.foodName.value != "")
    && (body.quantity.Some? ==> body.quantity.value != "")
    && (body.pickupAddress.Some? ==> body.pickupAddress.value != "")
    && (body.status.Some? ==> ParseStatus(body.status.value).Some?)
  }

  /** `Donation.create(body)`: `status` defaults to available and `createdAt`
      to now; the document is saved only if every validator passes. */
  function Create(body: DonationBody, now: Timestamp): (r: Option<Donation>)
    ensures r.Some? <==> SetPathsValid(body) && body.foodName.Some? && body.quantity.Some?
                         && body.expiryDate.Some? && body.pickupAddress.Some? && body.donor.Some?
    ensures r.Some? ==> Valid(r.value) && TakesBody(r.value, body) && r.value.createdAt == now
    ensures r.Some? && body.status.None? ==> r.value.status == Available
    ensures r.Some? && body.recipient.None? ==> r.value.recipient.None?
    ensures r.Some? && body.description.None? ==> r.value.description.None?
  {
    if SetPathsValid(body) && body.foodName.Some? && body.quantity.Some?
       && body.expiryDate.Some? && body.pickupAddress.Some? && body.donor.Some?
    then
      var status := if body.status.Some? then ParseStatus(body.status.value).value else Available;
      Some(Donation(body.foodName.value, body.quantity.value, body.expiryDate.value, body.description,
                    body.pickupAddress.value, status, body.donor.value, body.recipient, now))
    else None
  }

  /** `findByIdAndUpdate(id, body, {runValidators: true})` on a stored donation:
      the update validators check only the paths the body sets. */
  function Update(d: Donation, body: DonationBody): (r: Option<Donation>)
    ensures r.Some? <==> SetPathsValid(body)
    ensures r.Some? ==> TakesBody(r.value, body) && KeepsUnset(d, r.value, body)
    ensures r.Some? && Valid(d) ==> Valid(r.value)
  {
    if SetPathsValid(body) then
      Some(Donation(
        if body.foodName.Some? then body.foodName.value else d.foodName,
        if body.quantity.Some? then body.quantity.value else d.quantity,
        if body.expiryDate.Some? then body.expiryDate.value else d.expiryDate,
        if body.description.Some? then body.description else d.description,
        if body.pickupAddress.Some? then body.pickupAddress.value else d.pickupAddress,
        if body.status.Some? then ParseStatus(body.status.value).value else d.status,
        if body.donor.Some? then body.donor.value else d.donor,
        if body.recipient.Some? then body.recipient else d.recipient,
        d.createdAt))
    else None
  }

  /** Re-creating a valid donation from its own paths gives it back. */
  lemma CreateAsBody(d: Donation)
    requires Valid(d)
    ensures Create(AsBody(d), d.createdAt) == Some(d)
  {
    ParseStatusName(d.status);
  }

  /** An update is idempotent, and an empty body changes nothing. */
  lemma UpdateIdempotent(d: Donation, body: DonationBody)
    ensures Update(d, EmptyBody) == Some(d)
    ensures Update(d, body).Some? ==> Update(Update(d, body).value, body) == Update(d, body)
  {
  }

  // The lifecycle transitions (named for the handlers that apply them).

  /** `requestDonation`: the caller reserves the donation. */
  function Reserve(d: Donation, u: UserId): (r: Donation)
    ensures r.status == Reserved && r.recipient == Some(u)
    ensures r.(status := d.status, recipient := d.recipient) == d
    ensures RecipientMatchesStatus(r)
    ensures Valid(d) ==> Valid(r)
  {
    d.(status := Reserved, recipient := Some(u))
  }

  /** An admin approves a linked request: the recipient is left as it was. */
  function Distribute(d: Donation): (r: Donation)
    ensures r.status == Distributed && r.(status := d.status) == d
    ensures RecipientMatchesStatus(r) <==> d.recipient.Some?
    ensures Valid(d) ==> Valid(r)
  {
    d.(status := Distributed)
  }

  /** `deleteRequest`: the donation is offered again, whatever it went through. */
  function Release(d: Donation): (r: Donation)
    ensures r.status == Available && r.recipient.None?
    ensures r.(status := d.status, recipient := d.recipient) == d
    ensures RecipientMatchesStatus(r)
    ensures Valid(d) ==> Valid(r)
  {
    d.(status := Available, recipient := None)
  }

  /** Deleting the request a reservation made puts a fresh donation back
      exactly as it was. */
  lemma ReleaseUndoesReserve(d: Donation, u: UserId)
    requires d.status == Available && d.recipient.None?
    ensures Release(Reserve(d, u)) == d
  {
  }

  /** Releasing after an approval does not undo the approval: it returns the
      donation to the market with no recipient, not to its reserved state. */
  lemma ReleaseIsNotInverseOfDistribute(d: Donation, u: UserId)
    ensures Release(Distribute(Reserve(d, u))) == Release(d)
    ensures Release(Distribute(Reserve(d, u))) != Reserve(d, u)
  {
  }

  /** `createDonation` and `updateDonation` hand the body to the schema
      wholesale, so a body can set `status` without `recipient` (or the other
      way round): neither keeps the lifecycle invariant. */
  lemma CreateCanBreakLifecycle(now: Timestamp)
    ensures var body := DonationBody(Some("Bread"), Some("2 loaves"), Some(now), None,
                                     Some("123 St"), Some("reserved"), Some(1), None);
            Create(body, now).Some? && !RecipientMatchesStatus(Create(body, now).value)
  {
  }

  lemma UpdateCanBreakLifecycle(d: Donation)
    requires d.status == Reserved && d.recipient.Some?
    ensures var body := EmptyBody.(status := Some("available"));
            Update(d, body).Some? && !RecipientMatchesStatus(Update(d, body).value)
  {
    assert ParseStatus("available") == Some(Available);
  }
}
