/** Request.js: a recipient's request for food, optionally linked to the
    donation it reserves, and what the schema's validators accept. */
module RequestSchema {
  import opened Base

  datatype RequestStatus = Pending | Approved | Rejected | Fulfilled

  /** The strings Request.js lists in `enum`. */
  function StatusName(s: RequestStatus): string {
    match s
    case Pending => "pending"
    case Approved => "approved"
    case Rejected => "rejected"
    case Fulfilled => "fulfilled"
  }

  /** The enum validator: a string is accepted exactly when it names a status. */
  function ParseStatus(t: string): (r: Option<RequestStatus>)
    ensures r.Some? ==> StatusName(r.value) == t
    ensures r.None? ==> forall s :: StatusName(s) != t
  {
    if t == "pending" then Some(Pending)
    else if t == "approved" then Some(Approved)
    else if t == "rejected" then Some(Rejected)
    else if t == "fulfilled" then Some(Fulfilled)
    else None
  }

  lemma ParseStatusName(s: RequestStatus)
    ensures ParseStatus(StatusName(s)) == Some(s)
  {
  }

  /** A stored request. `createdAt` and `updatedAt` are the schema's
      timestamps; there is no `foodItem` path. */
  datatype Request = Request(
    foodType: string,
    quantity: string,
    preferredDate: Timestamp,
    description: Option<string>,
    deliveryAddress: string,
    status: RequestStatus,
    recipient: UserId,
    donation: Option<Id>,
    createdAt: Timestamp,
    updatedAt: Timestamp)

  /** The `required` validators on the String paths. */
  predicate Valid(q: Request) {
    q.foodType != "" && q.quantity != "" && q.deliveryAddress != ""
  }

  /** The value a stored request holds at the `foodItem` path, which the
      FoodItem cascade filters on. Request.js declares no such path, and strict
      mode drops undeclared paths before a document is saved, so no stored
      request holds one. */
  function LinkedFoodItem(q: Request): Option<Id> {
    None
  }

  /** The paths a body may set; undeclared paths are dropped by strict mode. */
  datatype RequestBody = RequestBody(
    foodType: Option<string>,
    quantity: Option<string>,
    preferredDate: Option<Timestamp>,
    description: Option<string>,
    deliveryAddress: Option<string>,
    status: Option<string>,
    recipient: Option<UserId>,
    donation: Option<Id>)

  const EmptyBody: RequestBody := RequestBody(None, None, None, None, None, None, None, None)

  /** Every path the body sets holds the body's value in `q`. */
  predicate TakesBody(q: Request, body: RequestBody) {
    && (body.foodType.Some? ==> q.foodType == body.foodType.value)
    && (body.quantity.Some? ==> q.quantity == body.quantity.value)
    && (body.preferredDate.Some? ==> q.preferredDate == body.preferredDate.value)
    && (body.description.Some? ==> q.description == body.description)
    && (body.deliveryAddress.Some? ==> q.deliveryAddress == body.deliveryAddress.value)
    && (body.status.Some? ==> StatusName(q.status) == body.status.value)
    && (body.recipient.Some? ==> q.recipient == body.recipient.value)
    && (body.donation.Some? ==> q.donation == body.donation)
  }

  /** Every path the body leaves out keeps its value from `prev`. */
  predicate KeepsUnset(prev: Request, q: Request, body: RequestBody) {
    && (body.foodType.None? ==> q.foodType == prev.foodType)
    && (body.quantity.None? ==> q.quantity == prev.quantity)
    && (body.preferredDate.None? ==> q.preferredDate == prev.preferredDate)
    && (body.description.None? ==> q.description == prev.description)
    && (body.deliveryAddress.None? ==> q.deliveryAddress == prev.deliveryAddress)
    && (body.status.None? ==> q.status == prev.status)
    && (body.recipient.None? ==> q.recipient == prev.recipient)
    && (body.donation.None? ==> q.donation == prev.donation)
    && q.createdAt == prev.createdAt
  }

  /** What the validators demand of a path a body sets. */
  predicate SetPathsValid(body: RequestBody) {
    && (body.foodType.Some? ==> body.foodType.value != "")
    && (body.quantity.Some? ==> body.quantity.value != "")
    && (body.deliveryAddress.Some? ==> body.deliveryAddress.value != "")
    && (body.status.Some? ==> ParseStatus(body.status.value).Some?)
  }

  /** `Request.create(body)`: `status` defaults to pending, both timestamps
      to now; the document is saved only if every validator passes. */
  function Create(body: RequestBody, now: Timestamp): (r: Option<Request>)
    ensures r.Some? <==> SetPathsValid(body) && body.foodType.Some? && body.quantity.Some?
                         && body.preferredDate.Some? && body.deliveryAddress.Some? && body.recipient.Some?
    ensures r.Some? ==> Valid(r.value) && TakesBody(r.value, body)
    ensures r.Some? ==> r.value.createdAt == now && r.value.updatedAt == now
    ensures r.Some? && body.status.None? ==> r.value.status == Pending
    ensures r.Some? && body.donation.None? ==> r.value.donation.None?
    ensures r.Some? && body.description.None? ==> r.value.description.None?
  {
    if SetPathsValid(body) && body.foodType.Some? && body.quantity.Some?
       && body.preferredDate.Some? && body.deliveryAddress.Some? && body.recipient.Some?
    then
      var status := if body.status.Some? then ParseStatus(body.status.value).value else Pending;
      Some(Request(body.foodType.value, body.quantity.value, body.preferredDate.value, body.description,
                   body.deliveryAddress.value, status, body.recipient.value, body.donation, now, now))
    else None
  }

  /** `findByIdAndUpdate(id, body, {runValidators: true})`: the update
      validators check only the paths the body sets, and the timestamps option
      stamps `updatedAt`. */
  function Update(q: Request, body: RequestBody, now: Timestamp): (r: Option<Request>)
    ensures r.Some? <==> SetPathsValid(body)
    ensures r.Some? ==> TakesBody(r.value, body) && KeepsUnset(q, r.value, body)
    ensures r.Some? ==> r.value.updatedAt == now
    ensures r.Some? && Valid(q) ==> Valid(r.value)
  {
    if SetPathsValid(body) then
      Some(Request(
        if body.foodType.Some? then body.foodType.value else q.foodType,
        if body.quantity.Some? then body.quantity.value else q.quantity,
        if body.preferredDate.Some? then body.preferredDate.value else q.preferredDate,
        if body.description.Some? then body.description else q.description,
        if body.deliveryAddress.Some? then body.deliveryAddress.value else q.deliveryAddress,
        if body.status.Some? then ParseStatus(body.status.value).value else q.status,
        if body.recipient.Some? then body.recipient.value else q.recipient,
        if body.donation.Some? then body.donation else q.donation,
        q.createdAt,
        now))
    else None
  }

  /** An empty body only stamps `updatedAt`; repeating an update changes nothing more. */
  lemma UpdateIdempotent(q: Request, body: RequestBody, now: Timestamp)
    ensures Update(q, EmptyBody, now) == Some(q.(updatedAt := now))
    ensures Update(q, body, now).Some? ==> Update(Update(q, body, now).value, body, now) == Update(q, body, now)
  {
  }
}
