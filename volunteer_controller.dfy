/** volunteer.Controller.js: registration behind a required-field loop and
    the unique email index, the newest-first listing, and the reward ledger. */
module VolunteerController {
  import opened Base
  import opened VolunteerSchema
  import Listing
  import Store

  /** `field` is the first of the required fields, in their listed order,
      that the body leaves falsy. */
  predicate FirstMissingIs(body: VolunteerBody, field: string) {
    exists i :: && 0 <= i < |REQUIRED_FIELDS| && REQUIRED_FIELDS[i] == field
                && !Present(Field(body, REQUIRED_FIELDS[i]))
                && forall j :: 0 <= j < i ==> Present(Field(body, REQUIRED_FIELDS[j]))
  }

  predicate AllGiven(body: VolunteerBody) {
    forall i :: 0 <= i < |REQUIRED_FIELDS| ==> Present(Field(body, REQUIRED_FIELDS[i]))
  }

  /** The `for (const field of requiredFields)` loop: it stops at the first
      falsy field. */
  method FirstMissingField(body: VolunteerBody) returns (missing: Option<string>)
    ensures missing.None? <==> AllGiven(body)
    ensures missing.Some? ==> FirstMissingIs(body, missing.value)
  {
    var i := 0;
    while i < |REQUIRED_FIELDS|
      invariant 0 <= i <= |REQUIRED_FIELDS|
      invariant forall j :: 0 <= j < i ==> Present(Field(body, REQUIRED_FIELDS[j]))
    {
      if !Present(Field(body, REQUIRED_FIELDS[i])) {
        return Some(REQUIRED_FIELDS[i]);
      }
      i := i + 1;
    }
    return None;
  }

  /** At most one field is the first missing one. */
  lemma FirstMissingUnique(body: VolunteerBody, f: string, g: string)
    requires FirstMissingIs(body, f) && FirstMissingIs(body, g)
    ensures f == g
  {
  }

  /** `createVolunteer`: 400 naming the first falsy field; otherwise the
      schema accepts the document, and the unique index refuses it with
      "Email already exists" when another volunteer holds the email. */
  method CreateVolunteer(db: Store.Db, body: VolunteerBody, now: Timestamp)
    returns (r: Outcome<Volunteer>, id: Id)
    requires db.Valid()
    modifies db
    ensures db.Valid()
    ensures r.Fail? ==> unchanged(db)
    ensures !AllGiven(body) <==> r.Fail? && r.failure.FieldRequired?
    ensures r.Fail? && r.failure.FieldRequired? ==> FirstMissingIs(body, r.failure.field)
    ensures AllGiven(body) ==> Create(body, now).Some?
    ensures AllGiven(body) ==>
              (r == Fail(EmailExists) <==> EmailTaken(old(db.volunteers), Create(body, now).value.email))
    ensures AllGiven(body) && !EmailTaken(old(db.volunteers), Create(body, now).value.email) ==> r.Created?
    ensures r.Created? || r.Fail?
    ensures r.Created? ==> && r.value == Create(body, now).value && id !in old(db.volunteers)
                           && db.volunteers == old(db.volunteers)[id := r.value]
                           && db.donations == old(db.donations) && db.requests == old(db.requests)
                           && db.foodItems == old(db.foodItems) && db.nextId == old(db.nextId) + 1
  {
    var missing := FirstMissingField(body);
    if missing.Some? {
      return Fail(FieldRequired(missing.value)), 0;
    }
    var v := Create(body, now).value;
    if EmailTaken(db.volunteers, v.email) {
      return Fail(EmailExists), 0;
    }
    id := db.NewId();
    InsertKeepsEmailsUnique(db.volunteers, id, v);
    db.volunteers := db.volunteers[id := v];
    r := Created(v);
  }

  /** `Volunteer.find().sort({ createdAt: -1 })`: every volunteer once, newest first. */
  function GetAllVolunteers(vs: map<Id, Volunteer>): (r: seq<Id>)
    ensures |r| == |vs|
    ensures forall k :: k in r <==> k in vs
    ensures forall i, j :: 0 <= i < j < |r| ==> r[i] != r[j]
    ensures forall i, j :: 0 <= i < j < |r| ==> vs[r[i]].createdAt >= vs[r[j]].createdAt
  {
    var key := map k | k in vs :: -vs[k].createdAt;
    assert vs.Keys <= key.Keys;
    Listing.SortBy(key, vs.Keys)
  }

  /** Changing anything but the email keeps the index unique. */
  lemma SameEmailKeepsUnique(vs: map<Id, Volunteer>, id: Id, v: Volunteer)
    requires EmailsUnique(vs) && id in vs && v.email == vs[id].email
    ensures EmailsUnique(vs[id := v])
  {
  }

  /** `addReward`: `$push` the reward onto the list; 404 for an unknown id.
      No admin check guards it. */
  method AddRewardTo(db: Store.Db, id: Id, reward: string) returns (r: Outcome<Volunteer>)
    requires db.Valid()
    modifies db
    ensures db.Valid()
    ensures id !in old(db.volunteers) <==> r == Fail(NotFound)
    ensures r.Fail? ==> unchanged(db)
    ensures r.Ok? <==> id in old(db.volunteers)
    ensures r.Ok? || r.Fail?
    ensures r.Ok? ==> && r.value == AddReward(old(db.volunteers)[id], reward)
                      && db.volunteers == old(db.volunteers)[id := r.value]
                      && db.donations == old(db.donations) && db.requests == old(db.requests)
                      && db.foodItems == old(db.foodItems) && db.nextId == old(db.nextId)
  {
    if id !in db.volunteers {
      return Fail(NotFound);
    }
    var v := AddReward(db.volunteers[id], reward);
    SameEmailKeepsUnique(db.volunteers, id, v);
    db.volunteers := db.volunteers[id := v];
    r := Ok(v);
  }

  /** `addStars`: `$inc` the counter by any integer; 404 for an unknown id.
      No admin check guards it. */
  method AddStarsTo(db: Store.Db, id: Id, delta: int) returns (r: Outcome<Volunteer>)
    requires db.Valid()
    modifies db
    ensures db.Valid()
    ensures id !in old(db.volunteers) <==> r == Fail(NotFound)
    ensures r.Fail? ==> unchanged(db)
    ensures r.Ok? <==> id in old(db.volunteers)
    ensures r.Ok? || r.Fail?
    ensures r.Ok? ==> && r.value == AddStars(old(db.volunteers)[id], delta)
                      && db.volunteers == old(db.volunteers)[id := r.value]
                      && db.donations == old(db.donations) && db.requests == old(db.requests)
                      && db.foodItems == old(db.foodItems) && db.nextId == old(db.nextId)
  {
    if id !in db.volunteers {
      return Fail(NotFound);
    }
    var v := AddStars(db.volunteers[id], delta);
    SameEmailKeepsUnique(db.volunteers, id, v);
    db.volunteers := db.volunteers[id := v];
    r := Ok(v);
  }
}
