/** Volunteer.js: a volunteer's profile, the unique index on `email`, and the
    reward ledger (`stars`, `rewards`) kept on the same document. */
module VolunteerSchema {
  import opened Base

  datatype Volunteer = Volunteer(
    fullName: string,
    email: string,
    phone: string,
    city: string,
    roles: string,
    availability: string,
    vehicle: string,
    motivation: string,
    emergencyContact: string,
    stars: int,
    rewards: seq<string>,
    createdAt: Timestamp)

  /** The nine `required: true` strings, in the order the schema declares them. */
  const REQUIRED_FIELDS: seq<string> :=
    ["fullName", "email", "phone", "city", "roles", "availability", "vehicle", "motivation", "emergencyContact"]

  /** The nine profile strings are non-empty. `stars` has no bound. */
  predicate Valid(v: Volunteer) {
    && v.fullName != "" && v.email != "" && v.phone != "" && v.city != ""
    && v.roles != "" && v.availability != "" && v.vehicle != "" && v.motivation != ""
    && v.emergencyContact != ""
  }

  /** `req.body` of `createVolunteer`. */
  datatype VolunteerBody = VolunteerBody(
    fullName: Option<string>,
    email: Option<string>,
    phone: Option<string>,
    city: Option<string>,
    roles: Option<string>,
    availability: Option<string>,
    vehicle: Option<string>,
    motivation: Option<string>,
    emergencyContact: Option<string>,
    stars: Option<int>,
    rewards: Option<seq<string>>)

  /** `req.body[name]` for the profile strings (absent for any other name). */
  function Field(body: VolunteerBody, name: string): Option<string> {
    if name == "fullName" then body.fullName
    else if name == "email" then body.email
    else if name == "phone" then body.phone
    else if name == "city" then body.city
    else if name == "roles" then body.roles
    else if name == "availability" then body.availability
    else if name == "vehicle" then body.vehicle
    else if name == "motivation" then body.motivation
    else if name == "emergencyContact" then body.emergencyContact
    else None
  }

  /** `new Volunteer(body)` and its validators: the nine strings are required,
      `stars` defaults to 0 and `rewards` to the empty list. */
  function Create(body: VolunteerBody, now: Timestamp): (r: Option<Volunteer>)
    ensures r.Some? <==> forall i :: 0 <= i < |REQUIRED_FIELDS| ==> Present(Field(body, REQUIRED_FIELDS[i]))
    ensures r.Some? ==> Valid(r.value) && r.value.createdAt == now
    ensures r.Some? ==> AsBody(r.value) == body.(stars := Some(r.value.stars), rewards := Some(r.value.rewards))
    ensures r.Some? ==> r.value.stars == (if body.stars.Some? then body.stars.value else 0)
    ensures r.Some? ==> r.value.rewards == (if body.rewards.Some? then body.rewards.value else [])
  {
    if && Present(body.fullName) && Present(body.email) && Present(body.phone) && Present(body.city)
       && Present(body.roles) && Present(body.availability) && Present(body.vehicle)
       && Present(body.motivation) && Present(body.emergencyContact)
    then
      Some(Volunteer(
        body.fullName.value, body.email.value, body.phone.value, body.city.value,
        body.roles.value, body.availability.value, body.vehicle.value, body.motivation.value,
        body.emergencyContact.value,
        if body.stars.Some? then body.stars.value else 0,
        if body.rewards.Some? then body.rewards.value else [],
        now))
    else
      assert !Present(Field(body, REQUIRED_FIELDS[0])) || !Present(Field(body, REQUIRED_FIELDS[1]))
          || !Present(Field(body, REQUIRED_FIELDS[2])) || !Present(Field(body, REQUIRED_FIELDS[3]))
          || !Present(Field(body, REQUIRED_FIELDS[4])) || !Present(Field(body, REQUIRED_FIELDS[5]))
          || !Present(Field(body, REQUIRED_FIELDS[6])) || !Present(Field(body, REQUIRED_FIELDS[7]))
          || !Present(Field(body, REQUIRED_FIELDS[8]));
      None
  }

  /** The profile as a body that sets every path. */
  function AsBody(v: Volunteer): VolunteerBody {
    VolunteerBody(Some(v.fullName), Some(v.email), Some(v.phone), Some(v.city), Some(v.roles),
                  Some(v.availability), Some(v.vehicle), Some(v.motivation), Some(v.emergencyContact),
                  Some(v.stars), Some(v.rewards))
  }

  /** The unique index on `email`. */
  predicate EmailsUnique(vs: map<Id, Volunteer>) {
    forall a, b :: a in vs && b in vs && a != b ==> vs[a].email != vs[b].email
  }

  predicate EmailTaken(vs: map<Id, Volunteer>, email: string) {
    exists k :: k in vs && vs[k].email == email
  }

  /** Inserting a volunteer whose email no other volunteer has keeps the index unique. */
  lemma InsertKeepsEmailsUnique(vs: map<Id, Volunteer>, id: Id, v: Volunteer)
    requires EmailsUnique(vs) && id !in vs && !EmailTaken(vs, v.email)
    ensures EmailsUnique(vs[id := v])
  {
  }

  // The ledger: `$inc` on stars and `$push` on rewards.

  function AddStars(v: Volunteer, delta: int): (r: Volunteer)
    ensures r.stars - v.stars == delta && r.(stars := v.stars) == v
  {
    v.(stars := v.stars + delta)
  }

  function AddReward(v: Volunteer, reward: string): (r: Volunteer)
    ensures |r.rewards| == |v.rewards| + 1
    ensures r.rewards[..|v.rewards|] == v.rewards && r.rewards[|v.rewards|] == reward
    ensures r.(rewards := v.rewards) == v
  {
    v.(rewards := v.rewards + [reward])
  }

  /** Successive `addStars` calls, in order. */
  function AddStarsSeq(v: Volunteer, deltas: seq<int>): Volunteer
    decreases |deltas|
  {
    if deltas == [] then v else AddStarsSeq(AddStars(v, deltas[0]), deltas[1..])
  }

  /** Successive `addReward` calls, in order. */
  function AddRewardSeq(v: Volunteer, rewardList: seq<string>): Volunteer
    decreases |rewardList|
  {
    if rewardList == [] then v else AddRewardSeq(AddReward(v, rewardList[0]), rewardList[1..])
  }

  function Sum(xs: seq<int>): int {
    if xs == [] then 0 else xs[0] + Sum(xs[1..])
  }

  /** The stars counter accumulates: after any run of `addStars` it has grown
      by the sum of the deltas, and nothing else changed. */
  lemma {:induction false} StarsAccumulate(v: Volunteer, deltas: seq<int>)
    ensures AddStarsSeq(v, deltas) == v.(stars := v.stars + Sum(deltas))
    decreases |deltas|
  {
    if deltas != [] {
      StarsAccumulate(AddStars(v, deltas[0]), deltas[1..]);
    }
  }

  /** The rewards list is append-only and keeps call order, with no dedup. */
  lemma {:induction false} RewardsAppend(v: Volunteer, rewardList: seq<string>)
    ensures AddRewardSeq(v, rewardList) == v.(rewards := v.rewards + rewardList)
    decreases |rewardList|
  {
    if rewardList != [] {
      RewardsAppend(AddReward(v, rewardList[0]), rewardList[1..]);
      assert v.rewards + [rewardList[0]] + rewardList[1..] == v.rewards + rewardList;
    }
  }

  /** `addStars(v, 5)` then `addStars(v, 3)` adds 8; Gold then Silver lists both, in that order. */
  lemma LedgerExamples(v: Volunteer)
    ensures AddStars(AddStars(v, 5), 3).stars == v.stars + 8
    ensures AddReward(AddReward(v, "Gold"), "Silver").rewards == v.rewards + ["Gold", "Silver"]
  {
  }
}
