/** The donation lifecycle end to end, on a fresh store: a donor offers
    bread, a recipient requests it, a second request is refused, and an
    admin's approval distributes it. */
module Scenarios {
  import opened Base
  import opened DonationSchema
  import RequestSchema
  import DonationController
  import RequestController
  import Store
  import VolunteerSchema
  import VolunteerController

  const DONOR: Caller := Caller(1, DonorRole, None)
  const RECIPIENT: Caller := Caller(2, RecipientRole, Some("45 Elm Ave"))
  const OTHER: Caller := Caller(3, RecipientRole, Some("7 Oak Rd"))
  const ADMIN: Caller := Caller(4, AdminRole, None)

  /** The donor offers two loaves of bread. */
  method OfferBread(db: Store.Db, now: Timestamp) returns (did: Id)
    requires db.Valid()
    modifies db
    ensures db.Valid() && did in db.donations
    ensures db.donations[did].status == Available && db.donations[did].recipient.None?
    ensures db.donations[did].donor == DONOR.id && db.donations[did].foodName == "Bread"
  {
    var body := DonationBody(Some("Bread"), Some("2 loaves"), Some(now + 3 * DAY_MS), None,
                             Some("123 St"), None, None, None);
    var created;
    created, did := DonationController.CreateDonation(db, DONOR, body, now);
  }

  /** The recipient requests it; another recipient's request is then refused. */
  method RequestBread(db: Store.Db, did: Id, now: Timestamp)
    returns (rid: Id, second: Outcome<RequestSchema.Request>)
    requires db.Valid() && did in db.donations && db.donations[did].status == Available
    modifies db
    ensures db.Valid() && did in db.donations && rid in db.requests
    ensures db.requests[rid].donation == Some(did) && db.requests[rid].recipient == RECIPIENT.id
    ensures db.requests[rid].status == RequestSchema.Pending
    ensures db.donations[did] == Reserve(old(db.donations[did]), RECIPIENT.id)
    ensures second == Fail(NotAvailable)
  {
    var requested;
    requested, rid := DonationController.RequestDonation(db, RECIPIENT, did, now);
    var unused;
    second, unused := DonationController.RequestDonation(db, OTHER, did, now);
  }

  /** An admin approves the request: its donation is distributed. */
  method ApproveBread(db: Store.Db, rid: Id, did: Id, now: Timestamp)
    requires db.Valid() && rid in db.requests && db.requests[rid].donation == Some(did) && did in db.donations
    modifies db
    ensures db.Valid() && did in db.donations
    ensures db.donations[did] == Distribute(old(db.donations[did]))
  {
    var approval := RequestSchema.EmptyBody.(status := Some("approved"));
    var approved := RequestController.UpdateRequest(db, ADMIN, rid, approval, now);
  }

  method BreadLifecycle(now: Timestamp)
    returns (offered: Donation, reserved: Donation, second: Outcome<RequestSchema.Request>, final: Donation)
    ensures offered.status == Available && offered.recipient.None? && offered.donor == DONOR.id
    ensures reserved.status == Reserved && reserved.recipient == Some(RECIPIENT.id)
    ensures second == Fail(NotAvailable) && second.Code() == 400
    ensures final.status == Distributed && final.recipient == Some(RECIPIENT.id)
    ensures final == reserved.(status := Distributed)
  {
    var db := new Store.Db();
    var did := OfferBread(db, now);
    offered := db.donations[did];
    var rid;
    rid, second := RequestBread(db, did, now);
    reserved := db.donations[did];
    ApproveBread(db, rid, did, now);
    final := db.donations[did];
  }

  /** A registered volunteer is rewarded through the handlers: 5 stars then 3
      add 8, and Gold then Silver are listed in that order. */
  method RewardVolunteer(db: Store.Db, id: Id)
    requires db.Valid() && id in db.volunteers
    modifies db
    ensures db.Valid() && id in db.volunteers
    ensures db.volunteers[id].stars == old(db.volunteers[id].stars) + 8
    ensures db.volunteers[id].rewards == old(db.volunteers[id].rewards) + ["Gold", "Silver"]
    ensures db.volunteers[id].email == old(db.volunteers[id].email)
  {
    var v0 := db.volunteers[id];
    var r1 := VolunteerController.AddStarsTo(db, id, 5);
    var r2 := VolunteerController.AddStarsTo(db, id, 3);
    var r3 := VolunteerController.AddRewardTo(db, id, "Gold");
    var r4 := VolunteerController.AddRewardTo(db, id, "Silver");
    VolunteerSchema.LedgerExamples(v0);
  }
}
