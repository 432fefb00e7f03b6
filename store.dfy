/** The document store: one collection per model, keyed by document id, and
    the id source for new documents. The handlers read and write it. */
module Store {
  import opened Base
  import DonationSchema
  import RequestSchema
  import FoodItemSchema
  import VolunteerSchema

  /** What the schemas' validators guarantee of every saved document, and
      that every id is below the next one handed out. */
  predicate DonationsValid(ds: map<Id, DonationSchema.Donation>, bound: Id) {
    forall k :: k in ds ==> k < bound && DonationSchema.Valid(ds[k])
  }

  predicate RequestsValid(rs: map<Id, RequestSchema.Request>, bound: Id) {
    forall k :: k in rs ==> k < bound && RequestSchema.Valid(rs[k])
  }

  predicate FoodItemsValid(fs: map<Id, FoodItemSchema.FoodItem>, bound: Id) {
    forall k :: k in fs ==> k < bound && FoodItemSchema.Valid(fs[k])
  }

  /** Volunteers also obey the unique index on `email`. */
  predicate VolunteersValid(vs: map<Id, VolunteerSchema.Volunteer>, bound: Id) {
    && (forall k :: k in vs ==> k < bound && VolunteerSchema.Valid(vs[k]))
    && VolunteerSchema.EmailsUnique(vs)
  }

  class Db {
    var donations: map<Id, DonationSchema.Donation>
    var requests: map<Id, RequestSchema.Request>
    var foodItems: map<Id, FoodItemSchema.FoodItem>
    var volunteers: map<Id, VolunteerSchema.Volunteer>
    /** Every id handed out so far is below `nextId`. */
    var nextId: Id

    ghost predicate Valid()
      reads this
    {
      && DonationsValid(donations, nextId) && RequestsValid(requests, nextId)
      && FoodItemsValid(foodItems, nextId) && VolunteersValid(volunteers, nextId)
    }

    constructor ()
      ensures Valid()
      ensures donations == map[] && requests == map[] && foodItems == map[] && volunteers == map[]
    {
      donations, requests, foodItems, volunteers := map[], map[], map[], map[];
      nextId := 0;
    }

    /** A new ObjectId: unused in every collection. */
    method NewId() returns (id: Id)
      requires Valid()
      modifies this`nextId
      ensures Valid() && id == old(nextId) && nextId == id + 1
      ensures id !in donations && id !in requests && id !in foodItems && id !in volunteers
    {
      id := nextId;
      nextId := nextId + 1;
    }

    /** `foodItem.remove()`: the schema's pre-remove hook deletes the requests
        whose `foodItem` path holds this item's id, then the item goes. No stored
        request has that path, so the hook deletes nothing: the requests stay. */
    method RemoveFoodItem(id: Id)
      requires Valid() && id in foodItems
      modifies this`foodItems
      ensures Valid()
      ensures foodItems == old(foodItems) - {id}
      ensures forall k :: k in requests <==>
                k in old(requests) && RequestSchema.LinkedFoodItem(old(requests)[k]) != Some(id)
      ensures requests == old(requests)
    {
      foodItems := foodItems - {id};
    }
  }
}
