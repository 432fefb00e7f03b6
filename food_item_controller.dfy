/** foodItem.Controller.js: creating food items behind a required-field
    check, the filtered listing, the statistics and the collect transition. */
module FoodItemController {
  import opened Base
  import opened FoodItemSchema
  import Listing
  import Store

  /** `requiredFields`, in the order the handler lists them. */
  const REQUIRED_FIELDS: seq<string> := ["name", "quantity", "unit", "expiryDate", "collectionTime", "location"]

  /** `req.body[field]` is truthy. An empty string and a quantity of 0 are
      falsy; a date is given exactly when the body carries one. */
  predicate Given(body: FoodItemBody, field: string) {
    if field == "name" then Present(body.name)
    else if field == "quantity" then body.quantity.Some? && body.quantity.value != 0
    else if field == "unit" then Present(body.unit)
    else if field == "expiryDate" then body.expiryDate.Some?
    else if field == "collectionTime" then body.collectionTime.Some?
    else if field == "location" then Present(body.location)
    else false
  }

  /** `r` lists some of the elements of `s`, keeping their order in `s`. */
  predicate SubsequenceOf(r: seq<string>, s: seq<string>)
    decreases |s|
  {
    r == [] || (s != [] && if r[0] == s[0] then SubsequenceOf(r[1..], s[1..]) else SubsequenceOf(r, s[1..]))
  }

  /** `fields.filter(field => !req.body[field])`: exactly the fields the body
      leaves falsy, in the order `fields` lists them. */
  function Missing(body: FoodItemBody, fields: seq<string>): (r: seq<string>)
    ensures forall f :: f in r <==> f in fields && !Given(body, f)
    ensures SubsequenceOf(r, fields)
  {
    if fields == [] then []
    else if Given(body, fields[0]) then Missing(body, fields[1..])
    else [fields[0]] + Missing(body, fields[1..])
  }

  /** `createFoodItem`: the caller becomes the donor, the falsy required
      fields give 400 naming them, and otherwise `FoodItem.create` validates. */
  method CreateFoodItem(db: Store.Db, caller: Caller, body: FoodItemBody, now: Timestamp)
    returns (r: Outcome<FoodItem>, id: Id)
    requires db.Valid()
    modifies db
    ensures db.Valid()
    ensures var b := body.(donor := Some(caller.id));
            var missing := Missing(b, REQUIRED_FIELDS);
            if missing != [] then r == Fail(MissingFields(missing)) && unchanged(db)
            else if Create(b, now).None? then r == Fail(ValidationFailed) && unchanged(db)
            else && r == Created(Create(b, now).value) && id !in old(db.foodItems)
                 && db.foodItems == old(db.foodItems)[id := r.value]
                 && db.donations == old(db.donations) && db.requests == old(db.requests)
                 && db.volunteers == old(db.volunteers) && db.nextId == old(db.nextId) + 1
    ensures r.Created? ==> r.value.donor == caller.id
  {
    var b := body.(donor := Some(caller.id));
    var missing := Missing(b, REQUIRED_FIELDS);
    if missing != [] {
      return Fail(MissingFields(missing)), 0;
    }
    var made := Create(b, now);
    if made.None? {
      return Fail(ValidationFailed), 0;
    }
    id := db.NewId();
    db.foodItems := db.foodItems[id := made.value];
    r := Created(made.value);
  }

  /** Every body the schema accepts passes the required-field check, except
      one with quantity 0: `min: 0` admits it but the check calls it missing. */
  lemma CheckIsStricterThanSchema(body: FoodItemBody)
    requires Admissible(body)
    ensures Missing(body, REQUIRED_FIELDS) == [] <==> body.quantity.value != 0
    ensures body.quantity.value == 0 ==> Missing(body, REQUIRED_FIELDS) == ["quantity"]
  {
    assert Given(body, "name") by {
      assert Trim("") == [];
    }
    assert Given(body, "unit");
    assert Missing(body, ["location"]) == [];
    assert Missing(body, ["collectionTime", "location"]) == [];
    assert Missing(body, ["expiryDate", "collectionTime", "location"]) == [];
    assert Missing(body, ["unit", "expiryDate", "collectionTime", "location"]) == [];
    var q := Missing(body, ["quantity", "unit", "expiryDate", "collectionTime", "location"]);
    assert q == if body.quantity.value == 0 then ["quantity"] else [];
    assert Missing(body, REQUIRED_FIELDS) == q;
  }

  predicate Distinct(s: seq<string>) {
    forall i, j :: 0 <= i < j < |s| ==> s[i] != s[j]
  }

  /** When `fields` has no repeats, neither does the list of missing ones. */
  lemma {:induction false} MissingIsDistinct(body: FoodItemBody, fields: seq<string>)
    requires Distinct(fields)
    ensures Distinct(Missing(body, fields))
  {
    if fields != [] {
      assert Distinct(fields[1..]) by {
        forall i, j | 0 <= i < j < |fields[1..]| ensures fields[1..][i] != fields[1..][j] {
          assert fields[1..][i] == fields[i + 1] && fields[1..][j] == fields[j + 1];
        }
      }
      MissingIsDistinct(body, fields[1..]);
      var rest := Missing(body, fields[1..]);
      assert fields[0] !in rest;
      if !Given(body, fields[0]) {
        var r := [fields[0]] + rest;
        forall i, j | 0 <= i < j < |r| ensures r[i] != r[j] {
          if i == 0 { assert r[j] == rest[j - 1]; assert rest[j - 1] in rest; }
          else { assert r[i] == rest[i - 1] && r[j] == rest[j - 1]; }
        }
        assert Missing(body, fields) == r;
      }
    }
  }

  // `getFoodItems`

  /** The query `getFoodItems` builds: a truthy `status` or `category`
      parameter must equal the stored enum string. */
  predicate Matches(f: FoodItem, status: Option<string>, category: Option<string>) {
    && (Present(status) ==> StatusName(f.status) == status.value)
    && (Present(category) ==> CategoryName(f.category) == category.value)
  }

  /** `FoodItem.find(query).sort({ expiryDate: 1 })`. */
  function GetFoodItems(items: map<Id, FoodItem>, status: Option<string>, category: Option<string>)
    : (r: seq<Id>)
    ensures forall k :: k in r <==> k in items && Matches(items[k], status, category)
    ensures forall i, j :: 0 <= i < j < |r| ==> r[i] != r[j]
    ensures forall i, j :: 0 <= i < j < |r| ==> items[r[i]].expiryDate <= items[r[j]].expiryDate
  {
    var ids := set k | k in items && Matches(items[k], status, category);
    var key := map k | k in ids :: items[k].expiryDate;
    Listing.SortBy(key, ids)
  }

  /** With no filter the listing holds every item. */
  lemma UnfilteredListsAll(items: map<Id, FoodItem>)
    ensures |GetFoodItems(items, None, None)| == |items|
  {
    var ids := set k | k in items && Matches(items[k], None, None);
    assert ids == items.Keys;
    assert GetFoodItems(items, None, None) == Listing.SortBy(map k | k in ids :: items[k].expiryDate, ids);
  }

  // `getFoodStats`

  function WithStatus(items: map<Id, FoodItem>, s: FoodStatus): set<Id> {
    set k | k in items && items[k].status == s
  }

  function InCategory(items: map<Id, FoodItem>, c: Category): set<Id> {
    set k | k in items && items[k].category == c
  }

  /** `{ status: 'available', expiryDate: { $gte: now } }`. */
  function AvailableFrom(items: map<Id, FoodItem>, now: Timestamp): set<Id> {
    set k | k in items && items[k].status == Available && items[k].expiryDate >= now
  }

  /** `{ status: 'available', expiryDate: { $gte: now, $lte: soon } }`, soon a week on. */
  function ExpiringWithinWeek(items: map<Id, FoodItem>, now: Timestamp): set<Id> {
    set k | k in items && items[k].status == Available && now <= items[k].expiryDate <= now + WEEK_MS
  }

  const ALL_STATUSES: set<FoodStatus> := {Available, Reserved, Collected, Expired, Donated}
  const ALL_CATEGORIES: set<Category> := {Perishable, NonPerishable, Dairy, Meat, Produce, Bakery, Other}

  /** The response's `data`. A `$group` stage yields a group only for a value
      some document holds, so an empty group is absent from the map. */
  datatype FoodStats = FoodStats(
    totalItems: nat,
    availableItems: nat,
    expiringSoon: nat,
    collectedItems: nat,
    expiredItems: nat,
    byStatus: map<FoodStatus, nat>,
    byCategory: map<Category, nat>)

  function Count<T>(m: map<T, nat>, t: T): nat {
    if t in m then m[t] else 0
  }

  function StatusTotal(m: map<FoodStatus, nat>): nat {
    Count(m, Available) + Count(m, Reserved) + Count(m, Collected) + Count(m, Expired) + Count(m, Donated)
  }

  function CategoryTotal(m: map<Category, nat>): nat {
    Count(m, Perishable) + Count(m, NonPerishable) + Count(m, Dairy) + Count(m, Meat)
    + Count(m, Produce) + Count(m, Bakery) + Count(m, Other)
  }

  lemma SubsetCard(a: set<Id>, b: set<Id>)
    requires a <= b
    ensures |a| <= |b|
  {
    assert b == a + (b - a);
  }

  lemma DisjointCard(a: set<Id>, b: set<Id>)
    requires a !! b
    ensures |a + b| == |a| + |b|
  {
    assert a * b == {};
  }

  /** The items whose status is one of `ss`. */
  function WithStatusIn(items: map<Id, FoodItem>, ss: set<FoodStatus>): set<Id> {
    set k | k in items && items[k].status in ss
  }

  function InCategories(items: map<Id, FoodItem>, cs: set<Category>): set<Id> {
    set k | k in items && items[k].category in cs
  }

  lemma StatusStep(items: map<Id, FoodItem>, ss: set<FoodStatus>, s: FoodStatus)
    requires s !in ss
    ensures |WithStatusIn(items, ss + {s})| == |WithStatusIn(items, ss)| + |WithStatus(items, s)|
  {
    assert WithStatusIn(items, ss + {s}) == WithStatusIn(items, ss) + WithStatus(items, s);
    DisjointCard(WithStatusIn(items, ss), WithStatus(items, s));
  }

  lemma CategoryStep(items: map<Id, FoodItem>, cs: set<Category>, c: Category)
    requires c !in cs
    ensures |InCategories(items, cs + {c})| == |InCategories(items, cs)| + |InCategory(items, c)|
  {
    assert InCategories(items, cs + {c}) == InCategories(items, cs) + InCategory(items, c);
    DisjointCard(InCategories(items, cs), InCategory(items, c));
  }

  /** The statuses `StatusPartition` counts first. */
  const FIRST_STATUSES: set<FoodStatus> := {Available, Reserved, Collected}

  lemma StatusPartitionFirst(items: map<Id, FoodItem>)
    ensures |WithStatus(items, Available)| + |WithStatus(items, Reserved)| + |WithStatus(items, Collected)|
            == |WithStatusIn(items, FIRST_STATUSES)|
  {
    var s0: set<FoodStatus> := {};
    assert WithStatusIn(items, s0) == {};
    StatusStep(items, s0, Available);
    var s1 := s0 + {Available};
    StatusStep(items, s1, Reserved);
    var s2 := s1 + {Reserved};
    StatusStep(items, s2, Collected);
    assert s2 + {Collected} == FIRST_STATUSES;
  }

  /** Every item has exactly one status: the status groups partition the items. */
  lemma StatusPartition(items: map<Id, FoodItem>)
    ensures |WithStatus(items, Available)| + |WithStatus(items, Reserved)| + |WithStatus(items, Collected)|
            + |WithStatus(items, Expired)| + |WithStatus(items, Donated)| == |items|
  {
    StatusPartitionFirst(items);
    var s3 := FIRST_STATUSES;
    StatusStep(items, s3, Expired);
    var s4 := s3 + {Expired};
    StatusStep(items, s4, Donated);
    var s5 := s4 + {Donated};
    assert WithStatusIn(items, s5) == items.Keys by {
      forall k | k in items ensures items[k].status in s5 { }
    }
  }

  /** The categories `CategoryPartition` counts first. */
  const FIRST_CATEGORIES: set<Category> := {Perishable, NonPerishable, Dairy, Meat}

  lemma CategoryPartitionFirst(items: map<Id, FoodItem>)
    ensures |InCategory(items, Perishable)| + |InCategory(items, NonPerishable)| + |InCategory(items, Dairy)|
            + |InCategory(items, Meat)| == |InCategories(items, FIRST_CATEGORIES)|
  {
    var c0: set<Category> := {};
    assert InCategories(items, c0) == {};
    CategoryStep(items, c0, Perishable);
    var c1 := c0 + {Perishable};
    CategoryStep(items, c1, NonPerishable);
    var c2 := c1 + {NonPerishable};
    CategoryStep(items, c2, Dairy);
    var c3 := c2 + {Dairy};
    CategoryStep(items, c3, Meat);
    assert c3 + {Meat} == FIRST_CATEGORIES;
  }

  /** Every item has exactly one category. */
  lemma CategoryPartition(items: map<Id, FoodItem>)
    ensures |InCategory(items, Perishable)| + |InCategory(items, NonPerishable)| + |InCategory(items, Dairy)|
            + |InCategory(items, Meat)| + |InCategory(items, Produce)| + |InCategory(items, Bakery)|
            + |InCategory(items, Other)| == |items|
  {
    CategoryPartitionFirst(items);
    var c4 := FIRST_CATEGORIES;
    CategoryStep(items, c4, Produce);
    var c5 := c4 + {Produce};
    CategoryStep(items, c5, Bakery);
    var c6 := c5 + {Bakery};
    CategoryStep(items, c6, Other);
    var c7 := c6 + {Other};
    assert InCategories(items, c7) == items.Keys by {
      forall k | k in items ensures items[k].category in c7 { }
    }
  }

  /** `$group` by status: one entry per status some item holds. */
  function StatusGroups(items: map<Id, FoodItem>): (m: map<FoodStatus, nat>)
    ensures forall s :: s in m <==> WithStatus(items, s) != {}
    ensures forall s :: Count(m, s) == |WithStatus(items, s)|
    ensures StatusTotal(m) == |items|
  {
    StatusPartition(items);
    map s | s in ALL_STATUSES && WithStatus(items, s) != {} :: |WithStatus(items, s)|
  }

  /** `$group` by category: one entry per category some item holds. */
  function CategoryGroups(items: map<Id, FoodItem>): (m: map<Category, nat>)
    ensures forall c :: c in m <==> InCategory(items, c) != {}
    ensures forall c :: Count(m, c) == |InCategory(items, c)|
    ensures CategoryTotal(m) == |items|
  {
    CategoryPartition(items);
    map c | c in ALL_CATEGORIES && InCategory(items, c) != {} :: |InCategory(items, c)|
  }

  /** The seven results of `getFoodStats`, all taken at the one instant `now`. */
  function GetFoodStats(items: map<Id, FoodItem>, now: Timestamp): (r: FoodStats)
    ensures r.totalItems == |items|
    ensures r.availableItems == |AvailableFrom(items, now)| && r.expiringSoon == |ExpiringWithinWeek(items, now)|
    ensures r.collectedItems == |WithStatus(items, Collected)| && r.expiredItems == |WithStatus(items, Expired)|
    ensures r.expiringSoon <= r.availableItems <= Count(r.byStatus, Available)
    ensures r.byStatus == StatusGroups(items) && r.byCategory == CategoryGroups(items)
    ensures StatusTotal(r.byStatus) == r.totalItems && CategoryTotal(r.byCategory) == r.totalItems
  {
    SubsetCard(ExpiringWithinWeek(items, now), AvailableFrom(items, now));
    SubsetCard(AvailableFrom(items, now), WithStatus(items, Available));
    FoodStats(
      |items|,
      |AvailableFrom(items, now)|,
      |ExpiringWithinWeek(items, now)|,
      |WithStatus(items, Collected)|,
      |WithStatus(items, Expired)|,
      StatusGroups(items),
      CategoryGroups(items))
  }

  // `collectFoodItem`

  /** `collectFoodItem`: 404 for an unknown id, 400 for an item already
      collected; from any other status the item becomes collected. The saved
      document still passes its validators, so the save succeeds. */
  method CollectFoodItem(db: Store.Db, id: Id) returns (r: Outcome<FoodItem>)
    requires db.Valid()
    modifies db
    ensures db.Valid()
    ensures id !in old(db.foodItems) ==> r == Fail(NotFound)
    ensures id in old(db.foodItems) && old(db.foodItems)[id].status == Collected ==> r == Fail(AlreadyCollected)
    ensures r.Fail? ==> unchanged(db)
    ensures r.Ok? <==> id in old(db.foodItems) && old(db.foodItems)[id].status != Collected
    ensures r.Ok? ==> && r.value == Collect(old(db.foodItems)[id])
                      && db.foodItems == old(db.foodItems)[id := r.value]
                      && db.donations == old(db.donations) && db.requests == old(db.requests)
                      && db.volunteers == old(db.volunteers) && db.nextId == old(db.nextId)
    ensures r.Ok? || r.Fail?
  {
    if id !in db.foodItems {
      return Fail(NotFound);
    }
    var f := db.foodItems[id];
    if f.status == Collected {
      return Fail(AlreadyCollected);
    }
    db.foodItems := db.foodItems[id := Collect(f)];
    r := Ok(Collect(f));
  }

  /** Collecting an item moves it from its status group to the collected
      count: the total stays, `collectedItems` grows by one. */
  lemma CollectMovesStats(items: map<Id, FoodItem>, id: Id, now: Timestamp)
    requires id in items && items[id].status != Collected
    ensures var after := GetFoodStats(items[id := Collect(items[id])], now);
            var before := GetFoodStats(items, now);
            && after.totalItems == before.totalItems
            && after.collectedItems == before.collectedItems + 1
            && Count(after.byStatus, items[id].status) + 1 == Count(before.byStatus, items[id].status)
  {
    var items' := items[id := Collect(items[id])];
    var s := items[id].status;
    assert WithStatus(items', Collected) == WithStatus(items, Collected) + {id};
    assert WithStatus(items, s) == WithStatus(items', s) + {id};
  }
}
