/** FoodItem.js: an inventory-style food record with its category, unit and
    status enums, the `min: 0` bound on quantity and the `trim` on name. The
    schema's pre-remove cascade acts on the store and is `Store.Db.RemoveFoodItem`. */
module FoodItemSchema {
  import opened Base

  datatype Category = Perishable | NonPerishable | Dairy | Meat | Produce | Bakery | Other
  datatype Unit = Kg | G | Lb | Oz | L | Ml | Units
  datatype FoodStatus = Available | Reserved | Collected | Expired | Donated

  function CategoryName(c: Category): string {
    match c
    case Perishable => "Perishable"
    case NonPerishable => "Non-Perishable"
    case Dairy => "Dairy"
    case Meat => "Meat"
    case Produce => "Produce"
    case Bakery => "Bakery"
    case Other => "Other"
  }

  function UnitName(u: Unit): string {
    match u
    case Kg => "kg"
    case G => "g"
    case Lb => "lb"
    case Oz => "oz"
    case L => "l"
    case Ml => "ml"
    case Units => "units"
  }

  function StatusName(s: FoodStatus): string {
    match s
    case Available => "available"
    case Reserved => "reserved"
    case Collected => "collected"
    case Expired => "expired"
    case Donated => "donated"
  }

  /** The enum validators: a string is accepted exactly when it names a member. */
  function ParseCategory(t: string): (r: Option<Category>)
    ensures r.Some? ==> CategoryName(r.value) == t
    ensures r.None? ==> forall c :: CategoryName(c) != t
  {
    if t == "Perishable" then Some(Perishable)
    else if t == "Non-Perishable" then Some(NonPerishable)
    else if t == "Dairy" then Some(Dairy)
    else if t == "Meat" then Some(Meat)
    else if t == "Produce" then Some(Produce)
    else if t == "Bakery" then Some(Bakery)
    else if t == "Other" then Some(Other)
    else None
  }

  function ParseUnit(t: string): (r: Option<Unit>)
    ensures r.Some? ==> UnitName(r.value) == t
    ensures r.None? ==> forall u :: UnitName(u) != t
  {
    if t == "kg" then Some(Kg)
    else if t == "g" then Some(G)
    else if t == "lb" then Some(Lb)
    else if t == "oz" then Some(Oz)
    else if t == "l" then Some(L)
    else if t == "ml" then Some(Ml)
    else if t == "units" then Some(Units)
    else None
  }

  function ParseStatus(t: string): (r: Option<FoodStatus>)
    ensures r.Some? ==> StatusName(r.value) == t
    ensures r.None? ==> forall s :: StatusName(s) != t
  {
    if t == "available" then Some(Available)
    else if t == "reserved" then Some(Reserved)
    else if t == "collected" then Some(Collected)
    else if t == "expired" then Some(Expired)
    else if t == "donated" then Some(Donated)
    else None
  }

  lemma ParseNames(c: Category, u: Unit, s: FoodStatus)
    ensures ParseCategory(CategoryName(c)) == Some(c)
    ensures ParseUnit(UnitName(u)) == Some(u)
    ensures ParseStatus(StatusName(s)) == Some(s)
  {
  }

  // `trim: true` on `name`: String.prototype.trim.

  /** ECMAScript WhiteSpace and LineTerminator code points. */
  predicate IsSpace(c: char) {
    || c == '\t' || c == '\n' || c == '\U{000B}' || c == '\U{000C}' || c == '\r'
    || c == ' ' || c == '\U{00A0}' || c == '\U{1680}'
    || ('\U{2000}' <= c <= '\U{200A}')
    || c == '\U{2028}' || c == '\U{2029}' || c == '\U{202F}' || c == '\U{205F}'
    || c == '\U{3000}' || c == '\U{FEFF}'
  }

  /** The length of the run of spaces that starts `s`. */
  function LeadingSpace(s: string): (n: nat)
    ensures n <= |s|
    ensures forall i :: 0 <= i < n ==> IsSpace(s[i])
    ensures n < |s| ==> !IsSpace(s[n])
  {
    if s != [] && IsSpace(s[0]) then 1 + LeadingSpace(s[1..]) else 0
  }

  /** The length of the run of spaces that ends `s`. */
  function TrailingSpace(s: string): (n: nat)
    ensures n <= |s|
    ensures forall i :: |s| - n <= i < |s| ==> IsSpace(s[i])
    ensures n < |s| ==> !IsSpace(s[|s| - 1 - n])
  {
    if s != [] && IsSpace(s[|s| - 1]) then 1 + TrailingSpace(s[..|s| - 1]) else 0
  }

  /** `s` with its leading space dropped and then its trailing space. */
  function StripBoth(s: string): (r: string)
    ensures LeadingSpace(s) + TrailingSpace(s[LeadingSpace(s)..]) + |r| == |s|
  {
    var t := s[LeadingSpace(s)..];
    t[..|t| - TrailingSpace(t)]
  }

  /** `StripBoth(s)` is the slice of `s` between the two runs of spaces. */
  lemma StripBothSlice(s: string)
    ensures var r := StripBoth(s); var a := LeadingSpace(s);
            && a + |r| <= |s| && r == s[a..a + |r|]
            && (forall i :: a + |r| <= i < |s| ==> IsSpace(s[i]))
  {
    var a := LeadingSpace(s);
    var t := s[a..];
    var r := StripBoth(s);
    assert r == s[a..a + |r|];
    forall i | a + |r| <= i < |s| ensures IsSpace(s[i]) {
      assert s[i] == t[i - a];
    }
  }

  /** `StripBoth(s)` starts and ends with a non-space, and is empty exactly
      when `s` is all spaces. */
  lemma StripBothEnds(s: string)
    ensures var r := StripBoth(s);
            && (r == [] <==> forall i :: 0 <= i < |s| ==> IsSpace(s[i]))
            && (r != [] ==> !IsSpace(r[0]) && !IsSpace(r[|r| - 1]))
  {
    var a := LeadingSpace(s);
    var t := s[a..];
    var b := TrailingSpace(t);
    var r := StripBoth(s);
    if r != [] {
      assert r[0] == s[a];
      assert r[|r| - 1] == t[|t| - 1 - b];
    } else {
      forall i | 0 <= i < |s| ensures IsSpace(s[i]) { }
    }
  }

  /** `s` without its leading and trailing spaces: a slice of `s` that starts
      and ends with a non-space, empty exactly when `s` is all spaces. */
  function Trim(s: string): (r: string)
    ensures LeadingSpace(s) + |r| <= |s| && r == s[LeadingSpace(s)..LeadingSpace(s) + |r|]
    ensures r == [] <==> forall i :: 0 <= i < |s| ==> IsSpace(s[i])
    ensures r != [] ==> !IsSpace(r[0]) && !IsSpace(r[|r| - 1])
    ensures forall i :: LeadingSpace(s) + |r| <= i < |s| ==> IsSpace(s[i])
  {
    StripBothSlice(s);
    StripBothEnds(s);
    StripBoth(s)
  }

  lemma {:induction false} TrimIdempotent(s: string)
    ensures Trim(Trim(s)) == Trim(s)
  {
    var r := Trim(s);
    assert LeadingSpace(r) == 0;
    assert TrailingSpace(r[0..]) == 0 by {
      assert r[0..] == r;
    }
  }

  /** A stored food item. `quantity` is a Number (whole numbers in this model). */
  datatype FoodItem = FoodItem(
    name: string,
    category: Category,
    quantity: int,
    unit: Unit,
    expiryDate: Timestamp,
    collectionTime: Timestamp,
    status: FoodStatus,
    donor: UserId,
    recipient: Option<UserId>,
    notes: Option<string>,
    location: string,
    createdAt: Timestamp)

  /** What the validators guarantee of a saved food item: a trimmed non-empty
      name, `min: 0` on quantity, a non-empty location. */
  predicate Valid(f: FoodItem) {
    f.name != "" && Trim(f.name) == f.name && f.quantity >= 0 && f.location != ""
  }

  /** `req.body` of `createFoodItem`, path by path. */
  datatype FoodItemBody = FoodItemBody(
    name: Option<string>,
    category: Option<string>,
    quantity: Option<int>,
    unit: Option<string>,
    expiryDate: Option<Timestamp>,
    collectionTime: Option<Timestamp>,
    status: Option<string>,
    donor: Option<UserId>,
    recipient: Option<UserId>,
    notes: Option<string>,
    location: Option<string>)

  /** Every validator of FoodItem.js, on a body after defaults. */
  predicate Admissible(body: FoodItemBody) {
    && body.name.Some? && Trim(body.name.value) != ""
    && body.category.Some? && ParseCategory(body.category.value).Some?
    && body.quantity.Some? && body.quantity.value >= 0
    && body.unit.Some? && ParseUnit(body.unit.value).Some?
    && body.expiryDate.Some? && body.collectionTime.Some?
    && (body.status.Some? ==> ParseStatus(body.status.value).Some?)
    && body.donor.Some?
    && body.location.Some? && body.location.value != ""
  }

  /** `FoodItem.create(body)`: the name is trimmed before it is validated,
      `status` defaults to available, `createdAt` to now. */
  function Create(body: FoodItemBody, now: Timestamp): (r: Option<FoodItem>)
    ensures r.Some? <==> Admissible(body)
    ensures r.Some? ==> Valid(r.value) && r.value.createdAt == now
    ensures r.Some? ==> && r.value.name == Trim(body.name.value)
                        && CategoryName(r.value.category) == body.category.value
                        && r.value.quantity == body.quantity.value
                        && UnitName(r.value.unit) == body.unit.value
                        && r.value.expiryDate == body.expiryDate.value
                        && r.value.collectionTime == body.collectionTime.value
                        && r.value.donor == body.donor.value
                        && r.value.recipient == body.recipient
                        && r.value.notes == body.notes
                        && r.value.location == body.location.value
    ensures r.Some? ==> if body.status.Some? then StatusName(r.value.status) == body.status.value
                        else r.value.status == Available
  {
    if Admissible(body) then
      TrimIdempotent(body.name.value);
      Some(FoodItem(
        Trim(body.name.value),
        ParseCategory(body.category.value).value,
        body.quantity.value,
        ParseUnit(body.unit.value).value,
        body.expiryDate.value,
        body.collectionTime.value,
        if body.status.Some? then ParseStatus(body.status.value).value else Available,
        body.donor.value,
        body.recipient,
        body.notes,
        body.location.value,
        now))
    else None
  }

  /** `collectFoodItem`'s write: only the status changes. */
  function Collect(f: FoodItem): (r: FoodItem)
    ensures r.status == Collected && r.(status := f.status) == f
    ensures Valid(f) ==> Valid(r)
  {
    f.(status := Collected)
  }
}
