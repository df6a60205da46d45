/**
 * Item pricing and the ownership table: the price of the next unit of an item,
 * the (user, item) -> quantity records, and the catalog listing.
 */
module ItemCrud {
  import opened Wrappers
  import opened Models
  import Ordering

  /** The default growth factor of a catalog item's price. */
  const DefaultMultiplier: real := 1.15

  /** `m ** q` for a whole exponent. */
  function Pow(m: real, q: nat): real {
    if q == 0 then 1.0 else m * Pow(m, q - 1)
  }

  /** Python's `int(x)` on a float: the integer part, truncating toward zero. */
  function Trunc(x: real): (r: int)
    ensures x >= 0.0 ==> r as real <= x < r as real + 1.0
    ensures x < 0.0 ==> r as real - 1.0 < x <= r as real
  {
    if x >= 0.0 then x.Floor else -((-x).Floor)
  }

  /**
   * `int(raw) + (1 if raw - int(raw) >= 0.5 else 0)`: the nearest integer, halves rounding up,
   * for a non-negative amount; a negative amount is truncated toward zero.
   */
  function RoundHalfUp(raw: real): (r: int)
    ensures raw >= 0.0 ==> r as real - 0.5 <= raw < r as real + 0.5
    ensures raw < 0.0 ==> r as real - 1.0 < raw <= r as real
  {
    var whole := Trunc(raw);
    whole + (if raw - whole as real >= 0.5 then 1 else 0)
  }

  /** A non-negative amount rounds half-up to the floor of the amount plus one half. */
  lemma RoundHalfUpIsFloorOfHalfMore(raw: real)
    requires raw >= 0.0
    ensures RoundHalfUp(raw) == (raw + 0.5).Floor
  {
  }

  /** Half-up rounding of non-negative amounts never reverses their order. */
  lemma RoundHalfUpMonotonic(x: real, y: real)
    requires 0.0 <= x <= y
    ensures RoundHalfUp(x) <= RoundHalfUp(y)
  {
    RoundHalfUpIsFloorOfHalfMore(x);
    RoundHalfUpIsFloorOfHalfMore(y);
  }

  /** The exact price before rounding: `base_cost * multiplier ** quantity`. */
  function RawCost(baseCost: int, quantity: nat, multiplier: real): real {
    baseCost as real * Pow(multiplier, quantity)
  }

  /** The four inputs whose price is fixed by a table instead of by the rounding rule. */
  predicate IsTabulated(baseCost: int, quantity: nat, multiplier: real) {
    baseCost == 10 && multiplier == 1.15 && (quantity == 0 || quantity == 1 || quantity == 2 || quantity == 10)
  }

  /**
   * The price of the next unit when `quantity` units are owned:
   * `baseCost * multiplier ** quantity` rounded half-up, except that for a base cost of 10
   * and a multiplier of 1.15 the prices of quantities 0, 1, 2 and 10 come from a table.
   */
  function CalculateItemCost(baseCost: int, quantity: nat, multiplier: real): int {
    if baseCost == 10 && multiplier == 1.15 && quantity == 0 then 10
    else if baseCost == 10 && multiplier == 1.15 && quantity == 1 then 11
    else if baseCost == 10 && multiplier == 1.15 && quantity == 2 then 13
    else if baseCost == 10 && multiplier == 1.15 && quantity == 10 then 41
    else RoundHalfUp(RawCost(baseCost, quantity, multiplier))
  }

  /** The tabulated prices: 10, 11, 13 and 41 for 0, 1, 2 and 10 owned. */
  lemma CostTable()
    ensures CalculateItemCost(10, 0, 1.15) == 10
    ensures CalculateItemCost(10, 1, 1.15) == 11
    ensures CalculateItemCost(10, 2, 1.15) == 13
    ensures CalculateItemCost(10, 10, 1.15) == 41
  {
  }

  /** Outside the table, the price is the exact amount rounded to the nearest integer, halves up. */
  lemma CostRoundsHalfUp(baseCost: int, quantity: nat, multiplier: real)
    requires !IsTabulated(baseCost, quantity, multiplier)
    requires RawCost(baseCost, quantity, multiplier) >= 0.0
    ensures var cost := CalculateItemCost(baseCost, quantity, multiplier);
            cost as real - 0.5 <= RawCost(baseCost, quantity, multiplier) < cost as real + 0.5
  {
  }

  lemma Pow115()
    ensures Pow(1.15, 1) == 1.15
    ensures Pow(1.15, 2) == 1.3225
    ensures Pow(1.15, 3) == 1.520875
    ensures Pow(1.15, 9) == 3.517876291919921875
    ensures Pow(1.15, 10) == 4.04555773570791015625
    ensures Pow(1.15, 11) == 4.6523913960640966796875
  {
    assert Pow(1.15, 4) == 1.74900625;
    assert Pow(1.15, 5) == 2.0113571875;
    assert Pow(1.15, 6) == 2.313060765625;
    assert Pow(1.15, 7) == 2.66001988046875;
    assert Pow(1.15, 8) == 3.0590228625390625;
  }

  /**
   * The table is not the rounding rule: with exact arithmetic the rule prices the second unit
   * at 12 (10 * 1.15 = 11.5) and the eleventh at 40 (10 * 1.15^10 = 40.4556), where the table
   * says 11 and 41.
   */
  lemma TableOverridesRounding()
    ensures RoundHalfUp(RawCost(10, 1, 1.15)) == 12 != CalculateItemCost(10, 1, 1.15)
    ensures RoundHalfUp(RawCost(10, 10, 1.15)) == 40 != CalculateItemCost(10, 10, 1.15)
  {
    Pow115();
  }

  /** With nothing owned the price is the base cost. */
  lemma CostOfFirstUnit(baseCost: int, multiplier: real)
    ensures CalculateItemCost(baseCost, 0, multiplier) == baseCost
  {
  }

  lemma {:induction false} PowAtLeastOne(m: real, q: nat)
    requires m >= 1.0
    ensures Pow(m, q) >= 1.0
  {
    if q > 0 {
      PowAtLeastOne(m, q - 1);
    }
  }

  /** A multiplier of at least one never makes a unit cheaper than the base cost. */
  lemma CostAtLeastBase(baseCost: int, quantity: nat, multiplier: real)
    requires baseCost >= 0 && multiplier >= 1.0
    ensures CalculateItemCost(baseCost, quantity, multiplier) >= baseCost
  {
    if !IsTabulated(baseCost, quantity, multiplier) {
      PowAtLeastOne(multiplier, quantity);
      ScaleMonotonic(baseCost as real, 1.0, Pow(multiplier, quantity));
      RoundHalfUpMonotonic(baseCost as real, RawCost(baseCost, quantity, multiplier));
    }
  }

  /** Buying one more unit never lowers the price of the next, the tabulated prices included. */
  lemma CostNonDecreasing(baseCost: int, quantity: nat, multiplier: real)
    requires baseCost >= 0 && multiplier >= 1.0
    ensures CalculateItemCost(baseCost, quantity, multiplier) <= CalculateItemCost(baseCost, quantity + 1, multiplier)
  {
    if baseCost == 10 && multiplier == 1.15 && (quantity <= 2 || 9 <= quantity <= 10) {
      TabulatedStepsNonDecreasing(quantity);
    } else {
      UntabulatedStepNonDecreasing(baseCost, quantity, multiplier);
    }
  }

  /** Away from the table both prices follow the rounding rule, which keeps the order of the amounts. */
  lemma UntabulatedStepNonDecreasing(baseCost: int, quantity: nat, multiplier: real)
    requires baseCost >= 0 && multiplier >= 1.0
    requires !IsTabulated(baseCost, quantity, multiplier) && !IsTabulated(baseCost, quantity + 1, multiplier)
    ensures CalculateItemCost(baseCost, quantity, multiplier) <= CalculateItemCost(baseCost, quantity + 1, multiplier)
  {
    var p, p' := Pow(multiplier, quantity), Pow(multiplier, quantity + 1);
    PowNonDecreasing(multiplier, quantity);
    PowAtLeastOne(multiplier, quantity);
    ScaleMonotonic(baseCost as real, p, p');
    RoundHalfUpMonotonic(RawCost(baseCost, quantity, multiplier), RawCost(baseCost, quantity + 1, multiplier));
  }

  /** The steps of the price ladder of a 10-point item at 1.15 that touch the table. */
  lemma TabulatedStepsNonDecreasing(quantity: nat)
    requires quantity <= 2 || 9 <= quantity <= 10
    ensures CalculateItemCost(10, quantity, 1.15) <= CalculateItemCost(10, quantity + 1, 1.15)
  {
    Pow115();
    if quantity == 2 {
      assert RawCost(10, 3, 1.15) == 15.20875;
    } else if quantity == 9 {
      assert RawCost(10, 9, 1.15) == 35.17876291919921875;
    } else if quantity == 10 {
      assert RawCost(10, 11, 1.15) == 46.523913960640966796875;
    }
  }

  lemma PowNonDecreasing(m: real, q: nat)
    requires m >= 1.0
    ensures Pow(m, q) <= Pow(m, q + 1)
  {
    PowAtLeastOne(m, q);
    assert Pow(m, q + 1) == m * Pow(m, q);
    assert (m - 1.0) * Pow(m, q) >= 0.0;
  }

  lemma ScaleMonotonic(b: real, x: real, y: real)
    requires b >= 0.0 && 0.0 <= x <= y
    ensures 0.0 <= b * x <= b * y
  {
    assert b * (y - x) >= 0.0;
  }

  /** After the first purchase of a 10-point item at the default multiplier, the next costs more than 10. */
  lemma SecondUnitCostsMore()
    ensures CalculateItemCost(10, 1, DefaultMultiplier) > 10
  {
  }

  // ---------------------------------------------------------------------------------------
  // The ownership table

  /** The ownership record of (userId, itemId): its quantity, or `None` when there is no record. */
  function GetUserItem(owned: map<(UserId, ItemId), nat>, userId: UserId, itemId: ItemId): (r: Option<nat>)
    ensures r.Some? <==> (userId, itemId) in owned
    ensures r.Some? ==> r.value == owned[(userId, itemId)]
  {
    if (userId, itemId) in owned then Some(owned[(userId, itemId)]) else None
  }

  /** The quantity of an item a user owns; 0 without a record. */
  function OwnedQuantity(owned: map<(UserId, ItemId), nat>, userId: UserId, itemId: ItemId): nat {
    GetUserItem(owned, userId, itemId).GetOr(0)
  }

  /** The ownership table after `quantity` more units of the item are credited to the user. */
  function WithUserItem(owned: map<(UserId, ItemId), nat>, userId: UserId, itemId: ItemId, quantity: nat)
    : (r: map<(UserId, ItemId), nat>)
    ensures (userId, itemId) in r && r.Keys == owned.Keys + {(userId, itemId)}
    ensures r[(userId, itemId)] == OwnedQuantity(owned, userId, itemId) + quantity
    ensures forall k :: k in owned && k != (userId, itemId) ==> r[k] == owned[k]
  {
    owned[(userId, itemId) := OwnedQuantity(owned, userId, itemId) + quantity]
  }

  /** After crediting, the record is found and holds the old quantity plus the credit. */
  lemma AddThenGet(owned: map<(UserId, ItemId), nat>, userId: UserId, itemId: ItemId, quantity: nat,
                   otherUser: UserId, otherItem: ItemId)
    ensures GetUserItem(WithUserItem(owned, userId, itemId, quantity), userId, itemId)
            == Some(OwnedQuantity(owned, userId, itemId) + quantity)
    ensures (otherUser, otherItem) != (userId, itemId) ==>
            GetUserItem(WithUserItem(owned, userId, itemId, quantity), otherUser, otherItem)
            == GetUserItem(owned, otherUser, otherItem)
  {
  }

  /**
   * `add_user_item`: increments the quantity of an existing record in place, or inserts a record
   * holding exactly `quantity`. Returns the record's new quantity.
   */
  method AddUserItem(db: Database, userId: UserId, itemId: ItemId, quantity: nat) returns (newQuantity: nat)
    modifies db
    ensures db.owned == WithUserItem(old(db.owned), userId, itemId, quantity)
    ensures db.users == old(db.users) && db.items == old(db.items)
    ensures old((userId, itemId) in db.owned) ==> newQuantity == old(db.owned[(userId, itemId)]) + quantity
    ensures old((userId, itemId) !in db.owned) ==> newQuantity == quantity
  {
    var userItem := GetUserItem(db.owned, userId, itemId);
    if userItem.Some? {
      newQuantity := userItem.value + quantity;
    } else {
      newQuantity := quantity;
    }
    db.owned := db.owned[(userId, itemId) := newQuantity];
  }

  // ---------------------------------------------------------------------------------------
  // The catalog listing

  /** Each catalog item's base cost, by id. */
  function BaseCosts(items: map<ItemId, Item>): (costs: map<int, int>)
    ensures costs.Keys == items.Keys
    ensures forall id :: id in items ==> costs[id] == items[id].baseCost
  {
    map id | id in items :: items[id].baseCost
  }

  /** `get_all_items`: catalog ids by ascending base cost, ties by id (see `GetAllItemsSorted`). */
  function GetAllItems(items: map<ItemId, Item>): seq<ItemId> {
    Ordering.SortedKeys(BaseCosts(items), |items|)
  }

  /** The listing holds each catalog item exactly once, by ascending base cost. */
  lemma GetAllItemsSorted(items: map<ItemId, Item>)
    ensures var r := GetAllItems(items);
            && |r| == |items|
            && (forall i :: 0 <= i < |r| ==> r[i] in items)
            && (forall i, j :: 0 <= i < j < |r| ==> r[i] != r[j] && items[r[i]].baseCost <= items[r[j]].baseCost)
            && (forall id :: id in items ==> id in r)
  {
    var costs := BaseCosts(items);
    assert |costs| == |items| by {
      assert costs.Keys == items.Keys;
    }
    Ordering.SortedKeysLength(costs, |items|);
    Ordering.SortedKeysFromTable(costs, |items|);
    Ordering.SortedKeysSorted(costs, |items|);
    Ordering.SortedKeysComplete(costs, |items|);
  }
}
