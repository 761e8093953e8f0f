/**
 * The shopping cart of src/context/CartContext.tsx: a list of line items kept
 * in first-added order, four operations that replace the list, the derived
 * total, and the sanitiser that rebuilds the list from local storage when the
 * page loads.
 *
 * Each operation is a function from the old list to the new one; the class
 * `CartStore` holds the current list (the `items` state) and the last value
 * written to storage, and its methods apply those functions.
 */
module Cart {
  import opened Products
  import opened Seqs

  /** `CartItem = Product & { quantity }`; the item's id is its product's id. */
  datatype CartItem = CartItem(product: Product, quantity: int)

  function IdOf(it: CartItem): string { it.product.id }

  /** `items.find(item => item.id === id)` finds something. */
  predicate HasId(items: seq<CartItem>, id: string)
  {
    exists i :: 0 <= i < |items| && items[i].product.id == id
  }

  ghost predicate QuantitiesPositive(items: seq<CartItem>)
  {
    forall i :: 0 <= i < |items| ==> items[i].quantity >= 1
  }

  ghost predicate IdsDistinct(items: seq<CartItem>)
  {
    DistinctKeys(items, IdOf)
  }

  /** The cart's intended invariant: every quantity at least 1, at most one item per id. */
  ghost predicate Valid(items: seq<CartItem>)
  {
    QuantitiesPositive(items) && IdsDistinct(items)
  }

  // ---------------------------------------------------------------------------
  // Operations

  /** addItem: raise the quantity of the item with the product's id, or append it with quantity 1. */
  function ItemAdded(items: seq<CartItem>, p: Product): (r: seq<CartItem>)
    ensures HasId(items, p.id) ==>
      |r| == |items| &&
      forall i :: 0 <= i < |items| ==>
        r[i].product == items[i].product &&
        r[i].quantity == items[i].quantity + (if items[i].product.id == p.id then 1 else 0)
    ensures !HasId(items, p.id) ==>
      |r| == |items| + 1 && r[..|items|] == items && r[|items|] == CartItem(p, 1)
  {
    if HasId(items, p.id) then
      Map(items, (it: CartItem) => if it.product.id == p.id then it.(quantity := it.quantity + 1) else it)
    else
      items + [CartItem(p, 1)]
  }

  /** `Math.max(0, Math.floor(q))`: the largest whole number not above q, or 0 when that is negative. */
  function Clamp(q: real): (n: int)
    ensures n >= 0
    ensures n == 0 <==> q < 1.0
    ensures n > 0 ==> n as real <= q < n as real + 1.0
  {
    if q.Floor < 0 then 0 else q.Floor
  }

  /** The map stage of updateQuantity: the matching items get the clamped quantity. */
  function WithQuantity(items: seq<CartItem>, id: string, q: real): seq<CartItem>
  {
    Map(items, (it: CartItem) => if it.product.id == id then it.(quantity := Clamp(q)) else it)
  }

  function Positive(it: CartItem): bool { it.quantity > 0 }

  /**
   * updateQuantity: set the quantity of the items with this id to Clamp(q), then
   * drop every item whose quantity is not positive.
   */
  function QuantityUpdated(items: seq<CartItem>, id: string, q: real): (r: seq<CartItem>)
    ensures |r| <= |items|
    ensures forall i :: 0 <= i < |r| ==> r[i].quantity > 0
    ensures forall x :: x in items && x.product.id != id && x.quantity > 0 ==> x in r
  {
    Filter(WithQuantity(items, id, q), Positive)
  }

  /** removeItem: keep the items whose id differs. */
  function ItemRemoved(items: seq<CartItem>, id: string): (r: seq<CartItem>)
    ensures |r| <= |items|
    ensures !HasId(r, id)
    ensures forall x :: x in items && x.product.id != id ==> x in r
    ensures forall x :: x in r ==> x in items
  {
    Filter(items, (it: CartItem) => it.product.id != id)
  }

  /** One line's amount: `item.price * item.quantity`. */
  function Amount(it: CartItem): int { it.product.price * it.quantity }

  lemma AmountOneMore(it: CartItem, x: CartItem)
    requires x.product == it.product && x.quantity == it.quantity + 1
    ensures Amount(x) == Amount(it) + it.product.price
  {
    var price, q := it.product.price, it.quantity;
    calc {
      price * (q + 1);
      price * q + price * 1;
    }
  }

  /** total: the sum of price times quantity, accumulated from the first item on. */
  function TotalOf(items: seq<CartItem>): (t: int)
    ensures (forall i :: 0 <= i < |items| ==> items[i].quantity >= 0 && items[i].product.price >= 0) ==> t >= 0
  {
    if items == [] then 0
    else
      TotalOf(items[..|items| - 1]) + Amount(items[|items| - 1])
  }

  // ---------------------------------------------------------------------------
  // Persisted value

  /** The `quantity` property of a stored entry: a JSON number, or anything else. */
  datatype StoredQuantity = Number(value: int) | NotNumber

  /**
   * One element of the stored array. `NotObject` is null or a primitive (its `id`
   * reads as undefined); a missing id is represented as the empty id, since both
   * are falsy.
   */
  datatype StoredEntry = NotObject | Stored(product: Product, quantity: StoredQuantity)

  /** What reading the cart key yields once parsed. */
  datatype StoredCart =
    | Absent          // no value, or the empty string
    | Malformed       // JSON.parse (or the storage read) threw
    | NotArray        // parsed, but not an array
    | Array(entries: seq<StoredEntry>)

  /** The filter of getInitialCart: a truthy id and a numeric quantity above 0. */
  predicate Survives(e: StoredEntry)
  {
    e.Stored? && e.product.id != "" && e.quantity.Number? && e.quantity.value > 0
  }

  function Restored(e: StoredEntry): CartItem
    requires Survives(e)
  {
    CartItem(e.product, e.quantity.value)
  }

  /** The surviving stored entries, in stored order. */
  function Sanitise(entries: seq<StoredEntry>): (r: seq<CartItem>)
    ensures |r| <= |entries|
    ensures forall i :: 0 <= i < |r| ==> r[i].quantity > 0 && r[i].product.id != ""
  {
    if entries == [] then []
    else (if Survives(entries[0]) then [Restored(entries[0])] else []) + Sanitise(entries[1..])
  }

  /** getInitialCart: no window, or anything but an array, gives the empty cart. */
  function InitialCart(hasWindow: bool, stored: StoredCart): (r: seq<CartItem>)
    ensures !hasWindow || !stored.Array? ==> r == []
    ensures hasWindow && stored.Array? ==> r == Sanitise(stored.entries)
    ensures hasWindow && stored.Array? ==> |r| <= |stored.entries|
    ensures QuantitiesPositive(r)
  {
    if !hasWindow then []
    else
      match stored
      case Array(entries) => Sanitise(entries)
      case _ => []
  }

  function Encoded(it: CartItem): StoredEntry { Stored(it.product, Number(it.quantity)) }

  /** `JSON.stringify(items)` as it reads back after `JSON.parse`. */
  function Serialize(items: seq<CartItem>): (s: StoredCart)
    ensures s.Array? && |s.entries| == |items|
  {
    Array(Map(items, Encoded))
  }

  // ---------------------------------------------------------------------------
  // Sanitiser lemmas

  /** Appending a stored entry appends its restored item exactly when it survives: stored order is kept. */
  lemma {:induction false} SanitiseSnoc(entries: seq<StoredEntry>, e: StoredEntry)
    ensures Sanitise(entries + [e]) == Sanitise(entries) + (if Survives(e) then [Restored(e)] else [])
  {
    if entries == [] {
      assert entries + [e] == [e];
    } else {
      assert (entries + [e])[1..] == entries[1..] + [e];
      SanitiseSnoc(entries[1..], e);
    }
  }

  function Persistable(it: CartItem): bool { it.quantity > 0 && it.product.id != "" }

  lemma {:induction false} SanitiseSerialized(items: seq<CartItem>)
    ensures Sanitise(Serialize(items).entries) == Filter(items, Persistable)
  {
    if items != [] {
      assert Serialize(items).entries[1..] == Serialize(items[1..]).entries;
      SanitiseSerialized(items[1..]);
    }
  }

  /**
   * Reloading a saved cart gives it back exactly when every item has a positive
   * quantity and a non-empty id; otherwise some item is lost.
   */
  lemma SaveThenLoad(items: seq<CartItem>)
    ensures InitialCart(true, Serialize(items)) == items <==>
      forall i :: 0 <= i < |items| ==> items[i].quantity > 0 && items[i].product.id != ""
  {
    SanitiseSerialized(items);
    if forall i :: 0 <= i < |items| ==> items[i].quantity > 0 && items[i].product.id != "" {
      FilterKeepsAll(items, Persistable);
    }
  }

  /** The sanitiser does not establish unique ids: two stored entries with one id both survive. */
  lemma SanitiseKeepsDuplicateIds()
    ensures !IdsDistinct(InitialCart(true, Array([Stored(StoleMagna, Number(1)), Stored(StoleMagna, Number(2))])))
  {
    var es := [Stored(StoleMagna, Number(1)), Stored(StoleMagna, Number(2))];
    assert StoleMagna.id != "";
    assert Survives(es[0]) && Survives(es[1]);
    assert Sanitise(es[1..]) == [Restored(es[1])] + Sanitise(es[1..][1..]);
    assert es[1..][1..] == [];
    var r := InitialCart(true, Array(es));
    assert r == [CartItem(StoleMagna, 1), CartItem(StoleMagna, 2)];
    assert IdOf(r[0]) == IdOf(r[1]);
  }

  /** A negative quantity and an empty id are both dropped. */
  lemma SanitiseDropsInvalidEntries()
    ensures InitialCart(true, Array([
      Stored(StoleMagna.(id := "x"), Number(-3)),
      Stored(StoleMagna.(id := ""), Number(2))])) == []
  {
    var es := [Stored(StoleMagna.(id := "x"), Number(-3)), Stored(StoleMagna.(id := ""), Number(2))];
    assert !Survives(es[0]) && !Survives(es[1]);
    assert Sanitise(es[1..]) == Sanitise(es[1..][1..]);
    assert es[1..][1..] == [];
  }

  // ---------------------------------------------------------------------------
  // Invariant preservation

  lemma ItemAddedValid(items: seq<CartItem>, p: Product)
    requires Valid(items)
    ensures Valid(ItemAdded(items, p))
  {
    var r := ItemAdded(items, p);
    if !HasId(items, p.id) {
      forall i, j | 0 <= i < j < |r| ensures IdOf(r[i]) != IdOf(r[j]) {
        if j == |items| {
          assert r[i] == items[i];
        } else {
          assert r[i] == items[i] && r[j] == items[j];
        }
      }
    } else {
      forall i, j | 0 <= i < j < |r| ensures IdOf(r[i]) != IdOf(r[j]) {
        assert IdOf(r[i]) == IdOf(items[i]) && IdOf(r[j]) == IdOf(items[j]);
      }
    }
  }

  lemma QuantityUpdatedValid(items: seq<CartItem>, id: string, q: real)
    requires IdsDistinct(items)
    ensures Valid(QuantityUpdated(items, id, q))
  {
    var m := WithQuantity(items, id, q);
    forall i, j | 0 <= i < j < |m| ensures IdOf(m[i]) != IdOf(m[j]) {
      assert IdOf(m[i]) == IdOf(items[i]) && IdOf(m[j]) == IdOf(items[j]);
    }
    FilterDistinctKeys(m, Positive, IdOf);
  }

  lemma ItemRemovedValid(items: seq<CartItem>, id: string)
    requires Valid(items)
    ensures Valid(ItemRemoved(items, id))
  {
    FilterDistinctKeys(items, (it: CartItem) => it.product.id != id, IdOf);
  }

  // ---------------------------------------------------------------------------
  // Effect of updateQuantity and removeItem on a valid cart

  /** With unique ids, the map stage of updateQuantity touches item i only. */
  lemma WithQuantityAt(items: seq<CartItem>, i: nat, q: real)
    requires IdsDistinct(items) && i < |items|
    ensures WithQuantity(items, items[i].product.id, q) == items[i := items[i].(quantity := Clamp(q))]
  {
    var m := WithQuantity(items, items[i].product.id, q);
    forall k | 0 <= k < |items| ensures m[k] == items[i := items[i].(quantity := Clamp(q))][k] {
      if k != i {
        assert IdOf(items[k]) != IdOf(items[i]);
      }
    }
  }

  /** updateQuantity overwrites the quantity of the item with the id, so its old quantity does not matter. */
  lemma QuantityUpdatedOverwrites(items: seq<CartItem>, i: nat, y: CartItem, q: real)
    requires i < |items| && y.product == items[i].product
    ensures QuantityUpdated(items[i := y], y.product.id, q) == QuantityUpdated(items, y.product.id, q)
  {
    var id := y.product.id;
    var m, m' := WithQuantity(items, id, q), WithQuantity(items[i := y], id, q);
    forall k | 0 <= k < |items| ensures m'[k] == m[k] {
    }
    assert m' == m;
  }

  /** Dropping the non-positive items of a positive list with one item replaced. */
  lemma FilterPositiveReplaced(s: seq<CartItem>, i: nat, x: CartItem)
    requires QuantitiesPositive(s) && i < |s|
    ensures Filter(s[i := x], Positive) == if x.quantity > 0 then s[i := x] else s[..i] + s[i + 1..]
  {
    var pre, post := s[..i], s[i + 1..];
    assert s[i := x] == pre + [x] + post;
    FilterAround(pre, x, post, Positive);
    assert Filter(pre, Positive) == pre by {
      FilterKeepsAll(pre, Positive);
    }
    assert Filter(post, Positive) == post by {
      FilterKeepsAll(post, Positive);
    }
    FilterSingleton(x, Positive);
    if x.quantity > 0 {
      calc {
        Filter(s[i := x], Positive);
        Filter(pre, Positive) + Filter([x], Positive) + Filter(post, Positive);
        pre + [x] + post;
      }
    } else {
      calc {
        Filter(s[i := x], Positive);
        Filter(pre, Positive) + Filter([x], Positive) + Filter(post, Positive);
        pre + [] + post;
        { assert pre + [] == pre; }
        pre + post;
      }
    }
  }

  /** On a valid cart, updating item i sets its quantity, or removes it when the clamped value is 0. */
  lemma QuantityUpdatedAt(items: seq<CartItem>, i: nat, q: real)
    requires Valid(items) && i < |items|
    ensures QuantityUpdated(items, items[i].product.id, q) ==
      if Clamp(q) == 0 then items[..i] + items[i + 1..]
      else items[i := items[i].(quantity := Clamp(q))]
  {
    WithQuantityAt(items, i, q);
    FilterPositiveReplaced(items, i, items[i].(quantity := Clamp(q)));
  }

  /** Requesting the quantity an item already has changes nothing. */
  lemma QuantityUpdatedSame(items: seq<CartItem>, i: nat)
    requires Valid(items) && i < |items|
    ensures QuantityUpdated(items, items[i].product.id, items[i].quantity as real) == items
  {
    var x := items[i];
    assert Clamp(x.quantity as real) == x.quantity;
    QuantityUpdatedAt(items, i, x.quantity as real);
    assert items[i := x.(quantity := x.quantity)] == items;
  }

  /** On a cart of positive quantities, updating an unknown id changes nothing. */
  lemma QuantityUpdatedUnknown(items: seq<CartItem>, id: string, q: real)
    requires QuantitiesPositive(items) && !HasId(items, id)
    ensures QuantityUpdated(items, id, q) == items
  {
    var m := WithQuantity(items, id, q);
    assert m == items;
    FilterKeepsAll(items, Positive);
  }

  /** On a cart of positive quantities, a request that clamps to 0 removes every item with the id. */
  lemma {:induction false} QuantityUpdatedToZero(items: seq<CartItem>, id: string, q: real)
    requires QuantitiesPositive(items) && Clamp(q) == 0
    ensures QuantityUpdated(items, id, q) == ItemRemoved(items, id)
  {
    if items != [] {
      assert WithQuantity(items, id, q)[1..] == WithQuantity(items[1..], id, q);
      assert QuantitiesPositive(items[1..]) by {
        forall k | 0 <= k < |items[1..]| ensures items[1..][k].quantity >= 1 {
          assert items[1..][k] == items[k + 1];
        }
      }
      QuantityUpdatedToZero(items[1..], id, q);
    }
  }

  /**
   * The effect of updateQuantity on any cart of positive quantities, duplicate
   * ids included: a request that clamps to 0 removes every item with the id;
   * otherwise every item with the id gets the clamped quantity in place and
   * every other item stays where it was.
   */
  lemma QuantityUpdatedEffect(items: seq<CartItem>, id: string, q: real)
    requires QuantitiesPositive(items)
    ensures Clamp(q) == 0 ==> QuantityUpdated(items, id, q) == ItemRemoved(items, id)
    ensures Clamp(q) > 0 ==>
      var r := QuantityUpdated(items, id, q);
      |r| == |items| &&
      forall i :: 0 <= i < |items| ==>
        r[i] == if items[i].product.id == id then items[i].(quantity := Clamp(q)) else items[i]
  {
    if Clamp(q) == 0 {
      QuantityUpdatedToZero(items, id, q);
    } else {
      var m := WithQuantity(items, id, q);
      assert forall i :: 0 <= i < |m| ==> Positive(m[i]);
      FilterKeepsAll(m, Positive);
    }
  }

  /** Adding keeps every quantity positive. */
  lemma ItemAddedPositive(items: seq<CartItem>, p: Product)
    requires QuantitiesPositive(items)
    ensures QuantitiesPositive(ItemAdded(items, p))
  {
    var r := ItemAdded(items, p);
    if !HasId(items, p.id) {
      forall i | 0 <= i < |r| ensures r[i].quantity >= 1 {
        if i < |items| {
          assert r[i] == r[..|items|][i];
        }
      }
    }
  }

  /** Removing keeps every quantity positive. */
  lemma ItemRemovedPositive(items: seq<CartItem>, id: string)
    requires QuantitiesPositive(items)
    ensures QuantitiesPositive(ItemRemoved(items, id))
  {
    var r := ItemRemoved(items, id);
    forall i | 0 <= i < |r| ensures r[i].quantity >= 1 {
      assert r[i] in items;
      var k :| 0 <= k < |items| && items[k] == r[i];
    }
  }

  /** Removing an unknown id changes nothing. */
  lemma ItemRemovedUnknown(items: seq<CartItem>, id: string)
    requires !HasId(items, id)
    ensures ItemRemoved(items, id) == items
  {
    FilterKeepsAll(items, (it: CartItem) => it.product.id != id);
  }

  // ---------------------------------------------------------------------------
  // Total

  lemma {:induction false} TotalAppend(a: seq<CartItem>, b: seq<CartItem>)
    ensures TotalOf(a + b) == TotalOf(a) + TotalOf(b)
  {
    if b == [] {
      assert a + b == a;
    } else {
      assert (a + b)[..|a + b| - 1] == a + b[..|b| - 1];
      TotalAppend(a, b[..|b| - 1]);
    }
  }

  /** Replacing item i changes the total by the difference of the two line amounts. */
  lemma TotalReplaceAt(items: seq<CartItem>, i: nat, x: CartItem)
    requires i < |items|
    ensures TotalOf(items[i := x]) == TotalOf(items) - Amount(items[i]) + Amount(x)
  {
    assert items == items[..i] + [items[i]] + items[i + 1..];
    assert items[i := x] == items[..i] + [x] + items[i + 1..];
    TotalAppend(items[..i] + [items[i]], items[i + 1..]);
    TotalAppend(items[..i], [items[i]]);
    TotalAppend(items[..i] + [x], items[i + 1..]);
    TotalAppend(items[..i], [x]);
    assert TotalOf([x]) == Amount(x) by {
      assert [x][..0] == [];
    }
    assert TotalOf([items[i]]) == Amount(items[i]) by {
      assert [items[i]][..0] == [];
    }
  }

  /** With unique ids, adding a product already present raises that one item's quantity. */
  lemma ItemAddedAt(items: seq<CartItem>, p: Product, i: nat)
    requires IdsDistinct(items) && i < |items| && items[i].product.id == p.id
    ensures ItemAdded(items, p) == items[i := items[i].(quantity := items[i].quantity + 1)]
  {
    var x := items[i].(quantity := items[i].quantity + 1);
    forall k | 0 <= k < |items| ensures ItemAdded(items, p)[k] == items[i := x][k] {
      if k != i {
        assert IdOf(items[k]) != IdOf(items[i]);
      }
    }
  }

  /**
   * With unique ids, adding a product raises the total by one unit price: the
   * price stored in the cart's item when there is one, the product's otherwise.
   */
  lemma ItemAddedTotal(items: seq<CartItem>, p: Product)
    requires IdsDistinct(items)
    ensures forall i :: 0 <= i < |items| && items[i].product.id == p.id ==>
      TotalOf(ItemAdded(items, p)) == TotalOf(items) + items[i].product.price
    ensures !HasId(items, p.id) ==> TotalOf(ItemAdded(items, p)) == TotalOf(items) + p.price
  {
    forall i | 0 <= i < |items| && items[i].product.id == p.id
      ensures TotalOf(ItemAdded(items, p)) == TotalOf(items) + items[i].product.price
    {
      ItemAddedTotalAt(items, p, i);
    }
    if !HasId(items, p.id) {
      TotalAppend(items, [CartItem(p, 1)]);
      assert [CartItem(p, 1)][..0] == [];
    }
  }

  lemma ItemAddedTotalAt(items: seq<CartItem>, p: Product, i: nat)
    requires IdsDistinct(items) && i < |items| && items[i].product.id == p.id
    ensures TotalOf(ItemAdded(items, p)) == TotalOf(items) + items[i].product.price
  {
    var price, q := items[i].product.price, items[i].quantity;
    var x := items[i].(quantity := q + 1);
    ItemAddedAt(items, p, i);
    TotalReplaceAt(items, i, x);
    AmountOneMore(items[i], x);
    calc {
      TotalOf(ItemAdded(items, p));
      TotalOf(items[i := x]);
      TotalOf(items) - Amount(items[i]) + Amount(x);
      TotalOf(items) + price;
    }
  }

  // ---------------------------------------------------------------------------
  // Example runs with the fixture product priced 14990

  lemma AddToEmptyCart()
    ensures ItemAdded([], BirreteSignature) == [CartItem(BirreteSignature, 1)]
    ensures TotalOf(ItemAdded([], BirreteSignature)) == 14990
  {
    assert !HasId([], BirreteSignature.id);
    ItemAddedTotal([], BirreteSignature);
  }

  lemma AddAgain()
    ensures ItemAdded([CartItem(BirreteSignature, 1)], BirreteSignature) == [CartItem(BirreteSignature, 2)]
    ensures TotalOf([CartItem(BirreteSignature, 2)]) == 29980
  {
    var items := [CartItem(BirreteSignature, 1)];
    assert HasId(items, BirreteSignature.id) by {
      assert items[0].product.id == BirreteSignature.id;
    }
    assert [CartItem(BirreteSignature, 2)][..0] == [];
  }

  lemma UpdateToZeroEmptiesCart()
    ensures QuantityUpdated([CartItem(BirreteSignature, 2)], BirreteSignature.id, 0.0) == []
  {
    QuantityUpdatedAt([CartItem(BirreteSignature, 2)], 0, 0.0);
  }

  // ---------------------------------------------------------------------------
  // The cart state

  class CartStore {
    /** Whether a browser window (and so local storage) exists. */
    const hasWindow: bool
    /** The `items` state. */
    var items: seq<CartItem>
    /** The value of the storage key, as last written. */
    var persisted: StoredCart

    /** The storage key holds the current list whenever there is a window. */
    ghost predicate Saved()
      reads this
    {
      hasWindow ==> persisted == Serialize(items)
    }

    /** The provider mounts: the list is read from storage and written back by the effect. */
    constructor (hasWindow: bool, stored: StoredCart)
      ensures this.hasWindow == hasWindow
      ensures items == InitialCart(hasWindow, stored)
      ensures persisted == if hasWindow then Serialize(items) else stored
      ensures Saved() && QuantitiesPositive(items)
    {
      this.hasWindow := hasWindow;
      items := InitialCart(hasWindow, stored);
      persisted := stored;
      new;
      Save();
    }

    /** The persistence effect, run after each change of `items`. */
    method Save()
      modifies this`persisted
      ensures persisted == if hasWindow then Serialize(items) else old(persisted)
      ensures Saved()
    {
      if hasWindow {
        persisted := Serialize(items);
      }
    }

    method AddItem(p: Product)
      modifies this
      ensures items == ItemAdded(old(items), p)
      ensures Saved() && (!hasWindow ==> persisted == old(persisted))
      ensures Valid(old(items)) ==> Valid(items)
      ensures QuantitiesPositive(old(items)) ==> QuantitiesPositive(items)
    {
      if QuantitiesPositive(items) {
        ItemAddedPositive(items, p);
      }
      if Valid(items) {
        ItemAddedValid(items, p);
      }
      items := ItemAdded(items, p);
      Save();
    }

    method UpdateQuantity(id: string, q: real)
      modifies this
      ensures items == QuantityUpdated(old(items), id, q)
      ensures Saved() && (!hasWindow ==> persisted == old(persisted))
      ensures Valid(old(items)) ==> Valid(items)
      ensures QuantitiesPositive(items)
    {
      if Valid(items) {
        QuantityUpdatedValid(items, id, q);
      }
      items := QuantityUpdated(items, id, q);
      Save();
    }

    method RemoveItem(id: string)
      modifies this
      ensures items == ItemRemoved(old(items), id)
      ensures Saved() && (!hasWindow ==> persisted == old(persisted))
      ensures Valid(old(items)) ==> Valid(items)
      ensures QuantitiesPositive(old(items)) ==> QuantitiesPositive(items)
    {
      if QuantitiesPositive(items) {
        ItemRemovedPositive(items, id);
      }
      if Valid(items) {
        ItemRemovedValid(items, id);
      }
      items := ItemRemoved(items, id);
      Save();
    }

    method ClearCart()
      modifies this
      ensures items == [] && Valid(items) && QuantitiesPositive(items) && TotalOf(items) == 0
      ensures Saved() && (!hasWindow ==> persisted == old(persisted))
    {
      items := [];
      Save();
    }
  }
}
