/** The cart service: Empty, AddProduct and RemoveProduct resolve the cart
    under the caller's user id (AddProduct validates the item first); Create
    validates the owner and resolves no cart. The business rules (merge on
    add, no-op empty and remove) sit on top of the store. The operations are
    first stated as functions of the store's state, with their properties
    proved as lemmas, then implemented step by step by a class that holds
    the store. */
module Service {
  import opened Errors
  import opened Domain
  import opened Storage

  /** The store as the service keeps it: well formed, and no cart has two
      lines for the same product. */
  ghost predicate Consistent(db: Db) {
    WellFormed(db) && forall id | id in db.carts :: DistinctProducts(db.carts[id].items)
  }

  /** `Create`: the new store state, the caller's cart afterwards, and the
      error. */
  function CreateResult(db: Db, cart: Cart, now: Time): (r: (Db, Cart, Outcome))
    ensures r.2 == Pass <==> cart.userId != 0
    ensures r.2 != Pass ==> r == (db, cart, Fail(UserNotSet))
    ensures r.2 == Pass ==>
      && r.1 == cart.(id := r.1.id, createdAt := now, updatedAt := now)
      && r.0.carts == db.carts[r.1.id := Row(cart.userId, now, now, [])]
      && (WellFormed(db) ==> r.1.id != 0 && r.1.id !in db.carts)
  {
    var v := ValidateCart(cart);
    if v.Fail? then (db, cart, v)
    else
      var (db', created) := CreateCart(db, cart, now);
      (db', created, Pass)
  }

  /** `Empty`: the new store state and the error. */
  function EmptyResult(db: Db, id: int, userId: int): (r: (Db, Outcome))
    ensures r.1 == Pass <==> id in db.carts && db.carts[id].owner == userId
    ensures r.1 != Pass ==> r == (db, Fail(CartNotFound))
    ensures r.1 == Pass ==> r.0 == db.(carts := db.carts[id := db.carts[id].(items := [])])
  {
    var (cart, e) := GetCart(db, id, userId);
    if e.Fail? then (db, e)
    else if |cart.items| == 0 then (db, Pass)
    else (EmptyCart(db, id), Pass)
  }

  /** The line a merge writes back: the stored line with the incoming
      quantity added (wrapping as `uint64` does). */
  function Merged(existing: Item, incoming: Item): (m: Item)
    ensures m.(quantity := existing.quantity) == existing
    ensures m.quantity as int == (existing.quantity as int + incoming.quantity as int) % TwoTo64
  {
    existing.(quantity := WrappingAdd(existing.quantity, incoming.quantity))
  }

  /** `AddProduct`: the new store state, the caller's item afterwards, and
      the error. The error return after the lookup of the existing line is
      left out: the lookup cannot fail once `HasProduct` held (see
      `HasProductIffGetProduct`). */
  function AddProductResult(db: Db, item: Item, userId: int, now: Time): (r: (Db, Item, Outcome))
    ensures r.2 == Pass <==>
      ValidateItem(item) == Pass && item.cartId in db.carts && db.carts[item.cartId].owner == userId
    ensures r.2 != Pass ==>
      r.0 == db && r.1 == item && (r.2 == ValidateItem(item) || r.2 == Fail(CartNotFound))
    ensures r.2 == Pass ==>
      && r.1.productId == item.productId && r.1.updatedAt == now
      && item.cartId in r.0.carts && r.0.carts.Keys == db.carts.Keys
      && r.0.carts[item.cartId].owner == userId
  {
    var v := ValidateItem(item);
    if v.Fail? then (db, item, v)
    else
      var (cart, e) := GetCart(db, item.cartId, userId);
      if e.Fail? then (db, item, e)
      else if HasProduct(cart.items, item.productId) then
        var existing := GetProduct(cart.items, item.productId).0;
        var (db', saved) := SaveItem(db, Merged(existing, item), now);
        (db', saved, Pass)
      else
        var (db', inserted) := InsertItem(db, item, now);
        (db', inserted, Pass)
  }

  /** `RemoveProduct`: the new store state and the error. */
  function RemoveProductResult(db: Db, id: int, productId: int, userId: int): (r: (Db, Outcome))
    ensures r.1 == Pass <==> id in db.carts && db.carts[id].owner == userId
    ensures r.1 != Pass ==> r == (db, Fail(CartNotFound))
    ensures r.1 == Pass ==>
      && r.0.carts.Keys == db.carts.Keys && r.0.carts[id].owner == userId
      && forall x :: x in r.0.carts[id].items <==> x in db.carts[id].items && x.productId != productId
  {
    var (cart, e) := GetCart(db, id, userId);
    if e.Fail? then (db, e)
    else if !HasProduct(cart.items, productId) then (db, Pass)
    else (DeleteItem(db, id, productId), Pass)
  }

  // ---------------------------------------------------------------------
  // Create

  /** A cart without an owner is refused before the store is touched; a cart
      with one is stored empty under a fresh id, which its owner, and only
      its owner, can then get. */
  lemma CreateThenGet(db: Db, cart: Cart, now: Time, otherUser: int)
    requires Consistent(db)
    ensures var (db', created, err) := CreateResult(db, cart, now);
      && (cart.userId == 0 ==> err == Fail(UserNotSet) && db' == db && created == cart)
      && (cart.userId != 0 ==>
            && err == Pass && Consistent(db')
            && created.id != 0 && created.id !in db.carts
            && db'.carts == db.carts[created.id := Row(cart.userId, now, now, [])]
            && GetCart(db', created.id, cart.userId) == (Cart(created.id, cart.userId, now, now, []), Pass)
            && (otherUser != cart.userId ==> GetCart(db', created.id, otherUser) == (ZeroCart, Fail(CartNotFound))))
  {
    var (db', created, err) := CreateResult(db, cart, now);
    if cart.userId != 0 {
      forall id | id in db'.carts ensures DistinctProducts(db'.carts[id].items) {
        if id != created.id {
          assert db'.carts[id] == db.carts[id];
        }
      }
    }
  }

  // ---------------------------------------------------------------------
  // Empty

  /** Emptying a cart the caller owns leaves it with no lines and changes no
      other cart; when it had none, the store is not touched at all. */
  lemma EmptyClearsOwnedCart(db: Db, id: int, userId: int)
    requires Consistent(db)
    requires id in db.carts && db.carts[id].owner == userId
    ensures var (db', err) := EmptyResult(db, id, userId);
      && err == Pass && Consistent(db')
      && db'.carts == db.carts[id := db.carts[id].(items := [])]
      && (db.carts[id].items == [] ==> db' == db)
  {
    var (db', err) := EmptyResult(db, id, userId);
    if db.carts[id].items == [] {
      assert db.carts[id := db.carts[id].(items := [])] == db.carts;
    } else {
      forall i | i in db'.carts ensures DistinctProducts(db'.carts[i].items) {
        if i != id {
          assert db'.carts[i] == db.carts[i];
        }
      }
    }
  }

  /** Emptying twice is emptying once. */
  lemma EmptyIdempotent(db: Db, id: int, userId: int)
    ensures var (db1, err1) := EmptyResult(db, id, userId);
      EmptyResult(db1, id, userId) == (db1, err1)
  {
    var (db1, err1) := EmptyResult(db, id, userId);
    if err1 == Pass {
      assert db1.carts[id].items == [];
    }
  }

  // ---------------------------------------------------------------------
  // AddProduct

  /** Validation comes first: an invalid item is refused with its validation
      error whoever asks and whatever the store holds, and nothing changes. */
  lemma AddProductValidatesFirst(db: Db, item: Item, userId: int, now: Time)
    requires item.productId == 0 || item.quantity == 0
    ensures AddProductResult(db, item, userId, now) ==
      (db, item, Fail(if item.productId == 0 then CartItemNoProductSet else CartItemNoQuantitySet))
  {
  }

  /** A valid item for a cart that is missing or owned by someone else is
      refused with `ErrCartNotFound`, and nothing changes. */
  lemma AddProductNeedsOwnership(db: Db, item: Item, userId: int, now: Time)
    requires item.productId != 0 && item.quantity != 0
    requires !(item.cartId in db.carts && db.carts[item.cartId].owner == userId)
    ensures AddProductResult(db, item, userId, now) == (db, item, Fail(CartNotFound))
  {
  }

  /** Adding a product the cart already has a line for (line k) merges into
      that line: the caller's item becomes the stored line, keeping its id and
      cart, with the quantities added and a new update stamp; that line is the
      only change, so the number of lines stays the same. */
  lemma AddProductMerges(db: Db, item: Item, userId: int, now: Time, k: int)
    requires Consistent(db)
    requires item.productId != 0 && item.quantity != 0
    requires item.cartId in db.carts && db.carts[item.cartId].owner == userId
    requires 0 <= k < |db.carts[item.cartId].items|
    requires db.carts[item.cartId].items[k].productId == item.productId
    ensures var items := db.carts[item.cartId].items;
      var (db', result, err) := AddProductResult(db, item, userId, now);
      && err == Pass
      && result == items[k].(quantity := WrappingAdd(items[k].quantity, item.quantity), updatedAt := now)
      && result.id == items[k].id && result.cartId == item.cartId
      && db'.carts == db.carts[item.cartId := db.carts[item.cartId].(items := items[k := result])]
      && db'.nextCartId == db.nextCartId && db'.nextItemId == db.nextItemId
  {
    var items := db.carts[item.cartId].items;
    GetProductFindsLine(items, k);
    ReplaceByIdAt(items, k, Merged(items[k], item).(updatedAt := now));
  }

  /** Adding a product the cart has no line for appends the caller's item as
      a new line under a fresh id, so the number of lines grows by one. */
  lemma AddProductInserts(db: Db, item: Item, userId: int, now: Time)
    requires item.productId != 0 && item.quantity != 0
    requires item.cartId in db.carts && db.carts[item.cartId].owner == userId
    requires forall i :: 0 <= i < |db.carts[item.cartId].items| ==> db.carts[item.cartId].items[i].productId != item.productId
    ensures var items := db.carts[item.cartId].items;
      var (db', result, err) := AddProductResult(db, item, userId, now);
      && err == Pass
      && result == item.(id := db.nextItemId, createdAt := now, updatedAt := now)
      && db'.carts == db.carts[item.cartId := db.carts[item.cartId].(items := items + [result])]
      && db'.nextItemId == db.nextItemId + 1
  {
  }

  /** Replacing the lines of one cart by well-formed lines with distinct
      products, and possibly handing out more item ids, keeps the store
      consistent. */
  lemma ConsistentAfterLinesChange(db: Db, db': Db, id: int)
    requires Consistent(db) && id in db.carts && id in db'.carts
    requires db'.nextCartId == db.nextCartId && db.nextItemId <= db'.nextItemId
    requires db'.carts == db.carts[id := db.carts[id].(items := db'.carts[id].items)]
    requires LinesWellFormed(id, db'.carts[id].items, db'.nextItemId)
    requires DistinctProducts(db'.carts[id].items)
    ensures Consistent(db')
  {
    forall c | c in db'.carts
      ensures 0 < c < db'.nextCartId && LinesWellFormed(c, db'.carts[c].items, db'.nextItemId)
      ensures DistinctProducts(db'.carts[c].items)
    {
      if c != id {
        assert db'.carts[c] == db.carts[c];
      }
    }
  }

  /** The merge branch rewrites line k in place: ids, carts and products of
      all lines stay as they were. */
  lemma MergeKeepsLinesWellFormed(id: int, items: seq<Item>, k: int, merged: Item, nextItemId: int)
    requires LinesWellFormed(id, items, nextItemId) && DistinctProducts(items)
    requires 0 <= k < |items|
    requires merged.id == items[k].id && merged.cartId == items[k].cartId && merged.productId == items[k].productId
    ensures LinesWellFormed(id, items[k := merged], nextItemId)
    ensures DistinctProducts(items[k := merged])
  {
    var items' := items[k := merged];
    forall i | 0 <= i < |items'|
      ensures items'[i].id == items[i].id && items'[i].cartId == items[i].cartId
      ensures items'[i].productId == items[i].productId
    {
    }
  }

  /** The insert branch appends a line for a product the cart had no line
      for, under an id above all stored ones. */
  lemma InsertKeepsLinesWellFormed(id: int, items: seq<Item>, added: Item, nextItemId: int)
    requires LinesWellFormed(id, items, nextItemId) && DistinctProducts(items)
    requires added.cartId == id && 0 < added.id == nextItemId
    requires forall i :: 0 <= i < |items| ==> items[i].productId != added.productId
    ensures LinesWellFormed(id, items + [added], nextItemId + 1)
    ensures DistinctProducts(items + [added])
  {
    var items' := items + [added];
    forall i | 0 <= i < |items|
      ensures items'[i] == items[i]
    {
    }
  }

  /** Both branches of `AddProduct` keep the store consistent: in particular
      no cart ever gets a second line for a product. */
  lemma AddProductKeepsConsistent(db: Db, item: Item, userId: int, now: Time)
    requires Consistent(db)
    ensures Consistent(AddProductResult(db, item, userId, now).0)
  {
    var (db', result, err) := AddProductResult(db, item, userId, now);
    if err == Pass {
      var id := item.cartId;
      var items := db.carts[id].items;
      if HasProduct(items, item.productId) {
        var k :| 0 <= k < |items| && items[k].productId == item.productId;
        AddProductMerges(db, item, userId, now, k);
        MergeKeepsLinesWellFormed(id, items, k, result, db.nextItemId);
        ConsistentAfterLinesChange(db, db', id);
      } else {
        AddProductInserts(db, item, userId, now);
        InsertKeepsLinesWellFormed(id, items, result, db.nextItemId);
        ConsistentAfterLinesChange(db, db', id);
      }
    }
  }

  /** The merge law: adding a product with quantity a to a cart without it,
      then the same product with quantity b, leaves one line for the product
      (the one the first call created, under the same id) with quantity
      a + b, wrapping as `uint64` does. */
  lemma AddTwiceMerges(db: Db, first: Item, second: Item, userId: int, t1: Time, t2: Time)
    requires Consistent(db)
    requires first.productId != 0 && first.quantity != 0 && second.quantity != 0
    requires second.productId == first.productId && second.cartId == first.cartId
    requires first.cartId in db.carts && db.carts[first.cartId].owner == userId
    requires forall i :: 0 <= i < |db.carts[first.cartId].items| ==> db.carts[first.cartId].items[i].productId != first.productId
    ensures var items := db.carts[first.cartId].items;
      var (db1, r1, e1) := AddProductResult(db, first, userId, t1);
      var (db2, r2, e2) := AddProductResult(db1, second, userId, t2);
      && e1 == Pass && e2 == Pass
      && r2.id == r1.id == db.nextItemId
      && r2.quantity == WrappingAdd(first.quantity, second.quantity)
      && db2.carts[first.cartId].items == items + [r2]
      && DistinctProducts(db2.carts[first.cartId].items)
  {
    var items := db.carts[first.cartId].items;
    var (db1, r1, e1) := AddProductResult(db, first, userId, t1);
    AddProductInserts(db, first, userId, t1);
    AddProductKeepsConsistent(db, first, userId, t1);
    var items1 := items + [r1];
    assert items1[|items|].productId == second.productId;
    AddProductMerges(db1, second, userId, t2, |items|);
    var (db2, r2, e2) := AddProductResult(db1, second, userId, t2);
    assert items1[|items| := r2] == items + [r2];
    AddProductKeepsConsistent(db1, second, userId, t2);
  }

  /** The quantity sum wraps: a line holding the largest `uint64` quantity
      merged with one more unit is stored with quantity 0, a line that item
      validation would refuse. */
  lemma MergeCanWrapToZero(existing: Item, incoming: Item)
    requires existing.quantity as int == TwoTo64 - 1 && incoming.quantity == 1
    requires existing.productId != 0
    ensures Merged(existing, incoming).quantity == 0
    ensures ValidateItem(Merged(existing, incoming)) == Fail(CartItemNoQuantitySet)
  {
  }

  // ---------------------------------------------------------------------
  // RemoveProduct

  /** Removing a product the caller's cart has a line for (line k) deletes
      that line only; the other lines stay, in order. */
  lemma RemoveProductDeletesLine(db: Db, id: int, userId: int, k: int)
    requires Consistent(db)
    requires id in db.carts && db.carts[id].owner == userId
    requires 0 <= k < |db.carts[id].items|
    ensures var items := db.carts[id].items;
      var (db', err) := RemoveProductResult(db, id, items[k].productId, userId);
      && err == Pass && Consistent(db')
      && db'.carts == db.carts[id := db.carts[id].(items := items[..k] + items[k + 1..])]
  {
    var items := db.carts[id].items;
    var p := items[k].productId;
    WithoutProductAt(items, k);
    WithoutProductKeepsDistinct(items, p);
    var db' := RemoveProductResult(db, id, p, userId).0;
    forall c | c in db'.carts ensures DistinctProducts(db'.carts[c].items) {
      if c != id {
        assert db'.carts[c] == db.carts[c];
      }
    }
  }

  /** Removing a product the caller's cart has no line for succeeds and
      changes nothing. */
  lemma RemoveAbsentProductIsNoop(db: Db, id: int, productId: int, userId: int)
    requires id in db.carts && db.carts[id].owner == userId
    requires forall i :: 0 <= i < |db.carts[id].items| ==> db.carts[id].items[i].productId != productId
    ensures RemoveProductResult(db, id, productId, userId) == (db, Pass)
  {
  }

  // ---------------------------------------------------------------------
  // Ownership

  /** Every operation resolves the cart under the caller first: on a cart
      that is missing or owned by someone else, `Empty`, `AddProduct` (of a
      valid item) and `RemoveProduct` all answer `ErrCartNotFound` and leave
      the store as it was. */
  lemma ForeignCartIsUntouched(db: Db, id: int, userId: int, item: Item, productId: int, now: Time)
    requires !(id in db.carts && db.carts[id].owner == userId)
    requires item.cartId == id && item.productId != 0 && item.quantity != 0
    ensures EmptyResult(db, id, userId) == (db, Fail(CartNotFound))
    ensures AddProductResult(db, item, userId, now) == (db, item, Fail(CartNotFound))
    ensures RemoveProductResult(db, id, productId, userId) == (db, Fail(CartNotFound))
  {
  }

  // ---------------------------------------------------------------------
  // A worked example

  /** Cart 1 of user 1 holding product 1 once and product 2 ten times. The
      mock fixture leaves the lines' own ids and cart ids at 0; here they are
      lines 1 and 2 of cart 1, as a store that hands out ids would hold
      them. */
  function SampleDb(): Db {
    Db(map[1 := Row(1, 0, 0, [Item(1, 1, 1, 1, 0, 0), Item(2, 1, 2, 10, 0, 0)])], 2, 3)
  }

  /** On the sample store: user 2 cannot see cart 1; user 1 adding product 2
      once more gets line 2 back with quantity 11 and still two lines; adding
      product 5 creates line 3 and a third line. */
  lemma SampleScenario(now: Time)
    ensures GetCart(SampleDb(), 1, 2) == (ZeroCart, Fail(CartNotFound))
    ensures var (db', line, err) := AddProductResult(SampleDb(), Item(0, 1, 2, 1, 0, 0), 1, now);
      err == Pass && line == Item(2, 1, 2, 11, 0, now) && |db'.carts[1].items| == 2
    ensures var (db', line, err) := AddProductResult(SampleDb(), Item(0, 1, 5, 1, 0, 0), 1, now);
      err == Pass && line == Item(3, 1, 5, 1, now, now) && |db'.carts[1].items| == 3
  {
    var db := SampleDb();
    var items := db.carts[1].items;
    assert LinesWellFormed(1, items, 3);
    assert DistinctProducts(items);
    assert Consistent(db);
    AddProductMerges(db, Item(0, 1, 2, 1, 0, 0), 1, now, 1);
    AddProductInserts(db, Item(0, 1, 5, 1, 0, 0), 1, now);
  }

  // ---------------------------------------------------------------------
  // The service object

  /** The service: it holds the store and runs each operation against it. */
  class CartService {
    const storage: Store

    ghost predicate Valid()
      reads this, storage
    {
      Consistent(storage.State())
    }

    constructor (storage: Store)
      requires Consistent(storage.State())
      ensures this.storage == storage && Valid()
    {
      this.storage := storage;
    }

    method Create(cart: CartRef, now: Time) returns (err: Outcome)
      requires Valid()
      modifies storage, cart
      ensures Valid()
      ensures (storage.State(), cart.value, err) == CreateResult(old(storage.State()), old(cart.value), now)
    {
      CreateThenGet(storage.State(), cart.value, now, 0);
      err := ValidateCart(cart.value);
      if err.Fail? {
        return;
      }
      err := storage.Create(cart, now);
    }

    method Get(id: int, userId: int) returns (cart: Cart, err: Outcome)
      ensures (cart, err) == GetCart(storage.State(), id, userId)
    {
      cart, err := storage.Get(id, userId);
    }

    method Empty(id: int, userId: int) returns (err: Outcome)
      requires Valid()
      modifies storage
      ensures Valid()
      ensures (storage.State(), err) == EmptyResult(old(storage.State()), id, userId)
    {
      ghost var db := storage.State();
      var cart;
      cart, err := Get(id, userId);
      if err.Fail? {
        return;
      }
      if |cart.items| == 0 {
        return;
      }
      EmptyClearsOwnedCart(db, id, userId);
      err := storage.Empty(id);
    }

    method AddProduct(item: ItemRef, userId: int, now: Time) returns (err: Outcome)
      requires Valid()
      modifies storage, item
      ensures Valid()
      ensures (storage.State(), item.value, err) == AddProductResult(old(storage.State()), old(item.value), userId, now)
    {
      ghost var db := storage.State();
      AddProductKeepsConsistent(db, item.value, userId, now);
      err := ValidateItem(item.value);
      if err.Fail? {
        return;
      }
      var cart;
      cart, err := Get(item.value.cartId, userId);
      if err.Fail? {
        return;
      }
      if HasProduct(cart.items, item.value.productId) {
        HasProductIffGetProduct(cart.items, item.value.productId);
        var (existing, getErr) := GetProduct(cart.items, item.value.productId);
        assert getErr == Pass;  // the lookup cannot fail once HasProduct held
        existing := existing.(quantity := WrappingAdd(existing.quantity, item.value.quantity));
        item.value := existing;
        err := storage.UpdateProduct(item, now);
        return;
      }
      err := storage.AddProduct(item, now);
    }

    method RemoveProduct(id: int, productId: int, userId: int) returns (err: Outcome)
      requires Valid()
      modifies storage
      ensures Valid()
      ensures (storage.State(), err) == RemoveProductResult(old(storage.State()), id, productId, userId)
    {
      ghost var db := storage.State();
      var cart;
      cart, err := Get(id, userId);
      if err.Fail? {
        return;
      }
      if !HasProduct(cart.items, productId) {
        return;
      }
      ghost var k :| 0 <= k < |cart.items| && cart.items[k].productId == productId;
      RemoveProductDeletesLine(db, id, userId, k);
      err := storage.RemoveProduct(id, productId);
    }
  }
}
