/** The cart store behind the service: the six operations of its interface,
    first as functions on the store's whole state, then as a class whose
    methods change that state in place. The store keeps carts and their
    lines; it checks no business rule. */
module Storage {
  import opened Errors
  import opened Domain

  /** What the store keeps for one cart: its owner, its timestamps and its
      lines, in insertion order. */
  datatype Row = Row(owner: int, createdAt: Time, updatedAt: Time, items: seq<Item>)

  /** The store's whole state: the carts by id, and the next cart id and item
      id it will hand out. */
  datatype Db = Db(carts: map<int, Row>, nextCartId: int, nextItemId: int)

  /** No two lines share an item id. */
  ghost predicate DistinctIds(items: seq<Item>) {
    forall i, j :: 0 <= i < j < |items| ==> items[i].id != items[j].id
  }

  /** The lines of cart `cartId` point back at it and carry ids the store has
      handed out, each once. */
  ghost predicate LinesWellFormed(cartId: int, items: seq<Item>, nextItemId: int) {
    (forall i :: 0 <= i < |items| ==> items[i].cartId == cartId && 0 < items[i].id < nextItemId) &&
    DistinctIds(items)
  }

  /** Every stored id was handed out by the store, and never 0. */
  ghost predicate WellFormed(db: Db) {
    0 < db.nextCartId && 0 < db.nextItemId &&
    forall id | id in db.carts ::
      0 < id < db.nextCartId && LinesWellFormed(id, db.carts[id].items, db.nextItemId)
  }

  /** The store's `Get`: the cart is found only when both its id and its
      owner match; a cart of another owner looks exactly like a missing one. */
  function GetCart(db: Db, id: int, userId: int): (r: (Cart, Outcome))
    ensures r.1 == Pass <==> id in db.carts && db.carts[id].owner == userId
    ensures r.1 == Pass ==> r.0.id == id && r.0.userId == userId && r.0.items == db.carts[id].items
    ensures r.1 != Pass ==> r == (ZeroCart, Fail(CartNotFound))
  {
    if id in db.carts && db.carts[id].owner == userId then
      var row := db.carts[id];
      (Cart(id, userId, row.createdAt, row.updatedAt, row.items), Pass)
    else
      (ZeroCart, Fail(CartNotFound))
  }

  /** The store's `Create`: a new empty cart under a fresh id, stamped `now`;
      the caller's cart receives the id and the stamps. */
  function CreateCart(db: Db, cart: Cart, now: Time): (r: (Db, Cart))
    ensures WellFormed(db) ==> WellFormed(r.0) && r.1.id !in db.carts && r.1.id != 0
    ensures r.0.carts == db.carts[r.1.id := Row(cart.userId, now, now, [])]
    ensures r.1 == cart.(id := r.1.id, createdAt := now, updatedAt := now)
  {
    var id := db.nextCartId;
    (Db(db.carts[id := Row(cart.userId, now, now, [])], id + 1, db.nextItemId),
     cart.(id := id, createdAt := now, updatedAt := now))
  }

  /** The store's `Empty`: every line of the cart is deleted. */
  function EmptyCart(db: Db, id: int): (r: Db)
    ensures WellFormed(db) ==> WellFormed(r)
    ensures id in db.carts ==> r.carts == db.carts[id := db.carts[id].(items := [])]
    ensures id !in db.carts ==> r == db
    ensures r.nextCartId == db.nextCartId && r.nextItemId == db.nextItemId
  {
    if id in db.carts then db.(carts := db.carts[id := db.carts[id].(items := [])]) else db
  }

  /** The store's `AddProduct`: the item is appended to its cart's lines under
      a fresh item id, stamped `now`; the caller's item receives the id and
      the stamps. */
  function InsertItem(db: Db, item: Item, now: Time): (r: (Db, Item))
    ensures WellFormed(db) ==> WellFormed(r.0)
    ensures r.1 == item.(id := db.nextItemId, createdAt := now, updatedAt := now)
    ensures item.cartId in db.carts ==>
      r.0.carts == db.carts[item.cartId := db.carts[item.cartId].(items := db.carts[item.cartId].items + [r.1])]
    ensures item.cartId !in db.carts ==> r.0.carts == db.carts
    ensures r.0.nextCartId == db.nextCartId && r.0.nextItemId == db.nextItemId + 1
  {
    var stored := item.(id := db.nextItemId, createdAt := now, updatedAt := now);
    var carts :=
      if item.cartId in db.carts then
        db.carts[item.cartId := db.carts[item.cartId].(items := db.carts[item.cartId].items + [stored])]
      else db.carts;
    (Db(carts, db.nextCartId, db.nextItemId + 1), stored)
  }

  /** The lines with the item's id replaced by the item: a save by primary
      key. */
  function ReplaceById(items: seq<Item>, item: Item): (r: seq<Item>)
    ensures |r| == |items|
    ensures forall i :: 0 <= i < |r| ==> r[i] == if items[i].id == item.id then item else items[i]
  {
    seq(|items|, i requires 0 <= i < |items| => if items[i].id == item.id then item else items[i])
  }

  /** Saving a line whose id is that of line k replaces line k and no other,
      when item ids are distinct. */
  lemma ReplaceByIdAt(items: seq<Item>, k: int, item: Item)
    requires DistinctIds(items)
    requires 0 <= k < |items| && items[k].id == item.id
    ensures ReplaceById(items, item) == items[k := item]
  {
    var r := ReplaceById(items, item);
    forall i | 0 <= i < |items| ensures r[i] == items[k := item][i] {
      if i < k || k < i {
        assert items[i].id != items[k].id;
      }
    }
  }

  /** The store's `UpdateProduct`: the caller's item is stamped `now` and
      saved over the line with the same id in its cart. */
  function SaveItem(db: Db, item: Item, now: Time): (r: (Db, Item))
    ensures WellFormed(db) && item.cartId in db.carts &&
      (exists i :: 0 <= i < |db.carts[item.cartId].items| && db.carts[item.cartId].items[i].id == item.id)
      ==> WellFormed(r.0)
    ensures r.1 == item.(updatedAt := now)
    ensures item.cartId in db.carts ==>
      r.0.carts == db.carts[item.cartId := db.carts[item.cartId].(items := ReplaceById(db.carts[item.cartId].items, r.1))]
    ensures item.cartId !in db.carts ==> r.0 == db
    ensures r.0.nextCartId == db.nextCartId && r.0.nextItemId == db.nextItemId
  {
    var saved := item.(updatedAt := now);
    if item.cartId in db.carts then
      var row := db.carts[item.cartId];
      (db.(carts := db.carts[item.cartId := row.(items := ReplaceById(row.items, saved))]), saved)
    else
      (db, saved)
  }

  /** The lines that are not for the product, in their order. */
  function WithoutProduct(items: seq<Item>, productId: int): (r: seq<Item>)
    ensures forall x :: x in r <==> x in items && x.productId != productId
    ensures |r| <= |items|
  {
    if items == [] then []
    else if items[0].productId == productId then WithoutProduct(items[1..], productId)
    else [items[0]] + WithoutProduct(items[1..], productId)
  }

  /** Dropping lines keeps ids, and products, distinct. */
  lemma {:induction false} WithoutProductKeepsDistinct(items: seq<Item>, productId: int)
    ensures DistinctIds(items) ==> DistinctIds(WithoutProduct(items, productId))
    ensures DistinctProducts(items) ==> DistinctProducts(WithoutProduct(items, productId))
  {
    if items != [] {
      var tail := items[1..];
      WithoutProductKeepsDistinct(tail, productId);
      assert DistinctIds(items) ==> DistinctIds(tail);
      assert DistinctProducts(items) ==> DistinctProducts(tail);
      if items[0].productId != productId {
        var r := WithoutProduct(items, productId);
        var rest := WithoutProduct(tail, productId);
        assert r == [items[0]] + rest;
        if DistinctIds(items) {
          forall i, j | 0 <= i < j < |r| ensures r[i].id != r[j].id {
            if i == 0 {
              assert r[j] in tail;
            }
          }
        }
        if DistinctProducts(items) {
          forall i, j | 0 <= i < j < |r| ensures r[i].productId != r[j].productId {
            if i == 0 {
              assert r[j] in tail;
            }
          }
        }
      }
    }
  }

  /** In a cart whose lines have distinct products, dropping the product of
      line k removes line k and keeps the rest in order. */
  lemma {:induction false} WithoutProductAt(items: seq<Item>, k: int)
    requires DistinctProducts(items)
    requires 0 <= k < |items|
    ensures WithoutProduct(items, items[k].productId) == items[..k] + items[k + 1..]
  {
    var p := items[k].productId;
    if k == 0 {
      WithoutAbsentProduct(items[1..], p);
    } else {
      WithoutProductAt(items[1..], k - 1);
      assert items[1..][k - 1] == items[k];
      assert items[1..][..k - 1] + items[1..][k..] == items[1..k] + items[k + 1..];
    }
  }

  /** Dropping a product no line is for changes nothing. */
  lemma {:induction false} WithoutAbsentProduct(items: seq<Item>, productId: int)
    requires forall i :: 0 <= i < |items| ==> items[i].productId != productId
    ensures WithoutProduct(items, productId) == items
  {
    if items != [] {
      WithoutAbsentProduct(items[1..], productId);
    }
  }

  /** The store's `RemoveProduct`: every line of the cart for the product is
      deleted. */
  function DeleteItem(db: Db, cartId: int, productId: int): (r: Db)
    ensures WellFormed(db) ==> WellFormed(r)
    ensures cartId in db.carts ==>
      r.carts == db.carts[cartId := db.carts[cartId].(items := WithoutProduct(db.carts[cartId].items, productId))]
    ensures cartId !in db.carts ==> r == db
    ensures r.nextCartId == db.nextCartId && r.nextItemId == db.nextItemId
  {
    if cartId in db.carts then
      var row := db.carts[cartId];
      WithoutProductKeepsDistinct(row.items, productId);
      db.(carts := db.carts[cartId := row.(items := WithoutProduct(row.items, productId))])
    else db
  }

  /** The store as an object: the service holds one and every operation
      changes its fields in place. */
  class Store {
    var carts: map<int, Row>
    var nextCartId: int
    var nextItemId: int

    /** The store's fields as one value. */
    function State(): Db
      reads this
    {
      Db(carts, nextCartId, nextItemId)
    }

    constructor ()
      ensures State() == Db(map[], 1, 1)
    {
      carts := map[];
      nextCartId := 1;
      nextItemId := 1;
    }

    method Create(cart: CartRef, now: Time) returns (err: Outcome)
      modifies this, cart
      ensures (State(), cart.value) == CreateCart(old(State()), old(cart.value), now)
      ensures err == Pass
    {
      var id := nextCartId;
      nextCartId := nextCartId + 1;
      cart.value := cart.value.(id := id, createdAt := now, updatedAt := now);
      carts := carts[id := Row(cart.value.userId, now, now, [])];
      err := Pass;
    }

    method Get(id: int, userId: int) returns (cart: Cart, err: Outcome)
      ensures (cart, err) == GetCart(State(), id, userId)
    {
      if id in carts && carts[id].owner == userId {
        var row := carts[id];
        cart, err := Cart(id, userId, row.createdAt, row.updatedAt, row.items), Pass;
      } else {
        cart, err := ZeroCart, Fail(CartNotFound);
      }
    }

    method Empty(id: int) returns (err: Outcome)
      modifies this
      ensures State() == EmptyCart(old(State()), id)
      ensures err == Pass
    {
      if id in carts {
        carts := carts[id := carts[id].(items := [])];
      }
      err := Pass;
    }

    method AddProduct(item: ItemRef, now: Time) returns (err: Outcome)
      modifies this, item
      ensures (State(), item.value) == InsertItem(old(State()), old(item.value), now)
      ensures err == Pass
    {
      item.value := item.value.(id := nextItemId, createdAt := now, updatedAt := now);
      nextItemId := nextItemId + 1;
      var cartId := item.value.cartId;
      if cartId in carts {
        carts := carts[cartId := carts[cartId].(items := carts[cartId].items + [item.value])];
      }
      err := Pass;
    }

    method UpdateProduct(item: ItemRef, now: Time) returns (err: Outcome)
      modifies this, item
      ensures (State(), item.value) == SaveItem(old(State()), old(item.value), now)
      ensures err == Pass
    {
      item.value := item.value.(updatedAt := now);
      var cartId := item.value.cartId;
      if cartId in carts {
        carts := carts[cartId := carts[cartId].(items := ReplaceById(carts[cartId].items, item.value))];
      }
      err := Pass;
    }

    method RemoveProduct(cartId: int, productId: int) returns (err: Outcome)
      modifies this
      ensures State() == DeleteItem(old(State()), cartId, productId)
      ensures err == Pass
    {
      if cartId in carts {
        carts := carts[cartId := carts[cartId].(items := WithoutProduct(carts[cartId].items, productId))];
      }
      err := Pass;
    }
  }
}
