/** The cart and cart-item entities, their validation, and the lookup of a
    product among a cart's items. */
module Domain {
  import opened Errors

  const TwoTo64: int := 0x1_0000_0000_0000_0000

  /** Go's `uint64`, the type of an item's quantity. */
  newtype uint64 = x: int | 0 <= x < 0x1_0000_0000_0000_0000

  /** Go's `a + b` on `uint64`: the sum wraps around modulo 2^64. */
  function WrappingAdd(a: uint64, b: uint64): (s: uint64)
    ensures a as int + b as int < TwoTo64 ==> s as int == a as int + b as int
    ensures a as int + b as int >= TwoTo64 ==> s as int == a as int + b as int - TwoTo64
  {
    ((a as int + b as int) % TwoTo64) as uint64
  }

  /** An instant as the persistence layer stamps it; 0 is Go's zero time. */
  type Time = int

  /** One product line of a cart. Ids are Go `int64`s; the core only
      compares them, so they are unbounded here. */
  datatype Item = Item(
    id: int,
    cartId: int,
    productId: int,
    quantity: uint64,
    createdAt: Time,
    updatedAt: Time)

  /** `ShoppingCartItem{}`, the zero value of an item. */
  const ZeroItem := Item(0, 0, 0, 0, 0, 0)

  /** A cart with the items the store loaded with it. */
  datatype Cart = Cart(
    id: int,
    userId: int,
    createdAt: Time,
    updatedAt: Time,
    items: seq<Item>)

  /** `ShoppingCart{}`, the zero value of a cart. */
  const ZeroCart := Cart(0, 0, 0, 0, [])

  /** A cart must name its owner. */
  function ValidateCart(cart: Cart): (r: Outcome)
    ensures r == Pass <==> cart.userId != 0
    ensures r != Pass ==> r == Fail(UserNotSet)
  {
    if cart.userId == 0 then Fail(UserNotSet) else Pass
  }

  /** An item must name a product and then a quantity; a missing product is
      reported whatever the quantity. */
  function ValidateItem(item: Item): (r: Outcome)
    ensures r == Pass <==> item.productId != 0 && item.quantity != 0
    ensures item.productId == 0 ==> r == Fail(CartItemNoProductSet)
    ensures item.productId != 0 && item.quantity == 0 ==> r == Fail(CartItemNoQuantitySet)
  {
    if item.productId == 0 then Fail(CartItemNoProductSet)
    else if item.quantity == 0 then Fail(CartItemNoQuantitySet)
    else Pass
  }

  /** No two items of a cart are lines for the same product. */
  ghost predicate DistinctProducts(items: seq<Item>) {
    forall i, j :: 0 <= i < j < |items| ==> items[i].productId != items[j].productId
  }

  /** `cart.HasProduct(productID)`: a scan of the items in order. */
  function HasProduct(items: seq<Item>, productId: int): (found: bool)
    ensures found <==> exists i :: 0 <= i < |items| && items[i].productId == productId
  {
    if items == [] then false
    else if items[0].productId == productId then true
    else
      var found := HasProduct(items[1..], productId);
      assert found ==> exists i :: 0 <= i < |items| && items[i].productId == productId by {
        if found {
          var i :| 0 <= i < |items[1..]| && items[1..][i].productId == productId;
          assert items[i + 1].productId == productId;
        }
      }
      found
  }

  /** `cart.GetProduct(productID)`: the first item for the product, unchanged,
      or the zero item and `ErrCartItemNotFound`. */
  function GetProduct(items: seq<Item>, productId: int): (r: (Item, Outcome))
    ensures r.1 == Pass || r.1 == Fail(CartItemNotFound)
    ensures r.1 == Pass ==>
      exists i :: 0 <= i < |items| && items[i] == r.0 && r.0.productId == productId &&
        forall j :: 0 <= j < i ==> items[j].productId != productId
    ensures r.1 != Pass ==>
      r.0 == ZeroItem && forall i :: 0 <= i < |items| ==> items[i].productId != productId
  {
    if items == [] then (ZeroItem, Fail(CartItemNotFound))
    else if items[0].productId == productId then (items[0], Pass)
    else
      var r := GetProduct(items[1..], productId);
      assert r.1 == Pass ==>
        exists i :: 0 <= i < |items| && items[i] == r.0 && r.0.productId == productId &&
          forall j :: 0 <= j < i ==> items[j].productId != productId
      by {
        if r.1 == Pass {
          var i :| 0 <= i < |items[1..]| && items[1..][i] == r.0 && r.0.productId == productId &&
            forall j :: 0 <= j < i ==> items[1..][j].productId != productId;
          assert items[i + 1] == r.0;
          forall j | 0 <= j < i + 1 ensures items[j].productId != productId {
            if j > 0 { assert items[j] == items[1..][j - 1]; }
          }
        }
      }
      assert r.1 != Pass ==> forall i :: 0 <= i < |items| ==> items[i].productId != productId by {
        if r.1 != Pass {
          forall i | 0 <= i < |items| ensures items[i].productId != productId {
            if i > 0 { assert items[i] == items[1..][i - 1]; }
          }
        }
      }
      r
  }

  /** Both scans agree: a product is present exactly when looking it up
      succeeds. */
  lemma HasProductIffGetProduct(items: seq<Item>, productId: int)
    ensures HasProduct(items, productId) <==> GetProduct(items, productId).1 == Pass
  {
  }

  /** In a cart whose lines have distinct products, looking up the product of
      line k yields exactly that line. */
  lemma GetProductFindsLine(items: seq<Item>, k: int)
    requires DistinctProducts(items)
    requires 0 <= k < |items|
    ensures GetProduct(items, items[k].productId) == (items[k], Pass)
  {
    var r := GetProduct(items, items[k].productId);
    var i :| 0 <= i < |items| && items[i] == r.0 && r.0.productId == items[k].productId &&
      forall j :: 0 <= j < i ==> items[j].productId != items[k].productId;
    assert i == k;
  }

  /** A `*ShoppingCart`: the caller's cart, which the store fills in. */
  class CartRef {
    var value: Cart

    constructor (value: Cart)
      ensures this.value == value
    {
      this.value := value;
    }
  }

  /** A `*ShoppingCartItem`: the caller's item, which the service and the
      store overwrite. */
  class ItemRef {
    var value: Item

    constructor (value: Item)
      ensures this.value == value
    {
      this.value := value;
    }
  }
}
