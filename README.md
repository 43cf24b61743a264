# Shopping-cart consistency core, modelled in Dafny

This project models the cart and item consistency logic of a per-user
shopping-cart backend written in Go.

- **Domain** (`domain.dfy`) models the cart and its product lines. A cart must
  name its owner. A line must name a product and then a quantity. Two scans
  look up a product among a cart's lines: `HasProduct` and `GetProduct`.
- **Storage** (`storage.dfy`) models the store behind the service. Its state
  is a map from cart id to the cart's owner, timestamps and lines, plus the
  next cart id and item id it will hand out. The six interface operations
  (Create, Get, Empty, AddProduct, UpdateProduct, RemoveProduct) appear
  twice: as functions on that state, and as the methods of the class `Store`,
  which change its fields in place. `Get` finds a cart only when both the id
  and the owner match. A cart of another owner looks exactly like a missing
  one.
- **Service** (`service.dfy`) models the service. Empty, AddProduct and
  RemoveProduct resolve the cart under the caller's user id; AddProduct
  validates the item before that. Create validates the owner and resolves no
  cart. The business rules on top of the store: merge an already-present
  product into its existing line, and treat emptying an empty cart, or
  removing an absent product, as a successful no-op. Each operation is stated as a function of the
  store's state, and its properties are lemmas about that function. The class
  `CartService` holds a `Store` and runs each operation step by step. Its
  postconditions tie the new store state, the caller's item and the returned
  error to those functions. It also keeps the invariant `Consistent`: no cart
  ever holds two lines for the same product.
- **HttpErrors** (`httperrors.dfy`) models the error-to-status table, the
  error response body, and the message a client reads back from it. That
  message is the text after the last `": "`, cut as `strings.SplitAfter` does.
- **Auth** (`auth.dfy`) models the authentication service the server is wired
  with. It checks for a non-blank user name and then for a password, and maps
  the name to a user id.
- **Errors** (`errors.dfy`) holds the sentinel errors with their texts. It
  models Go's nil-or-error result as `Outcome`.

Quantities are Go `uint64`s. The merge adds the incoming quantity to the
stored one with wrap-around modulo 2^64, as the Go `+=` does
(`WrappingAdd`). `MergeCanWrapToZero` shows the consequence: a line can be
stored with quantity 0, which item validation would have refused.

The store's ids and timestamps are values the store supplies. Ids come from
two counters. Timestamps come from a `now` parameter, which stands in for the
clock. Ids are Go `int64`s; the core only compares them and tests them
against 0, so they are unbounded integers here.

A behaviour of the code worth stating: `RemoveProduct` of a product the cart
has no line for returns nil and changes nothing. It does not report
item-not-found; only the HTTP handler does that.

## Model

| member | source | states |
|---|---|---|
| `Errors.Message` | shoppingcart.go:10-21 | each sentinel error has its fixed, non-empty text (the auth errors' texts are those of internal/mock/auth/auth.go:10-11); any other error reads as its own text |
| `Domain.ValidateCart` | shoppingcart.go:38-43 | fails with `ErrUserNotSet` exactly when the owner id is 0, and succeeds otherwise |
| `Domain.ValidateItem` | shoppingcart.go:78-87 | succeeds iff product and quantity are both non-zero; a zero product gives `ErrCartItemNoProductSet` whatever the quantity; a non-zero product with zero quantity gives `ErrCartItemNoQuantitySet` |
| `Domain.HasProduct` | shoppingcart.go:45-52 | true iff some line of the cart is for the product |
| `Domain.GetProduct` | shoppingcart.go:54-61 | on success returns, unchanged, the first line in order whose product matches; otherwise the zero item with `ErrCartItemNotFound`, and no line matches |
| `Domain.HasProductIffGetProduct` | shoppingcart.go:45-61 | `HasProduct` holds iff `GetProduct` returns no error |
| `Domain.GetProductFindsLine` | shoppingcart.go:54-58 | when products are distinct, looking up the product of line k returns line k |
| `Domain.WrappingAdd` | service/shoppingcart.go:65 | the `uint64` sum: the exact sum when it fits, the sum minus 2^64 when it does not |
| `Storage.GetCart` | storage/mysql/shoppingcart.go:21-33 | found iff the id is stored and its owner is the caller; then the cart with that id, owner and lines; otherwise the zero cart with `ErrCartNotFound` |
| `Storage.CreateCart` | storage/mysql/shoppingcart.go:11-18 | stores an empty cart of the caller's owner under a fresh non-zero id, stamped now; the caller's cart gets that id and stamps; well-formedness is kept |
| `Storage.EmptyCart` | storage/mysql/shoppingcart.go:36-39 | the cart's lines become empty and nothing else changes |
| `Storage.InsertItem` | storage/mysql/shoppingcart.go:42-49 | the item, under the next item id and stamped now, is appended to its cart's lines; the id counter advances; well-formedness is kept |
| `Storage.SaveItem` | storage/mysql/shoppingcart.go:52-58 | the item, stamped now, replaces the line with its id in its cart; nothing else changes |
| `Storage.ReplaceById` | storage/mysql/shoppingcart.go:55 | a save by primary key: the same number of lines, each line with the item's id replaced by the item and every other line kept |
| `Storage.ReplaceByIdAt` | storage/mysql/shoppingcart.go:55 | with distinct ids, saving over line k's id changes line k and no other |
| `Storage.DeleteItem` | storage/mysql/shoppingcart.go:61-67 | the cart keeps exactly its lines that are not for the product; nothing else changes |
| `Storage.WithoutProduct` | storage/mysql/shoppingcart.go:62-64 | the kept lines are exactly the lines not for the product |
| `Storage.WithoutProductAt` | storage/mysql/shoppingcart.go:62-64 | with distinct products, deleting line k's product removes line k and keeps the others in order |
| `Storage.WithoutProductKeepsDistinct` | storage/mysql/shoppingcart.go:62-64 | deleting lines keeps item ids, and products, distinct |
| `Storage.Store.Create` | storage/storage.go:11 | the store's new state and the caller's cart are those `CreateCart` gives; returns nil |
| `Storage.Store.Get` | storage/storage.go:12 | returns what `GetCart` gives for the id and user |
| `Storage.Store.Empty` | storage/storage.go:13 | the new state is the one `EmptyCart` gives; returns nil |
| `Storage.Store.AddProduct` | storage/storage.go:15 | the new state and the caller's item are those `InsertItem` gives; returns nil |
| `Storage.Store.UpdateProduct` | storage/storage.go:16 | the new state and the caller's item are those `SaveItem` gives; returns nil |
| `Storage.Store.RemoveProduct` | storage/storage.go:17 | the new state is the one `DeleteItem` gives; returns nil |
| `Service.CreateResult` | service/shoppingcart.go:20-26 | succeeds iff the cart names an owner; otherwise `ErrUserNotSet` with store and cart unchanged; on success the store holds a new empty row for the owner under the id handed back in the cart, stamped now, an id that is fresh and non-zero in a well-formed store |
| `Service.EmptyResult` | service/shoppingcart.go:34-46 | succeeds iff the caller owns the cart; otherwise `ErrCartNotFound` and nothing changes; on success the cart has no lines and nothing else changes |
| `Service.Merged` | service/shoppingcart.go:65 | the stored line with only its quantity changed, to the sum of both quantities modulo 2^64 |
| `Service.AddProductResult` | service/shoppingcart.go:50-71 | succeeds iff the item is valid and the caller owns its cart; on failure the store and the item are unchanged and the error is the validation error or `ErrCartNotFound`; on success the item keeps its product, is stamped now, and the store keeps the same carts with the same owner |
| `Service.RemoveProductResult` | service/shoppingcart.go:74-86 | succeeds iff the caller owns the cart; otherwise `ErrCartNotFound` and nothing changes; on success the cart keeps exactly its lines for other products, and the same carts exist |
| `Service.CartService.Create` | service/shoppingcart.go:20-26 | the new store state, the caller's cart and the error are those of `CreateResult`; the store stays consistent |
| `Service.CartService.Get` | service/shoppingcart.go:29-31 | returns exactly what the store's `Get` returns for (id, user) |
| `Service.CartService.Empty` | service/shoppingcart.go:34-46 | the new store state and the error are those of `EmptyResult`; the store stays consistent |
| `Service.CartService.AddProduct` | service/shoppingcart.go:50-71 | the new store state, the caller's item and the error are those of `AddProductResult`; the store stays consistent |
| `Service.CartService.RemoveProduct` | service/shoppingcart.go:74-86 | the new store state and the error are those of `RemoveProductResult`; the store stays consistent |
| `Service.CreateThenGet` | service/shoppingcart.go:20-26 | with owner 0: `ErrUserNotSet`, and the store is untouched; otherwise an empty cart under a fresh id, which its owner gets back and any other user sees as `ErrCartNotFound` |
| `Service.EmptyClearsOwnedCart` | service/shoppingcart.go:41-45 | on an owned cart: success, that cart's lines become empty, no other cart changes, and an already-empty cart leaves the store exactly as it was |
| `Service.EmptyIdempotent` | service/shoppingcart.go:34-46 | emptying a second time gives the same state and error as the first time |
| `Service.AddProductValidatesFirst` | service/shoppingcart.go:51-53 | an invalid item returns its validation error, for any user and any store; the store and the item are unchanged |
| `Service.AddProductNeedsOwnership` | service/shoppingcart.go:55-58 | a valid item for a missing or foreign cart returns `ErrCartNotFound`; the store and the item are unchanged |
| `Service.AddProductMerges` | service/shoppingcart.go:60-67 | for a product already on line k: the caller's item becomes line k with the quantities added and a new update stamp, keeping its id and cart; only line k changes, so the line count is unchanged, and no id is handed out |
| `Service.AddProductInserts` | service/shoppingcart.go:70 | for a new product: the caller's item, under the next item id, is appended as a new line, so the count grows by one |
| `Service.AddProductKeepsConsistent` | service/shoppingcart.go:60-70 | both branches keep the store consistent; in particular no cart gets two lines for one product |
| `Service.AddTwiceMerges` | service/shoppingcart.go:60-70 | adding a product with quantity a and then with quantity b leaves one line for it, under the id the first call created, with quantity a + b (mod 2^64) |
| `Service.MergeCanWrapToZero` | service/shoppingcart.go:65 | merging one unit into a line holding the largest `uint64` stores quantity 0, which item validation refuses |
| `Service.RemoveProductDeletesLine` | service/shoppingcart.go:84-85 | removing the product of line k of an owned cart deletes line k only, keeps the others in order, and keeps the store consistent |
| `Service.RemoveAbsentProductIsNoop` | service/shoppingcart.go:81-83 | removing a product the owned cart has no line for returns nil and leaves the store unchanged |
| `Service.ForeignCartIsUntouched` | service/shoppingcart.go:34-79 | on a missing or foreign cart, `Empty`, `AddProduct` of a valid item and `RemoveProduct` all return `ErrCartNotFound` and leave the store unchanged |
| `Service.SampleScenario` | internal/mock/shoppingcart/storage_mock.go:16-25 | on cart 1 of user 1 with products 1 (×1) and 2 (×10): user 2 gets `ErrCartNotFound`; adding product 2 once gives line 2 with quantity 11 and two lines; adding product 5 gives a third line |
| `HttpErrors.StatusCode` | handler/error.go:50-56 | the table's entry for a listed error, 500 for any other |
| `HttpErrors.StatusCodeClasses` | handler/error.go:14-25 | 404 exactly for the two not-found errors, 401 exactly for missing permission, 400 exactly for the two validation errors, the conflict and the no-items error, 500 for the rest (unset owner, auth errors, any other error) |
| `HttpErrors.NewErrorResponse` | handler/error.go:38-40 | the body's code is `statusCode(err)` and its message is `err.Error()` |
| `HttpErrors.SplitAfter` | handler/error.go:43 | the pieces join back to the message; every piece but the last ends with `": "`; no piece holds `": "` anywhere else |
| `HttpErrors.ResourceError` | handler/error.go:42-47 | the text read back holds no `": "` |
| `HttpErrors.ResourceErrorIsLastSegment` | handler/error.go:42-47 | the text read back is a suffix of the message with no `": "`, preceded by `": "` unless it is the whole message: the part after the last separator |
| `HttpErrors.ResourceErrorWithoutSep` | handler/error.go:42-47 | a message without `": "` is read back whole |
| `HttpErrors.SentinelMessageHasNoSep` | shoppingcart.go:10-21 | none of the sentinel errors' texts contains `": "` |
| `HttpErrors.SentinelErrorReadsBackWhole` | handler/error.go:38-47 | the response built from a sentinel error reads back as that error's full text |
| `Auth.TrimLeft` | internal/mock/auth/auth.go:32 | drops exactly a leading run of spaces: the result is a suffix, everything dropped is a space, and the result does not start with one |
| `Auth.TrimRight` | internal/mock/auth/auth.go:32 | drops exactly a trailing run of spaces |
| `Auth.TrimSpace` | internal/mock/auth/auth.go:32 | the result is the part of the name between a run of spaces at each end, and it neither starts nor ends with a space |
| `Auth.TrimSpaceEmptyIffAllSpace` | internal/mock/auth/auth.go:32 | the trimmed name is empty iff every character of the name is a space |
| `Auth.Validate` | internal/mock/auth/auth.go:30-38 | `ErrNoUserName` iff the name is blank, whatever the password; `ErrNoPassword` iff the name is not blank and the password is empty; success otherwise |
| `Auth.Authenticate` | internal/mock/auth/auth.go:46-61 | the error is the validation error; on failure the user comes back unchanged; on success name and password are kept and the id is 1, 2 or 3 |
| `Auth.AuthenticateKnownNames` | internal/mock/auth/auth.go:51-55 | with any non-empty password, any user named "test" becomes user 1 and any user named "hacker" user 2, with name and password kept |
| `Auth.AuthenticateOtherNames` | internal/mock/auth/auth.go:56-57 | every valid user with another name becomes user 3, with name and password kept |
| `Auth.AuthenticateIds` | internal/mock/auth/auth.go:51-58 | three examples: "test" gets id 1, "hacker" id 2, and the untrimmed " test" id 3 |

## Left out

- The HTTP handlers and router in handler/shoppingcart.go and handler/handler.go are not part of this model. That covers request decoding, basic-auth parsing, metrics, and `Handler.Error`, which writes the status and JSON body. The handlers also apply their own rules (refusing an existing product, refusing to empty an empty cart). The model follows the service's rules instead.
- The GORM persistence in storage/mysql is modelled only through its observable effect on the store's state. SQL and the discarded GORM errors are not modelled. Its write operations (Create, Empty, AddProduct, UpdateProduct, RemoveProduct) never report a failure, because that implementation returns nil from each of them; only `Get` fails, with `ErrCartNotFound`. The service's Create, Empty, AddProduct and RemoveProduct pass the store's error on as it is (service/shoppingcart.go:25, 45, 67, 70, 85); in the model that error is always nil, so a failing store write is not modelled.
- `Storage.InsertItem` always hands out a fresh item id. A non-zero id the client sent with the item is not honoured, though GORM would insert under it.
- `Storage.SaveItem` only overwrites an existing line. GORM's `Save` would insert a missing row, but the service only saves lines it has just read.
- `Storage.CreateCart` always hands out a fresh cart id. A non-zero id already set on the caller's cart is not honoured, though GORM would insert under it; the only caller passes a cart with id 0.
- `Storage.CreateCart` stores the cart without lines. Lines passed inside a new cart (GORM saves associations) are not stored; the only caller passes none.
- The order of a cart's lines is not specified by the store: lines are loaded with the cart without any ordering, so their order is whatever the database returns. The model keeps them in insertion order as a modelling choice. `Storage.WithoutProductAt` and `Service.RemoveProductDeletesLine` rely on that choice when they say the remaining lines keep their order.
- `context.Context` parameters are dropped. `time.Now()` becomes a `now` parameter, and one service call uses one instant.
- Ids are unbounded integers instead of `int64`: nothing in the core does arithmetic on them.
- User names are sequences of Unicode characters. A name that is not valid UTF-8 is not modelled.
- The error return after `GetProduct` inside `AddProduct` (service/shoppingcart.go:62-64) has no counterpart. It cannot be taken once `HasProduct` held (`Domain.HasProductIffGetProduct`), and the method asserts so.
- Concurrent calls are not modelled: the service runs one operation at a time. The race between two concurrent first inserts of the same product is out of reach.
- cmd/shoppingcart (configuration, server lifecycle, signals) and the test doubles under internal/mock/shoppingcart are not part of this model. The only exception is `Service.SampleScenario`, which is built on the mock storage's fixture. The fixture's lines carry item id 0 and cart id 0; `Service.SampleDb` gives them ids 1 and 2 in cart 1, as a store that hands out ids would.
