/** The error values the cart backend returns, and Go's `error` result
    (nil or an error value) as a datatype. */
module Errors {

  /** The sentinel errors of the cart package and of the auth service, plus
      any other error (a parse failure, a storage failure) known only by its
      text. Go compares sentinel errors by identity, so `Other` never equals
      a sentinel even when its text is the same. */
  datatype Error =
    | NoPermission
    | UserNotSet
    | CartNotFound
    | CartHasNoItems
    | CartItemNotFound
    | CartItemAlreadyExists
    | CartItemNoProductSet
    | CartItemNoQuantitySet
    | NoUserName
    | NoPassword
    | Other(text: string)

  /** The text `err.Error()` returns for each error. */
  function Message(e: Error): (text: string)
    ensures e.Other? ==> text == e.text
    ensures !e.Other? ==> |text| > 0
  {
    match e
    case NoPermission => "user does not have the permissions"
    case UserNotSet => "no user set"
    case CartNotFound => "shopping cart not found"
    case CartHasNoItems => "shopping cart has no items"
    case CartItemNotFound => "shopping cart item not found"
    case CartItemAlreadyExists => "this product already added to shopping cart"
    case CartItemNoProductSet => "product is not specified"
    case CartItemNoQuantitySet => "quantity is not specified"
    case NoUserName => "no user name provided"
    case NoPassword => "no password provided"
    case Other(text) => text
  }

  /** A Go `error` result: `Pass` is nil, `Fail(e)` a non-nil error. */
  datatype Outcome = Pass | Fail(error: Error)
}
