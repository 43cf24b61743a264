/** How the HTTP layer reports an error: the status code each error maps to,
    the response body built from an error, and the message a client reads
    back from that body. */
module HttpErrors {
  import opened Errors

  const StatusBadRequest := 400
  const StatusUnauthorized := 401
  const StatusNotFound := 404
  const StatusInternalServerError := 500

  /** `ErrorStatusCodes`: the errors with a status of their own. */
  const ErrorStatusCodes: map<Error, int> := map[
    CartNotFound := StatusNotFound,
    CartHasNoItems := StatusBadRequest,
    NoPermission := StatusUnauthorized,
    CartItemNoProductSet := StatusBadRequest,
    CartItemNoQuantitySet := StatusBadRequest,
    CartItemNotFound := StatusNotFound,
    CartItemAlreadyExists := StatusBadRequest
  ]

  /** `statusCode`: the table's entry, or 500 for an error it does not list. */
  function StatusCode(e: Error): (code: int)
    ensures e in ErrorStatusCodes ==> code == ErrorStatusCodes[e]
    ensures e !in ErrorStatusCodes ==> code == StatusInternalServerError
  {
    if e in ErrorStatusCodes then ErrorStatusCodes[e] else StatusInternalServerError
  }

  /** Which errors get which status: the two not-found errors 404, missing
      permission 401, the validation, conflict and no-items errors 400, and
      every other error (an unset owner, the auth errors, any storage or parse
      failure) 500. */
  lemma StatusCodeClasses(e: Error)
    ensures StatusCode(e) == StatusNotFound <==> e == CartNotFound || e == CartItemNotFound
    ensures StatusCode(e) == StatusUnauthorized <==> e == NoPermission
    ensures StatusCode(e) == StatusBadRequest <==>
      e == CartHasNoItems || e == CartItemNoProductSet || e == CartItemNoQuantitySet || e == CartItemAlreadyExists
    ensures StatusCode(e) == StatusInternalServerError <==>
      e == UserNotSet || e == NoUserName || e == NoPassword || e.Other?
  {
  }

  /** `errorResource`: the body of an error response. */
  datatype ErrorResource = ErrorResource(message: string, code: int)

  /** `errorResponse`: the JSON envelope around it. */
  datatype ErrorResponse = ErrorResponse(resource: ErrorResource)

  /** `newErrorResponse`: the error's text with its status code. */
  function NewErrorResponse(e: Error): (r: ErrorResponse)
    ensures r.resource.code == StatusCode(e)
    ensures r.resource.message == Message(e)
  {
    ErrorResponse(ErrorResource(Message(e), StatusCode(e)))
  }

  /** The separator ": " starts at position i of s. */
  ghost predicate SepAt(s: string, i: int) {
    0 <= i && i + 1 < |s| && s[i] == ':' && s[i + 1] == ' '
  }

  /** The pieces joined back together. */
  function Concat(parts: seq<string>): string {
    if parts == [] then "" else parts[0] + Concat(parts[1..])
  }

  lemma {:induction false} ConcatAppend(parts: seq<string>, last: string)
    ensures Concat(parts + [last]) == Concat(parts) + last
  {
    if parts != [] {
      assert (parts + [last])[1..] == parts[1..] + [last];
      ConcatAppend(parts[1..], last);
    }
  }

  /** Every piece but the last ends with the separator, and no piece holds a
      separator anywhere else. */
  ghost predicate CutAfterSeps(parts: seq<string>) {
    && |parts| >= 1
    && (forall k :: 0 <= k < |parts| - 1 ==> |parts[k]| >= 2 && SepAt(parts[k], |parts[k]| - 2))
    && (forall k, i :: 0 <= k < |parts| && SepAt(parts[k], i) ==> k < |parts| - 1 && i == |parts[k]| - 2)
  }

  /** A separator in front of well-cut pieces is a piece of its own. */
  lemma SepPieceCut(rest: seq<string>)
    requires CutAfterSeps(rest)
    ensures CutAfterSeps([": "] + rest)
    ensures Concat([": "] + rest) == ": " + Concat(rest)
  {
    var parts := [": "] + rest;
    assert parts[1..] == rest;
    forall k, i | 0 <= k < |parts| && SepAt(parts[k], i) ensures k < |parts| - 1 && i == |parts[k]| - 2 {
      if k > 0 {
        assert SepAt(rest[k - 1], i);
      }
    }
  }

  /** A character that does not start a separator joins the first piece. */
  lemma CharJoinsFirstPiece(c: char, rest: seq<string>, tail: string)
    requires CutAfterSeps(rest) && Concat(rest) == tail
    requires !(c == ':' && |tail| > 0 && tail[0] == ' ')
    ensures CutAfterSeps([[c] + rest[0]] + rest[1..])
    ensures Concat([[c] + rest[0]] + rest[1..]) == [c] + tail
  {
    var parts := [[c] + rest[0]] + rest[1..];
    assert Concat(rest) == rest[0] + Concat(rest[1..]);
    assert parts[1..] == rest[1..];
    FirstPieceHasNoNewSep(c, rest[0], tail);
    forall k, i | 0 <= k < |parts| && SepAt(parts[k], i) ensures k < |parts| - 1 && i == |parts[k]| - 2 {
      if k > 0 {
        assert parts[k] == rest[k];
      }
    }
    forall k | 0 <= k < |parts| - 1 ensures |parts[k]| >= 2 && SepAt(parts[k], |parts[k]| - 2) {
      if k > 0 {
        assert parts[k] == rest[k];
      }
    }
  }

  /** Putting c in front of a piece that starts the text `tail` creates no
      separator unless c is a colon and `tail` starts with a space. */
  lemma FirstPieceHasNoNewSep(c: char, piece: string, tail: string)
    requires piece <= tail
    requires !(c == ':' && |tail| > 0 && tail[0] == ' ')
    ensures forall i :: SepAt([c] + piece, i) ==> i > 0 && SepAt(piece, i - 1)
  {
    forall i | SepAt([c] + piece, i) ensures i > 0 && SepAt(piece, i - 1) {
      if i == 0 {
        assert piece[0] == tail[0];
      }
    }
  }

  /** `strings.SplitAfter(s, ": ")`: s cut after every separator; the pieces
      join back to s. */
  function SplitAfter(s: string): (parts: seq<string>)
    ensures CutAfterSeps(parts)
    ensures Concat(parts) == s
  {
    if |s| == 0 then [""]
    else if |s| >= 2 && s[0] == ':' && s[1] == ' ' then
      var rest := SplitAfter(s[2..]);
      SepPieceCut(rest);
      assert s == ": " + s[2..];
      [": "] + rest
    else
      var rest := SplitAfter(s[1..]);
      CharJoinsFirstPiece(s[0], rest, s[1..]);
      assert s == [s[0]] + s[1..];
      [[s[0]] + rest[0]] + rest[1..]
  }

  /** `errorResource.Error`: the last piece of the message cut after every
      ": ", which holds no separator itself. */
  function ResourceError(res: ErrorResource): (r: string)
    ensures forall i :: !SepAt(r, i)
  {
    var parts := SplitAfter(res.message);
    parts[|parts| - 1]
  }

  /** The text a client reads back is the part of the message after the last
      ": ", or the whole message when there is none: a suffix with no
      separator, preceded by a separator unless it is the whole message. */
  lemma {:induction false} ResourceErrorIsLastSegment(res: ErrorResource)
    ensures var m, r := res.message, ResourceError(res);
      && |r| <= |m| && r == m[|m| - |r|..]
      && (forall i :: !SepAt(r, i))
      && (|r| < |m| ==> |r| + 2 <= |m| && SepAt(m, |m| - |r| - 2))
  {
    var m := res.message;
    var parts := SplitAfter(m);
    var n := |parts|;
    var r := parts[n - 1];
    assert parts == parts[..n - 1] + [r];
    ConcatAppend(parts[..n - 1], r);
    var init := Concat(parts[..n - 1]);
    assert m == init + r;
    if n > 1 {
      InitEndsWithSep(parts);
      assert m[|init| - 2] == init[|init| - 2] && m[|init| - 1] == init[|init| - 1];
    }
  }

  /** When a message is cut in several pieces, all but the last join to a text
      that ends with the separator. */
  lemma InitEndsWithSep(parts: seq<string>)
    requires CutAfterSeps(parts) && |parts| > 1
    ensures var init := Concat(parts[..|parts| - 1]);
      |init| >= 2 && SepAt(init, |init| - 2)
  {
    var n := |parts|;
    var p := parts[n - 2];
    assert parts[..n - 1] == parts[..n - 2] + [p];
    ConcatAppend(parts[..n - 2], p);
    assert SepAt(p, |p| - 2);
  }

  /** A message without the separator is read back whole. */
  lemma ResourceErrorWithoutSep(res: ErrorResource)
    requires forall i :: !SepAt(res.message, i)
    ensures ResourceError(res) == res.message
  {
    ResourceErrorIsLastSegment(res);
  }

  /** A text without a colon holds no separator. */
  lemma NoColonNoSep(s: string)
    requires ':' !in s
    ensures forall i :: !SepAt(s, i)
  {
  }

  /** None of the sentinel errors' texts holds the separator. */
  lemma SentinelMessageHasNoSep(e: Error)
    requires !e.Other?
    ensures forall i :: !SepAt(Message(e), i)
  {
    match e {
      case NoPermission => NoPermissionTextHasNoSep();
      case UserNotSet => UserNotSetTextHasNoSep();
      case CartNotFound => CartNotFoundTextHasNoSep();
      case CartHasNoItems => CartHasNoItemsTextHasNoSep();
      case CartItemNotFound => CartItemNotFoundTextHasNoSep();
      case CartItemAlreadyExists => CartItemAlreadyExistsTextHasNoSep();
      case CartItemNoProductSet => CartItemNoProductSetTextHasNoSep();
      case CartItemNoQuantitySet => CartItemNoQuantitySetTextHasNoSep();
      case NoUserName => NoUserNameTextHasNoSep();
      case NoPassword => NoPasswordTextHasNoSep();
    }
  }

  /** The text of `NoPermission` holds no separator. */
  lemma NoPermissionTextHasNoSep()
    ensures forall i :: !SepAt(Message(NoPermission), i)
  {
    NoColonNoSep("user does not have the permissions");
  }

  /** The text of `UserNotSet` holds no separator. */
  lemma UserNotSetTextHasNoSep()
    ensures forall i :: !SepAt(Message(UserNotSet), i)
  {
    NoColonNoSep("no user set");
  }

  /** The text of `CartNotFound` holds no separator. */
  lemma CartNotFoundTextHasNoSep()
    ensures forall i :: !SepAt(Message(CartNotFound), i)
  {
    NoColonNoSep("shopping cart not found");
  }

  /** The text of `CartHasNoItems` holds no separator. */
  lemma CartHasNoItemsTextHasNoSep()
    ensures forall i :: !SepAt(Message(CartHasNoItems), i)
  {
    NoColonNoSep("shopping cart has no items");
  }

  /** The text of `CartItemNotFound` holds no separator. */
  lemma CartItemNotFoundTextHasNoSep()
    ensures forall i :: !SepAt(Message(CartItemNotFound), i)
  {
    NoColonNoSep("shopping cart item not found");
  }

  /** The text of `CartItemAlreadyExists` holds no separator. */
  lemma CartItemAlreadyExistsTextHasNoSep()
    ensures forall i :: !SepAt(Message(CartItemAlreadyExists), i)
  {
    NoColonNoSep("this product already added to shopping cart");
  }

  /** The text of `CartItemNoProductSet` holds no separator. */
  lemma CartItemNoProductSetTextHasNoSep()
    ensures forall i :: !SepAt(Message(CartItemNoProductSet), i)
  {
    NoColonNoSep("product is not specified");
  }

  /** The text of `CartItemNoQuantitySet` holds no separator. */
  lemma CartItemNoQuantitySetTextHasNoSep()
    ensures forall i :: !SepAt(Message(CartItemNoQuantitySet), i)
  {
    NoColonNoSep("quantity is not specified");
  }

  /** The text of `NoUserName` holds no separator. */
  lemma NoUserNameTextHasNoSep()
    ensures forall i :: !SepAt(Message(NoUserName), i)
  {
    NoColonNoSep("no user name provided");
  }

  /** The text of `NoPassword` holds no separator. */
  lemma NoPasswordTextHasNoSep()
    ensures forall i :: !SepAt(Message(NoPassword), i)
  {
    NoColonNoSep("no password provided");
  }

  /** The response built from a sentinel error reads back as that error's
      full text. */
  lemma SentinelErrorReadsBackWhole(e: Error)
    requires !e.Other?
    ensures ResourceError(NewErrorResponse(e).resource) == Message(e)
  {
    SentinelMessageHasNoSep(e);
    ResourceErrorWithoutSep(NewErrorResponse(e).resource);
  }
}
