/** The authentication service the server is wired with: it checks that a
    user name and a password were given and maps the name to a user id. */
module Auth {
  import opened Errors

  newtype byte = x: int | 0 <= x < 256

  /** A user as the credentials name it; `id` is filled in on success. */
  datatype User = User(id: int, name: string, password: seq<byte>)

  /** Go's `unicode.IsSpace`: the Latin-1 spaces, and the other characters
      with Unicode's White_Space property. */
  predicate IsSpace(c: char) {
    c == '\t' || c == '\n' || c == '\U{000B}' || c == '\U{000C}' || c == '\r' || c == ' ' ||
    c == '\U{0085}' || c == '\U{00A0}' || c == '\U{1680}' || '\U{2000}' <= c <= '\U{200A}' ||
    c == '\U{2028}' || c == '\U{2029}' || c == '\U{202F}' || c == '\U{205F}' || c == '\U{3000}'
  }

  /** Every character of s is a space (the empty text included). */
  ghost predicate AllSpace(s: string) {
    forall i :: 0 <= i < |s| ==> IsSpace(s[i])
  }

  /** s with its leading spaces dropped. */
  function TrimLeft(s: string): (r: string)
    ensures |r| <= |s| && r == s[|s| - |r|..]
    ensures AllSpace(s[..|s| - |r|])
    ensures r == [] || !IsSpace(r[0])
  {
    if s != [] && IsSpace(s[0]) then
      var r := TrimLeft(s[1..]);
      assert s[..|s| - |r|] == [s[0]] + s[1..][..|s| - 1 - |r|];
      r
    else s
  }

  /** s with its trailing spaces dropped. */
  function TrimRight(s: string): (r: string)
    ensures |r| <= |s| && r == s[..|r|]
    ensures AllSpace(s[|r|..])
    ensures r == [] || !IsSpace(r[|r| - 1])
  {
    if s != [] && IsSpace(s[|s| - 1]) then
      var r := TrimRight(s[..|s| - 1]);
      assert s[|r|..] == s[..|s| - 1][|r|..] + [s[|s| - 1]];
      r
    else s
  }

  /** r is the part of s starting at a, and s holds only spaces before and
      after it. */
  ghost predicate TrimmedAt(s: string, a: int, r: string) {
    0 <= a && a + |r| <= |s| && r == s[a..a + |r|] && AllSpace(s[..a]) && AllSpace(s[a + |r|..])
  }

  /** `strings.TrimSpace`: s without its leading and trailing spaces: the
      part of s between a run of spaces at either end, which neither starts
      nor ends with a space. */
  function TrimSpace(s: string): (r: string)
    ensures r == [] || (!IsSpace(r[0]) && !IsSpace(r[|r| - 1]))
    ensures exists a :: TrimmedAt(s, a, r)
  {
    var l := TrimLeft(s);
    var r := TrimRight(l);
    TrimBothEnds(s, l, r);
    assert TrimmedAt(s, |s| - |l|, r);
    r
  }

  /** Trimming the left and then the right keeps the infix of s that starts
      after the leading spaces. */
  lemma TrimBothEnds(s: string, l: string, r: string)
    requires l == TrimLeft(s) && r == TrimRight(l)
    ensures r == [] || (!IsSpace(r[0]) && !IsSpace(r[|r| - 1]))
    ensures var a := |s| - |l|;
      0 <= a && a + |r| <= |s| && r == s[a..a + |r|] && AllSpace(s[..a]) && AllSpace(s[a + |r|..])
  {
    InfixSlices(s, l, r);
  }

  /** A prefix r of a suffix l of s is the infix of s that starts where l
      does, and what follows it in s is what follows it in l. */
  lemma InfixSlices<T>(s: seq<T>, l: seq<T>, r: seq<T>)
    requires |l| <= |s| && l == s[|s| - |l|..]
    requires |r| <= |l| && r == l[..|r|]
    ensures r == s[|s| - |l|..|s| - |l| + |r|]
    ensures s[|s| - |l| + |r|..] == l[|r|..]
    ensures r != [] ==> r[0] == l[0]
  {
  }

  /** Trimming leaves nothing exactly when the text is all spaces. */
  lemma TrimSpaceEmptyIffAllSpace(s: string)
    ensures TrimSpace(s) == "" <==> AllSpace(s)
  {
    var l := TrimLeft(s);
    if TrimSpace(s) == "" {
      assert AllSpace(l[0..]);
      assert l == [];
      assert s[..|s|] == s;
    }
    if AllSpace(s) {
      TrimLeftAllSpace(s);
    }
  }

  /** Trimming the left of a text of spaces leaves nothing. */
  lemma {:induction false} TrimLeftAllSpace(s: string)
    requires AllSpace(s)
    ensures TrimLeft(s) == ""
  {
    if s != [] {
      assert IsSpace(s[0]);
      assert AllSpace(s[1..]) by {
        forall i | 0 <= i < |s| - 1 ensures IsSpace(s[1..][i]) {
          assert s[1..][i] == s[i + 1];
        }
      }
      TrimLeftAllSpace(s[1..]);
    }
  }

  /** `User.Validate`: a name that is not blank, then a password, must be
      given. */
  function Validate(u: User): (r: Outcome)
    ensures r == Fail(NoUserName) <==> AllSpace(u.name)
    ensures r == Fail(NoPassword) <==> !AllSpace(u.name) && |u.password| == 0
    ensures r == Pass <==> !AllSpace(u.name) && |u.password| != 0
  {
    TrimSpaceEmptyIffAllSpace(u.name);
    if TrimSpace(u.name) == "" then Fail(NoUserName)
    else if |u.password| == 0 then Fail(NoPassword)
    else Pass
  }

  /** `Auth.Authenticate`: an invalid user comes back unchanged with the
      validation error; a valid one with an id chosen by its name as given,
      untrimmed. */
  function Authenticate(u: User): (r: (User, Outcome))
    ensures r.1 == Validate(u)
    ensures r.1 != Pass ==> r.0 == u
    ensures r.1 == Pass ==> r.0.name == u.name && r.0.password == u.password && 1 <= r.0.id <= 3
  {
    var v := Validate(u);
    if v.Fail? then (u, v)
    else if u.name == "test" then (u.(id := 1), Pass)
    else if u.name == "hacker" then (u.(id := 2), Pass)
    else (u.(id := 3), Pass)
  }

  /** With any password, "test" is user 1 and "hacker" user 2, whatever id
      the credentials carried. */
  lemma AuthenticateKnownNames(u: User)
    requires |u.password| > 0
    ensures u.name == "test" ==> Authenticate(u) == (u.(id := 1), Pass)
    ensures u.name == "hacker" ==> Authenticate(u) == (u.(id := 2), Pass)
  {
    if u.name == "test" {
      assert !IsSpace(u.name[0]);
    } else if u.name == "hacker" {
      assert !IsSpace(u.name[0]);
    }
  }

  /** Every other valid user, untrimmed names included, is user 3. */
  lemma AuthenticateOtherNames(u: User)
    requires Validate(u) == Pass && u.name != "test" && u.name != "hacker"
    ensures Authenticate(u) == (u.(id := 3), Pass)
  {
  }

  /** The id depends on the exact name: "test" is user 1, "hacker" user 2,
      and any other name, " test" with its leading space among them, user 3. */
  lemma AuthenticateIds(password: seq<byte>)
    requires |password| > 0
    ensures Authenticate(User(0, "test", password)) == (User(1, "test", password), Pass)
    ensures Authenticate(User(0, "hacker", password)) == (User(2, "hacker", password), Pass)
    ensures Authenticate(User(0, " test", password)) == (User(3, " test", password), Pass)
  {
    assert !IsSpace("test"[0]);
    assert !IsSpace("hacker"[0]);
    assert !IsSpace(" test"[1]);
  }
}
