/** The `AppScopes` constant-to-string table and the `"type:role"` scope format,
    with `String.split(":")` as Java defines it. */
module Scopes {
  import opened Common

  /** The scope constants; `Value()` is the string each is declared with. */
  datatype AppScope = NONE | CUSTOMER_ALL | SELLER_ALL | SELLER_ADMIN | SELLER_CSR | SELLER_MARKETING {
    function Value(): Option<string> {
      match this
      case NONE => None
      case CUSTOMER_ALL => Some("customer:*")
      case SELLER_ALL => Some("seller:*")
      case SELLER_ADMIN => Some("seller:admin")
      case SELLER_CSR => Some("seller:csr")
      case SELLER_MARKETING => Some("seller:marketing")
    }

    /** The type and role segments the value is built from. */
    function Segments(): (r: (string, string))
      requires this != NONE
    {
      match this
      case CUSTOMER_ALL => ("customer", "*")
      case SELLER_ALL => ("seller", "*")
      case SELLER_ADMIN => ("seller", "admin")
      case SELLER_CSR => ("seller", "csr")
      case SELLER_MARKETING => ("seller", "marketing")
    }
  }

  /** Index of the first ':' in `s`. */
  function IndexOfColon(s: string): (i: nat)
    requires ':' in s
    ensures i < |s| && s[i] == ':' && ':' !in s[..i]
  {
    if s[0] == ':' then 0 else 1 + IndexOfColon(s[1..])
  }

  /** The pieces of `s` between ':' characters, empty pieces included. */
  function Pieces(s: string): (r: seq<string>)
    ensures |r| > 0
    decreases |s|
  {
    if ':' !in s then [s]
    else
      var i := IndexOfColon(s);
      [s[..i]] + Pieces(s[i + 1..])
  }

  function DropTrailingEmpty(p: seq<string>): (r: seq<string>)
    ensures |r| <= |p| && r == p[..|r|]
    ensures |r| > 0 ==> r[|r| - 1] != ""
    ensures forall k :: |r| <= k < |p| ==> p[k] == ""
  {
    if |p| > 0 && p[|p| - 1] == "" then DropTrailingEmpty(p[..|p| - 1]) else p
  }

  /** `s.split(":")`: a string without ':' gives itself; otherwise the pieces
      between colons with the trailing empty pieces removed. */
  function JavaSplit(s: string): seq<string> {
    if ':' !in s then [s] else DropTrailingEmpty(Pieces(s))
  }

  /** A scope written as a colon-free type, one ':' and a non-empty colon-free
      role splits into exactly those two segments. */
  lemma {:induction false} SplitScope(t: string, r: string)
    requires ':' !in t && ':' !in r && r != ""
    ensures JavaSplit(t + ":" + r) == [t, r]
  {
    var s := t + ":" + r;
    assert s[|t|] == ':';
    assert s[..|t|] == t;
    var i := IndexOfColon(s);
    assert i == |t|;
    assert s[..i] == t;
    assert s[i + 1..] == r;
    assert Pieces(s) == [t] + [r];
  }

  /** Every declared value is `type:role` with one ':' between non-empty segments. */
  lemma ValueWellFormed(a: AppScope)
    requires a != NONE
    ensures a.Value() == Some(a.Segments().0 + ":" + a.Segments().1)
    ensures a.Segments().0 != "" && a.Segments().1 != ""
    ensures ':' !in a.Segments().0 && ':' !in a.Segments().1
    ensures JavaSplit(a.Value().value) == [a.Segments().0, a.Segments().1]
  {
    match a
    case CUSTOMER_ALL =>
      assert "customer" + ":" + "*" == "customer:*";
      SplitScope("customer", "*");
    case SELLER_ALL =>
      assert "seller" + ":" + "*" == "seller:*";
      SplitScope("seller", "*");
    case SELLER_ADMIN =>
      assert "seller" + ":" + "admin" == "seller:admin";
      SplitScope("seller", "admin");
    case SELLER_CSR =>
      assert "seller" + ":" + "csr" == "seller:csr";
      SplitScope("seller", "csr");
    case SELLER_MARKETING =>
      assert "seller" + ":" + "marketing" == "seller:marketing";
      SplitScope("seller", "marketing");
  }

  /** Only NONE has no value, and no two constants share a value. */
  lemma ValuesDistinct(a: AppScope, b: AppScope)
    ensures a.Value().None? <==> a == NONE
    ensures a != b && a != NONE ==> a.Value() != b.Value()
  {
    if a != b && a != NONE && b != NONE {
      ValueWellFormed(a);
      ValueWellFormed(b);
      assert a.Segments() != b.Segments();
    }
  }
}
