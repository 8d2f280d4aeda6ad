/** Values shared by every component: nullable references, thrown exceptions,
    Java's fixed-width integers, the case-insensitive string comparison used
    for scopes, and the caller classification (user type and role). */
module Common {

  /** A Java reference that may be null. */
  datatype Option<+T> = None | Some(value: T) {
    function GetOr(default: T): T {
      match this
      case Some(v) => v
      case None => default
    }
  }

  /** The exceptions the core throws, each with the message the code gives it. */
  datatype Exception =
    | NullPointer(message: string)
    | IllegalArgument(message: string)
    | IllegalState(message: string)
    | Runtime(message: string)
    | Security(message: string)
    | IndexOutOfBounds
    | JwtLibrary(failure: LibraryFailure)

  /** Failures of the token library that the wrappers let through unmapped. */
  datatype LibraryFailure =
    | BlankJwt        // a token string with no text at all
    | MalformedJwt    // not a parseable signed token, or a date claim of the wrong type
    | PrematureJwt    // used before its not-before time, beyond the skew
    | NullVerifyKey   // verification asked for with no key
    | NullSigningKey  // signing asked for with no key

  /** A value or the exception thrown while computing it. */
  datatype Result<+T> = Ok(value: T) | Err(error: Exception) {
    predicate IsFailure() { Err? }
    function PropagateFailure<U>(): Result<U>
      requires Err?
    {
      Err(error)
    }
    function Extract(): T
      requires Ok?
    {
      value
    }
    /** The value, or null after a throw. */
    function ToOption(): Option<T> {
      if Ok? then Some(value) else None
    }
  }

  /** The outcome of a Java method returning void: normal completion or a throw. */
  datatype Outcome = Normal | Thrown(error: Exception)

  // Java's `int` and `long`.
  const MinLong: int := -0x8000_0000_0000_0000
  const MaxLong: int := 0x7FFF_FFFF_FFFF_FFFF
  type Int32 = x: int | -0x8000_0000 <= x < 0x8000_0000
  type Long = x: int | MinLong <= x <= MaxLong

  /** Two's-complement wrap-around of a mathematical integer into a Java `long`. */
  function WrapLong(x: int): (r: Long)
    ensures MinLong <= x <= MaxLong ==> r == x
    ensures (r - x) % 0x1_0000_0000_0000_0000 == 0
  {
    (x - MinLong) % 0x1_0000_0000_0000_0000 + MinLong
  }

  /** Java's `long` division by a positive constant, truncating toward zero. */
  function JavaDiv(x: int, d: int): (q: int)
    requires d > 0
    ensures x >= 0 ==> q == x / d
    ensures x < 0 ==> q == -((-x) / d)
    ensures -d < x - q * d < d
    ensures x >= 0 ==> q >= 0
    ensures x <= 0 ==> q <= 0
  {
    if x >= 0 then
      EuclideanRemainder(x, d);
      x / d
    else
      var p := (-x) / d;
      EuclideanRemainder(-x, d);
      assert (-p) * d == -(p * d);
      -p
  }

  /** The remainder left by Dafny's division of a natural number. */
  lemma EuclideanRemainder(n: int, d: int)
    requires n >= 0 && d > 0
    ensures 0 <= n - (n / d) * d < d
    ensures n / d >= 0
  {
  }

  /** ASCII case folding, as `Character.toLowerCase` does on ASCII letters. */
  function FoldCase(c: char): (r: char)
    ensures 'A' <= c <= 'Z' ==> r as int == c as int + 32
    ensures !('A' <= c <= 'Z') ==> r == c
  {
    if 'A' <= c <= 'Z' then (c as int + 32) as char else c
  }

  /** `String.equalsIgnoreCase`: same length and pairwise equal after folding. */
  predicate EqualsIgnoreCase(a: string, b: string) {
    |a| == |b| && forall i :: 0 <= i < |a| ==> FoldCase(a[i]) == FoldCase(b[i])
  }

  function Lower(s: string): (r: string)
    ensures |r| == |s| && forall i :: 0 <= i < |s| ==> r[i] == FoldCase(s[i])
  {
    seq(|s|, i requires 0 <= i < |s| => FoldCase(s[i]))
  }

  /** equalsIgnoreCase is equality of the folded strings, so it is an equivalence. */
  lemma EqualsIgnoreCaseIsLowerEquality(a: string, b: string)
    ensures EqualsIgnoreCase(a, b) <==> Lower(a) == Lower(b)
  {
    if Lower(a) == Lower(b) {
      assert |a| == |Lower(a)|;
      forall i | 0 <= i < |a| ensures FoldCase(a[i]) == FoldCase(b[i]) {
        assert Lower(a)[i] == Lower(b)[i];
      }
    }
  }

  /** `s.trim().isEmpty()`: trim drops every leading and trailing char up to U+0020. */
  predicate TrimIsEmpty(s: string) {
    forall i :: 0 <= i < |s| ==> s[i] <= ' '
  }

  /** The caller classifications; `toString()` gives the constant's name. */
  datatype UserType = CUSTOMER | SELLER {
    function Name(): string {
      match this
      case CUSTOMER => "CUSTOMER"
      case SELLER => "SELLER"
    }
  }

  datatype Role = ADMIN | CSR | MARKETING {
    function Name(): string {
      match this
      case ADMIN => "ADMIN"
      case CSR => "CSR"
      case MARKETING => "MARKETING"
    }
  }
}
