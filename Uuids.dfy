/** `java.util.UUID` in its canonical text form: 32 hexadecimal digits written
    8-4-4-4-12 with dashes. `ToString` is `UUID.toString()` (lower-case digits)
    and `FromString` is `UUID.fromString` on a 36-character string. */
module Uuids {
  import opened Common

  type HexDigit = d: int | 0 <= d < 16

  /** The 128 bits of a UUID as 32 hexadecimal digits, most significant first. */
  type Uuid = s: seq<HexDigit> | |s| == 32 witness seq(32, _ => 0)

  /** Positions of the four dashes in the 36-character form. */
  predicate DashAt(i: int) {
    i == 8 || i == 13 || i == 18 || i == 23
  }

  /** The digit shown at text position `i` (not a dash position). */
  function DigitIndex(i: int): (j: int)
    requires 0 <= i < 36 && !DashAt(i)
    ensures 0 <= j < 32
  {
    if i < 8 then i else if i < 13 then i - 1 else if i < 18 then i - 2
    else if i < 23 then i - 3 else i - 4
  }

  /** The text position of digit `j`. */
  function CharIndex(j: int): (i: int)
    requires 0 <= j < 32
    ensures 0 <= i < 36 && !DashAt(i) && DigitIndex(i) == j
  {
    if j < 8 then j else if j < 12 then j + 1 else if j < 16 then j + 2
    else if j < 20 then j + 3 else j + 4
  }

  function HexChar(d: HexDigit): char {
    if d < 10 then ('0' as int + d) as char else ('a' as int + d - 10) as char
  }

  predicate IsHex(c: char) {
    '0' <= c <= '9' || 'a' <= c <= 'f' || 'A' <= c <= 'F'
  }

  function HexValue(c: char): HexDigit
    requires IsHex(c)
  {
    if '0' <= c <= '9' then c as int - '0' as int
    else if 'a' <= c <= 'f' then c as int - 'a' as int + 10
    else c as int - 'A' as int + 10
  }

  /** `UUID.toString()`. */
  function ToString(u: Uuid): (s: string)
    ensures |s| == 36
    ensures forall i :: 0 <= i < 36 && DashAt(i) ==> s[i] == '-'
    ensures forall i :: 0 <= i < 36 && !DashAt(i) ==> s[i] == HexChar(u[DigitIndex(i)])
  {
    seq(36, i requires 0 <= i < 36 => if DashAt(i) then '-' else HexChar(u[DigitIndex(i)]))
  }

  predicate Canonical(s: string) {
    |s| == 36
    && (forall i :: 0 <= i < 36 && DashAt(i) ==> s[i] == '-')
    && (forall i :: 0 <= i < 36 && !DashAt(i) ==> IsHex(s[i]))
  }

  /** `UUID.fromString`; `None` stands for the IllegalArgumentException it throws. */
  function FromString(s: string): (r: Option<Uuid>)
    ensures r.Some? <==> Canonical(s)
  {
    if Canonical(s) then
      Some(seq(32, j requires 0 <= j < 32 => HexValue(s[CharIndex(j)])))
    else None
  }

  lemma HexValueOfHexChar(d: HexDigit)
    ensures IsHex(HexChar(d)) && HexValue(HexChar(d)) == d
  {
  }

  /** Printing a UUID and parsing the text back gives the same UUID. */
  lemma FromStringToString(u: Uuid)
    ensures FromString(ToString(u)) == Some(u)
  {
    var s := ToString(u);
    forall i | 0 <= i < 36 && !DashAt(i) ensures IsHex(s[i]) {
      HexValueOfHexChar(u[DigitIndex(i)]);
    }
    assert Canonical(s);
    var v := FromString(s).value;
    forall j | 0 <= j < 32 ensures v[j] == u[j] {
      HexValueOfHexChar(u[j]);
    }
    assert v == u;
  }

  /** Parsing accepts either case and printing gives the lower-case form back. */
  lemma ToStringFromString(s: string)
    requires Canonical(s)
    ensures ToString(FromString(s).value) == Lower(s)
  {
    var t := ToString(FromString(s).value);
    forall i | 0 <= i < 36 ensures t[i] == Lower(s)[i] {
      if !DashAt(i) {
        assert CharIndex(DigitIndex(i)) == i;
      }
    }
  }

  /** Two UUIDs print the same only if they are the same. */
  lemma ToStringInjective(u: Uuid, w: Uuid)
    requires ToString(u) == ToString(w)
    ensures u == w
  {
    FromStringToString(u);
    FromStringToString(w);
  }
}
