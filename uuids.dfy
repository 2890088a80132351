/**
 * UUIDs as the `github.com/google/uuid` package reads and writes them: sixteen
 * bytes, here kept as their thirty-two hexadecimal digits.
 */
module Uuids {
  import opened Wrappers

  type Nibble = x: int | 0 <= x < 16

  type Uuid = s: seq<Nibble> | |s| == 32 witness seq(32, _ => 0)

  /** `uuid.Nil`. */
  const NilUuid: Uuid := seq(32, _ => 0)

  /** One hexadecimal digit in either case, as the library's `xvalues` table reads it. */
  function HexValue(c: char): (r: Option<Nibble>)
    ensures r.Some? <==> ('0' <= c <= '9' || 'a' <= c <= 'f' || 'A' <= c <= 'F')
  {
    if '0' <= c <= '9' then Some(c as int - '0' as int)
    else if 'a' <= c <= 'f' then Some(c as int - 'a' as int + 10)
    else if 'A' <= c <= 'F' then Some(c as int - 'A' as int + 10)
    else None
  }

  /** The lower-case digit `String()` writes. */
  function HexChar(n: Nibble): (c: char)
    ensures HexValue(c) == Some(n)
  {
    if n < 10 then ('0' as int + n) as char else ('a' as int + n - 10) as char
  }

  /** Positions of the four hyphens in `xxxxxxxx-xxxx-xxxx-xxxx-xxxxxxxxxxxx`. */
  predicate IsHyphenPosition(i: int)
  {
    i == 8 || i == 13 || i == 18 || i == 23
  }

  /** Where the `k`-th digit stands in the 36-character layout. */
  function DigitPosition(k: nat): (i: nat)
    requires k < 32
    ensures i < 36 && !IsHyphenPosition(i)
  {
    if k < 8 then k else if k < 12 then k + 1 else if k < 16 then k + 2 else if k < 20 then k + 3 else k + 4
  }

  /** Which digit a non-hyphen position of the 36-character layout holds. */
  function DigitAt(i: nat): (k: nat)
    requires i < 36 && !IsHyphenPosition(i)
    ensures k < 32 && DigitPosition(k) == i
  {
    if i < 8 then i else if i < 13 then i - 1 else if i < 18 then i - 2 else if i < 23 then i - 3 else i - 4
  }

  /** `UUID.String()`: the canonical lower-case 36-character form. */
  function Format(u: Uuid): (s: string)
    ensures |s| == 36
    ensures forall i :: 0 <= i < 36 ==> (s[i] == '-' <==> IsHyphenPosition(i))
  {
    seq(36, i requires 0 <= i < 36 => if IsHyphenPosition(i) then '-' else HexChar(u[DigitAt(i)]))
  }

  /** The 36-character layout: hyphens in their four places, hex digits everywhere else. */
  function ParseHyphenated(s: string): (r: Option<Uuid>)
    requires |s| == 36
    ensures r.Some? ==> forall k :: 0 <= k < 32 ==> HexValue(s[DigitPosition(k)]) == Some(r.value[k])
  {
    if s[8] == '-' && s[13] == '-' && s[18] == '-' && s[23] == '-'
       && forall k :: 0 <= k < 32 ==> HexValue(s[DigitPosition(k)]).Some?
    then Some(seq(32, k requires 0 <= k < 32 => HexValue(s[DigitPosition(k)]).value))
    else None
  }

  /** Thirty-two hex digits with no hyphens. */
  function ParseRawHex(s: string): Option<Uuid>
    requires |s| == 32
  {
    if forall k :: 0 <= k < 32 ==> HexValue(s[k]).Some?
    then Some(seq(32, k requires 0 <= k < 32 => HexValue(s[k]).value))
    else None
  }

  function AsciiLower(c: char): char
  {
    if 'A' <= c <= 'Z' then (c as int + 32) as char else c
  }

  predicate IsAscii(c: char)
  {
    c as int < 128
  }

  /**
   * `uuid.Parse`. The library switches on the BYTE length of the string: 36 is
   * the canonical form, 45 carries a case-insensitive `urn:uuid:` prefix, 38 is
   * the braced form whose first and last bytes are not examined, 32 is raw hex.
   * Every accepted string is ASCII apart from those two ignored characters of the
   * braced form, and those must be single bytes for the byte length to be 38; so
   * the cases below, written over characters, accept exactly the same strings.
   */
  function Parse(s: string): (r: Option<Uuid>)
    ensures r.Some? ==> |s| == 32 || |s| == 36 || |s| == 38 || |s| == 45
  {
    if |s| == 36 then ParseHyphenated(s)
    else if |s| == 45 then
      (if seq(9, i requires 0 <= i < 9 => AsciiLower(s[i])) == "urn:uuid:" then ParseHyphenated(s[9..]) else None)
    else if |s| == 38 then
      (if IsAscii(s[0]) && IsAscii(s[37]) then ParseHyphenated(s[1..37]) else None)
    else if |s| == 32 then ParseRawHex(s)
    else None
  }

  /** What `String()` writes, `Parse` reads back. */
  lemma ParseFormat(u: Uuid)
    ensures Parse(Format(u)) == Some(u)
  {
    var s := Format(u);
    forall k | 0 <= k < 32
      ensures HexValue(s[DigitPosition(k)]) == Some(u[k])
    {
      assert DigitAt(DigitPosition(k)) == k;
    }
    var r := ParseHyphenated(s);
    assert r.Some?;
    assert r.value == u;
  }
}
