/** `java.util.UUID`: a 128-bit value, here kept as its 32 hexadecimal digits,
    most significant first (digits 0-15 are `mostSigBits`, 16-31
    `leastSigBits`), with the canonical text form `toString` prints and
    `fromString` reads. */
module Uuids {
  import opened Wrappers
  import JavaLang

  newtype Nibble = x: int | 0 <= x < 16

  type Uuid = s: seq<Nibble> | |s| == 32 witness seq(32, i => 0)

  /** The lower-case hexadecimal digit `toString` prints for `d`. */
  function HexDigit(d: Nibble): char
  {
    if d < 10 then ('0' as int + d as int) as char else ('a' as int + d as int - 10) as char
  }

  /** The value of a hexadecimal digit of either case; `None` for any other character. */
  function NibbleOf(c: char): (r: Option<Nibble>)
    ensures r.Some? <==> ('0' <= c <= '9' || 'a' <= c <= 'f' || 'A' <= c <= 'F')
  {
    if '0' <= c <= '9' then Some((c as int - '0' as int) as Nibble)
    else if 'a' <= c <= 'f' then Some((c as int - 'a' as int + 10) as Nibble)
    else if 'A' <= c <= 'F' then Some((c as int - 'A' as int + 10) as Nibble)
    else None
  }

  function Hex(ds: seq<Nibble>): (s: string)
    ensures |s| == |ds|
  {
    if ds == [] then [] else [HexDigit(ds[0])] + Hex(ds[1..])
  }

  function ParseHex(s: string): (r: Option<seq<Nibble>>)
    ensures r.Some? ==> |r.value| == |s|
  {
    if s == [] then Some([])
    else match (NibbleOf(s[0]), ParseHex(s[1..]))
      case (Some(d), Some(rest)) => Some([d] + rest)
      case _ => None
  }

  lemma {:induction false} HexAppend(a: seq<Nibble>, b: seq<Nibble>)
    ensures Hex(a + b) == Hex(a) + Hex(b)
  {
    if a == [] {
      assert a + b == b;
    } else {
      assert (a + b)[1..] == a[1..] + b;
      HexAppend(a[1..], b);
    }
  }

  lemma {:induction false} ParseHexOfHex(ds: seq<Nibble>)
    ensures ParseHex(Hex(ds)) == Some(ds)
  {
    if ds != [] {
      var s := Hex(ds);
      assert s[0] == HexDigit(ds[0]) && s[1..] == Hex(ds[1..]);
      ParseHexOfHex(ds[1..]);
      assert [ds[0]] + ds[1..] == ds;
    }
  }

  /** `UUID.toString`: 8-4-4-4-12 lower-case hex digits separated by dashes. */
  function ToString(u: Uuid): (s: string)
    ensures |s| == 36
  {
    Hex(u[..8]) + "-" + Hex(u[8..12]) + "-" + Hex(u[12..16]) + "-" + Hex(u[16..20]) + "-" + Hex(u[20..])
  }

  /** The digits of a dashed 36-character string, dashes removed. */
  function Undash(s: string): string
    requires |s| == 36
  {
    s[..8] + s[9..13] + s[14..18] + s[19..23] + s[24..]
  }

  /** `UUID.fromString` on the canonical form: 36 characters, dashes at
      positions 8, 13, 18 and 23, hex digits of either case elsewhere. `None`
      is the `IllegalArgumentException` / `NumberFormatException` it throws. */
  function FromString(s: string): (r: Option<Uuid>)
    ensures r.Some? ==> |s| == 36 && s[8] == '-' && s[13] == '-' && s[18] == '-' && s[23] == '-'
  {
    if |s| == 36 && s[8] == '-' && s[13] == '-' && s[18] == '-' && s[23] == '-' then
      match ParseHex(Undash(s))
      case Some(ds) => Some(ds)
      case None => None
    else None
  }

  /** Printing then parsing a UUID gives it back, so distinct UUIDs print differently. */
  lemma ToStringRoundTrip(u: Uuid)
    ensures FromString(ToString(u)) == Some(u)
  {
    var s := ToString(u);
    var a, b, c, d, e := u[..8], u[8..12], u[12..16], u[16..20], u[20..];
    assert s == Hex(a) + "-" + Hex(b) + "-" + Hex(c) + "-" + Hex(d) + "-" + Hex(e);
    assert s[..8] == Hex(a);
    assert s[9..13] == Hex(b);
    assert s[14..18] == Hex(c);
    assert s[19..23] == Hex(d);
    assert s[24..] == Hex(e);
    HexAppend(a, b);
    HexAppend(a + b, c);
    HexAppend(a + b + c, d);
    HexAppend(a + b + c + d, e);
    assert a + b + c + d + e == u;
    assert Undash(s) == Hex(u);
    ParseHexOfHex(u);
  }

  function Xor(a: Nibble, b: Nibble): Nibble
  {
    ((a as bv4) ^ (b as bv4)) as int as Nibble
  }

  /** The value of a sequence of hex digits, most significant first. */
  function HexValue(ds: seq<Nibble>): nat
  {
    if ds == [] then 0 else 16 * HexValue(ds[..|ds| - 1]) + ds[|ds| - 1] as nat
  }

  /** `UUID.hashCode`: with hilo = mostSigBits ^ leastSigBits, the `int`
      (hilo >> 32) ^ (int) hilo; digit i of that word is the xor of digits
      i, i + 8, i + 16 and i + 24 of the UUID. */
  function HashCode(u: Uuid): (h: int)
    ensures JavaLang.IsInt32(h)
  {
    var folded := seq(8, i requires 0 <= i < 8 => Xor(Xor(u[i], u[i + 16]), Xor(u[i + 8], u[i + 24])));
    JavaLang.ToInt32(HexValue(folded))
  }
}
