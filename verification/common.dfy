/** Byte-level and integer helpers shared by the AWG compiler, the .awg file
    builder and the configuration converter. */
module Common {

  /** One octet. */
  type Byte = x: int | 0 <= x < 256

  datatype Option<T> = None | Some(value: T)

  /** Little-endian encoding of the low `width` bytes of a non-negative integer. */
  function LeBytes(x: nat, width: nat): (r: seq<Byte>)
    ensures |r| == width
    ensures width > 0 ==> r[0] == x % 256
  {
    if width == 0 then [] else [x % 256] + LeBytes(x / 256, width - 1)
  }

  /** Value of a little-endian byte string. */
  function LeValue(b: seq<Byte>): nat
  {
    if b == [] then 0 else b[0] + 256 * LeValue(b[1..])
  }

  function Pow256(width: nat): (r: nat)
    ensures r >= 1
  {
    if width == 0 then 1 else 256 * Pow256(width - 1)
  }

  /** Decoding an encoding gives back the value, whenever it fits the width. */
  lemma {:induction false} LeRoundTrip(x: nat, width: nat)
    requires x < Pow256(width)
    ensures LeValue(LeBytes(x, width)) == x
  {
    if width > 0 {
      LeRoundTrip(x / 256, width - 1);
      assert LeBytes(x, width)[1..] == LeBytes(x / 256, width - 1);
    }
  }

  /** `struct.pack('<H', x)`, `'<I'`: unsigned little-endian. */
  function U16Le(x: nat): seq<Byte> requires x < 0x1_0000 { LeBytes(x, 2) }
  function U32Le(x: nat): seq<Byte> requires x < 0x1_0000_0000 { LeBytes(x, 4) }

  /** Two's complement of a signed integer on `width` bytes (`'<h'`, `'<l'`). */
  function SignedLe(x: int, width: nat): (r: seq<Byte>)
    requires -(Pow256(width) / 2) <= x < Pow256(width) / 2
    ensures |r| == width
  {
    LeBytes(if x >= 0 then x else x + Pow256(width), width)
  }

  /** numpy `uint16` arithmetic: wrap-around modulo 2^16. */
  function WrapU16(x: int): (r: int)
    ensures 0 <= r < 0x1_0000
  {
    x % 0x1_0000
  }

  /** numpy `int8` arithmetic: wrap-around into [-128, 127]. */
  function WrapI8(x: int): (r: int)
    ensures -128 <= r < 128
  {
    (x + 128) % 256 - 128
  }

  /** Python `int(a / b)` for a positive divisor: the quotient rounded
      toward zero, so below the exact quotient for a >= 0 and above it for
      a < 0, and never off by a whole divisor. */
  function TruncDiv(a: int, b: int): (r: int)
    requires b > 0
    ensures a >= 0 ==> r >= 0 && b * r <= a < b * r + b
    ensures a < 0 ==> r <= 0 && b * r - b < a <= b * r
  {
    if a >= 0 then a / b else -((-a) / b)
  }

  function DigitChar(d: int): (c: char)
    requires 0 <= d < 10
    ensures '0' <= c <= '9'
  {
    ['0', '1', '2', '3', '4', '5', '6', '7', '8', '9'][d]
  }

  lemma DigitCharInjective(a: int, b: int)
    requires 0 <= a < 10 && 0 <= b < 10 && DigitChar(a) == DigitChar(b)
    ensures a == b
  {
  }

  /** Python `str(n)` for a natural number. */
  function NatToString(n: nat): (s: string)
    ensures |s| >= 1
    ensures forall i :: 0 <= i < |s| ==> '0' <= s[i] <= '9'
    ensures n >= 10 ==> |s| >= 2
    ensures n < 10 ==> s == [DigitChar(n)]
  {
    if n < 10 then [DigitChar(n)] else NatToString(n / 10) + [DigitChar(n % 10)]
  }

  /** Distinct numbers print differently, so generated names never collide. */
  lemma {:induction false} NatToStringInjective(a: nat, b: nat)
    requires NatToString(a) == NatToString(b)
    ensures a == b
  {
    var sa, sb := NatToString(a), NatToString(b);
    if a < 10 || b < 10 {
      if a < 10 && b < 10 {
        DigitCharInjective(a, b);
      }
    } else {
      assert sa[|sa| - 1] == DigitChar(a % 10) && sb[|sb| - 1] == DigitChar(b % 10);
      DigitCharInjective(a % 10, b % 10);
      assert sa[..|sa| - 1] == NatToString(a / 10);
      assert sb[..|sb| - 1] == NatToString(b / 10);
      NatToStringInjective(a / 10, b / 10);
    }
  }

  predicate IsPrefix<T(==)>(p: seq<T>, s: seq<T>)
  {
    |p| <= |s| && s[..|p|] == p
  }

  /** Python `s[:-k]` for k > 0: everything except the last k elements,
      nothing of a shorter sequence. */
  function DropLast<T>(s: seq<T>, k: nat): (r: seq<T>)
    ensures |r| == if |s| >= k then |s| - k else 0
    ensures IsPrefix(r, s)
    ensures |s| >= k ==> r + s[|s| - k..] == s
  {
    if |s| >= k then s[..|s| - k] else []
  }

  function Max(a: int, b: int): int { if a >= b then a else b }
}
