/** Unsigned 8-bit quantities, C's truncating `uint8_t` arithmetic, and the
    bit-level view of a byte that the eight-line parallel bus carries. */
module Bytes {

  /** A value of C's `uint8_t`. */
  type Byte = b: int | 0 <= b < 256

  /** The value an `int` expression takes when it is passed on as a `uint8_t`
      argument: C keeps the low eight bits, which for a non-negative sum is the
      remainder modulo 256. */
  function Add8(a: Byte, d: nat): (r: Byte)
    ensures a + d < 256 ==> r == a + d
    ensures (r - a) % 256 == d % 256
  {
    (a + d) % 256
  }

  /** Adding two offsets in turn is the same as adding their sum once. */
  lemma {:induction false} AddTwice(a: Byte, d: nat, e: nat)
    ensures Add8(Add8(a, d), e) == Add8(a, d + e)
  {
    var r, q := Add8(a, d), (a + d) / 256;
    assert a + d == 256 * q + r;
    assert a + d + e == (r + e) + 256 * q;
    ModShift(r + e, q);
  }

  /** Whole turns of 256 do not change a remainder. */
  lemma {:induction false} ModShift(x: nat, q: nat)
    ensures (x + 256 * q) % 256 == x % 256
  {
    if q > 0 {
      ModShift(x, q - 1);
      assert x + 256 * q == (x + 256 * (q - 1)) + 256;
    }
  }

  function Pow2(n: nat): (p: nat)
    ensures p >= 1
  {
    if n == 0 then 1 else 2 * Pow2(n - 1)
  }

  /** `(b >> i) & 1`: bit i of b, the right shift written as i halvings. */
  function Bit(b: nat, i: nat): bool
  {
    if i == 0 then b % 2 == 1 else Bit(b / 2, i - 1)
  }

  /** The n low bits of b, least significant first. */
  function Bits(b: nat, n: nat): (s: seq<bool>)
    ensures |s| == n
    ensures forall i :: 0 <= i < n ==> s[i] == Bit(b, i)
  {
    if n == 0 then [] else [b % 2 == 1] + Bits(b / 2, n - 1)
  }

  /** The number whose binary digits, least significant first, are s. */
  function FromBits(s: seq<bool>): (v: nat)
    ensures v < Pow2(|s|)
  {
    if |s| == 0 then 0 else (if s[0] then 1 else 0) + 2 * FromBits(s[1..])
  }

  /** Splitting a number into its low bits and reassembling them gives it back. */
  lemma {:induction false} FromBitsOfBits(b: nat, n: nat)
    requires b < Pow2(n)
    ensures FromBits(Bits(b, n)) == b
  {
    if n > 0 {
      FromBitsOfBits(b / 2, n - 1);
      assert Bits(b, n)[1..] == Bits(b / 2, n - 1);
    }
  }

  /** Reassembling a bit string and splitting the result gives the bits back:
      no two different level patterns stand for the same number. */
  lemma {:induction false} BitsOfFromBits(s: seq<bool>)
    ensures Bits(FromBits(s), |s|) == s
  {
    if |s| > 0 {
      BitsOfFromBits(s[1..]);
      var v := FromBits(s);
      assert v / 2 == FromBits(s[1..]);
      assert (v % 2 == 1) == s[0];
      assert Bits(v, |s|) == [s[0]] + Bits(FromBits(s[1..]), |s| - 1);
      assert [s[0]] + s[1..] == s;
    }
  }
}
