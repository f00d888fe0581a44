/**
 * Bit operations on Go's 64-bit `int`: `setBit`, `clearBit` and `hasBit`.
 * An `int` is modelled as its 64 bits in two's complement, bit 0 the least
 * significant and bit 63 the sign; `|`, `&` and `^` act bit by bit, and
 * `1 << pos` has no bit set once `pos` reaches 64, as in Go.
 */
module Bits {

  type Int64 = x: int | -0x8000_0000_0000_0000 <= x < 0x8000_0000_0000_0000

  /** A 64-bit `int`, as its bits. */
  type Word = w: seq<bool> | |w| == 64 witness seq(64, i => false)

  /** `0`. */
  function Zero(): Word
  {
    seq(64, i => false)
  }

  /** `uint(v)`: a negative `int` wraps around to 2^64 + v. */
  function Uint(v: Int64): (u: nat)
    ensures 0 <= v ==> u == v
    ensures v < 0 ==> u >= 0x8000_0000_0000_0000
  {
    if v >= 0 then v else v + 0x1_0000_0000_0000_0000
  }

  /** `1 << pos`. */
  function Mask(pos: nat): Word
  {
    seq(64, i => i == pos)
  }

  /** `a | b`. */
  function Or(a: Word, b: Word): Word
  {
    seq(64, i requires 0 <= i < 64 => a[i] || b[i])
  }

  /** `a & b`. */
  function And(a: Word, b: Word): Word
  {
    seq(64, i requires 0 <= i < 64 => a[i] && b[i])
  }

  /** `^a`. */
  function Not(a: Word): Word
  {
    seq(64, i requires 0 <= i < 64 => !a[i])
  }

  /** `setBit(n, pos)`: `n | (1 << pos)`; a position of 64 or more leaves `n` as it is. */
  function SetBit(n: Word, pos: nat): (r: Word)
    ensures forall i :: 0 <= i < 64 ==> r[i] == (n[i] || i == pos)
  {
    Or(n, Mask(pos))
  }

  /** `clearBit(n, pos)`: `n & ^(1 << pos)`; a position of 64 or more leaves `n` as it is. */
  function ClearBit(n: Word, pos: nat): (r: Word)
    ensures forall i :: 0 <= i < 64 ==> r[i] == (n[i] && i != pos)
  {
    And(n, Not(Mask(pos)))
  }

  /** `v > 0` on a signed 64-bit `int`: some bit is set and the sign bit is clear. */
  predicate Positive(v: Word)
  {
    v != Zero() && !v[63]
  }

  /** `hasBit(n, pos)` as written: `n & (1 << pos) > 0`, which never holds for the sign bit. */
  function HasBitAsWritten(n: Word, pos: nat): (b: bool)
    ensures b <==> pos < 63 && n[pos]
  {
    var v := And(n, Mask(pos));
    assert pos < 64 && n[pos] ==> v[pos] != Zero()[pos];
    assert !(pos < 64 && n[pos]) ==> v == Zero();
    Positive(v)
  }

  /** `hasBit` as intended: `n & (1 << pos) != 0`, which tests exactly bit `pos`. */
  function HasBit(n: Word, pos: nat): (b: bool)
    ensures b <==> pos < 64 && n[pos]
  {
    var v := And(n, Mask(pos));
    assert pos < 64 && n[pos] ==> v[pos] != Zero()[pos];
    assert !(pos < 64 && n[pos]) ==> v == Zero();
    v != Zero()
  }

  /** Bit 63 is set in `1 << 63` (math.MinInt64), yet `hasBit` as written reports it clear. */
  lemma HasBitMissesSignBit()
    ensures HasBit(SetBit(Zero(), 63), 63) && !HasBitAsWritten(SetBit(Zero(), 63), 63)
  {
  }

  /** Below the sign bit the two readings agree, so `getBits`, which asks only about 0..15, is unaffected. */
  lemma HasBitAgreesBelowSignBit(n: Word, pos: nat)
    requires pos < 63
    ensures HasBit(n, pos) <==> HasBitAsWritten(n, pos)
  {
  }

  /** After `setBit(n, p)` with p < 64, bit p reads as set. */
  lemma SetBitSame(n: Word, p: nat)
    requires p < 64
    ensures HasBit(SetBit(n, p), p)
  {
  }

  /** After `clearBit(n, p)`, bit p reads as clear. */
  lemma ClearBitSame(n: Word, p: nat)
    ensures !HasBit(ClearBit(n, p), p)
  {
  }

  /** `setBit(n, p)` leaves every other bit as it was. */
  lemma SetBitOther(n: Word, p: nat, q: nat)
    requires q != p
    ensures HasBit(SetBit(n, p), q) <==> HasBit(n, q)
  {
  }

  /** `clearBit(n, p)` leaves every other bit as it was. */
  lemma ClearBitOther(n: Word, p: nat, q: nat)
    requires q != p
    ensures HasBit(ClearBit(n, p), q) <==> HasBit(n, q)
  {
  }

  /** Setting a bit that was clear and clearing it again gives back the original value. */
  lemma ClearUndoesSet(n: Word, p: nat)
    requires !HasBit(n, p)
    ensures ClearBit(SetBit(n, p), p) == n
  {
  }

  /** Setting a bit that is already set changes nothing. */
  lemma SetBitIdempotent(n: Word, p: nat)
    requires HasBit(n, p)
    ensures SetBit(n, p) == n
  {
  }
}
