/**
 * `setBits` and `getBits`: lists of `int` channel indices packed into a mask and back.
 */
module Bitset {
  import opened Bits

  /** The mask `setBits` computes: `setBit` applied to each position in turn. */
  function SetBitsOf(positions: seq<Int64>): Word
  {
    if positions == [] then Zero()
    else SetBit(SetBitsOf(positions[..|positions| - 1]), Uint(positions[|positions| - 1]))
  }

  /** `setBits(positions)`. */
  method SetBits(positions: seq<Int64>) returns (n: Word)
    ensures n == SetBitsOf(positions)
    ensures forall p :: 0 <= p < 64 ==> (HasBit(n, p) <==> p in positions)
  {
    n := Zero();
    var i := 0;
    while i < |positions|
      invariant 0 <= i <= |positions|
      invariant n == SetBitsOf(positions[..i])
    {
      assert positions[..i + 1][..i] == positions[..i];
      n := SetBit(n, Uint(positions[i]));
      i := i + 1;
    }
    assert positions[..i] == positions;
    forall p | 0 <= p < 64
      ensures HasBit(n, p) <==> p in positions
    {
      SetBitsMembership(positions, p);
    }
  }

  /** Bit p of the mask is set exactly when p is one of the positions. */
  lemma {:induction false} SetBitsMembership(positions: seq<Int64>, p: int)
    requires 0 <= p < 64
    ensures HasBit(SetBitsOf(positions), p) <==> p in positions
    decreases |positions|
  {
    if positions != [] {
      var init, v := positions[..|positions| - 1], positions[|positions| - 1];
      assert positions == init + [v];
      SetBitsMembership(init, p);
      if v == p {
        SetBitSame(SetBitsOf(init), p);
      } else {
        SetBitOther(SetBitsOf(init), Uint(v), p);
      }
    }
  }

  /** The mask depends only on which positions are listed: not on their order, not on repeats. */
  lemma SetBitsOrderFree(s: seq<Int64>, t: seq<Int64>)
    requires forall x :: x in s <==> x in t
    ensures forall p :: 0 <= p < 64 ==> (HasBit(SetBitsOf(s), p) <==> HasBit(SetBitsOf(t), p))
  {
    forall p | 0 <= p < 64
      ensures HasBit(SetBitsOf(s), p) <==> HasBit(SetBitsOf(t), p)
    {
      SetBitsMembership(s, p);
      SetBitsMembership(t, p);
    }
  }

  predicate StrictlyIncreasing(s: seq<int>)
  {
    forall i, j :: 0 <= i < j < |s| ==> s[i] < s[j]
  }

  /** A list without members is the empty list. */
  lemma NoMembersEmpty(s: seq<int>)
    requires forall x :: x !in s
    ensures s == []
  {
    var head := if s == [] then 0 else s[0];
    assert s == [] || head in s;
  }

  /** The head of a strictly increasing list is its least element. */
  lemma HeadIsLeast(s: seq<int>, x: int)
    requires StrictlyIncreasing(s) && x in s
    ensures s[0] <= x
  {
  }

  /** Two strictly increasing lists with the same elements are the same list. */
  lemma {:induction false} IncreasingUnique(a: seq<int>, b: seq<int>)
    requires StrictlyIncreasing(a) && StrictlyIncreasing(b)
    requires forall x :: x in a <==> x in b
    ensures a == b
    decreases |a|
  {
    if a == [] || b == [] {
      NoMembersEmpty(a);
      NoMembersEmpty(b);
    } else {
      HeadIsLeast(a, b[0]);
      HeadIsLeast(b, a[0]);
      assert a == [a[0]] + a[1..] && b == [b[0]] + b[1..];
      forall x
        ensures x in a[1..] <==> x in b[1..]
      {
        if x in a[1..] {
          HeadIsLeast(a[1..], x);
          assert a[0] < a[1] <= x;
          assert x in b && x != b[0];
        }
        if x in b[1..] {
          HeadIsLeast(b[1..], x);
          assert b[0] < b[1] <= x;
          assert x in a && x != a[0];
        }
      }
      IncreasingUnique(a[1..], b[1..]);
    }
  }

  /** The ascending list of the positions below `k` whose bit is set in `n`. */
  function PositionsBelow(n: Word, k: int): seq<int>
    requires 0 <= k <= 64
  {
    if k == 0 then []
    else PositionsBelow(n, k - 1) + (if HasBit(n, k - 1) then [k - 1] else [])
  }

  /** `PositionsBelow(n, k)` is strictly increasing and holds exactly the set positions below `k`. */
  lemma {:induction false} PositionsBelowSpec(n: Word, k: int)
    requires 0 <= k <= 64
    ensures StrictlyIncreasing(PositionsBelow(n, k))
    ensures forall p :: p in PositionsBelow(n, k) <==> 0 <= p < k && HasBit(n, p)
    decreases k
  {
    if k > 0 {
      PositionsBelowSpec(n, k - 1);
      var init := PositionsBelow(n, k - 1);
      assert forall i :: 0 <= i < |init| ==> init[i] in init;
    }
  }

  /**
   * `getBits(n)`: the positions 0..15 whose bit is set, in ascending order. The loop asks
   * `hasBit` as written; below the sign bit that is the intended test.
   */
  method GetBits(n: Word) returns (bits: seq<int>)
    ensures bits == PositionsBelow(n, 16)
    ensures StrictlyIncreasing(bits)
    ensures forall p :: p in bits <==> 0 <= p < 16 && HasBit(n, p)
  {
    bits := [];
    var i := 0;
    while i < 16
      invariant 0 <= i <= 16
      invariant bits == PositionsBelow(n, i)
    {
      HasBitAgreesBelowSignBit(n, i);
      if HasBitAsWritten(n, i) {
        bits := bits + [i];
      }
      i := i + 1;
    }
    PositionsBelowSpec(n, 16);
  }

  /**
   * The round trip: decoding the mask of a list of indices in [0, 15] gives the list's
   * distinct elements in ascending order (the only strictly increasing list holding them).
   */
  lemma BitsRoundTrip(s: seq<Int64>)
    requires forall x :: x in s ==> 0 <= x <= 15
    ensures StrictlyIncreasing(PositionsBelow(SetBitsOf(s), 16))
    ensures forall p :: p in PositionsBelow(SetBitsOf(s), 16) <==> p in s
  {
    PositionsBelowSpec(SetBitsOf(s), 16);
    forall p | 0 <= p < 16
      ensures HasBit(SetBitsOf(s), p) <==> p in s
    {
      SetBitsMembership(s, p);
    }
  }

  /** A strictly increasing list of indices in [0, 15] survives the round trip unchanged. */
  lemma SortedRoundTrip(s: seq<Int64>)
    requires StrictlyIncreasing(s)
    requires forall x :: x in s ==> 0 <= x <= 15
    ensures PositionsBelow(SetBitsOf(s), 16) == s
  {
    BitsRoundTrip(s);
    IncreasingUnique(PositionsBelow(SetBitsOf(s), 16), s);
  }

  /** Bits 16 and above never show up in the decoded list, whatever the mask holds. */
  lemma HighBitsInvisible(n: Word, p: nat)
    requires 16 <= p
    ensures PositionsBelow(n, 16) == PositionsBelow(ClearBit(n, p), 16)
  {
    var m := ClearBit(n, p);
    PositionsBelowSpec(n, 16);
    PositionsBelowSpec(m, 16);
    forall x | 0 <= x < 16
      ensures HasBit(n, x) <==> HasBit(m, x)
    {
      ClearBitOther(n, p, x);
    }
    IncreasingUnique(PositionsBelow(n, 16), PositionsBelow(m, 16));
  }
}
