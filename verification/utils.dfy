/** Channel selection by bitmask (weathermonitor/utils.py). */
module Utils {

  function Pow2(i: nat): (p: nat)
    ensures p >= 1
  {
    if i == 0 then 1 else 2 * Pow2(i - 1)
  }

  /** Bit `i` of `bit` in two's complement, Python's `bit & 2**i != 0`: shift right
      `i` times (halving rounds down, also for a negative `bit`), then test the lowest bit. */
  predicate BitSet(bit: int, i: nat)
    decreases i
  {
    if i == 0 then bit % 2 == 1 else BitSet(bit / 2, i - 1)
  }

  predicate StrictlyAscending(xs: seq<int>) {
    forall j, k :: 0 <= j < k < |xs| ==> xs[j] < xs[k]
  }

  /** `extract_bits(bit, num_ch)`: the channels `i in range(num_ch)` whose bit is set,
      in the order `range` produces them. */
  function ExtractBits(bit: int, numCh: int): (chs: seq<nat>)
    ensures StrictlyAscending(chs)
    ensures forall i: nat :: i in chs <==> i < numCh && BitSet(bit, i)
    decreases numCh
  {
    if numCh <= 0 then []
    else
      var below := ExtractBits(bit, numCh - 1);
      assert forall j :: 0 <= j < |below| ==> below[j] < numCh - 1 by {
        forall j | 0 <= j < |below| ensures below[j] < numCh - 1 {
          assert below[j] in below;
        }
      }
      below + (if BitSet(bit, numCh - 1) then [numCh - 1] else [])
  }

  /** The bits of 138 = 0b10001010. */
  lemma BitsOf138()
    ensures !BitSet(138, 0) && BitSet(138, 1) && !BitSet(138, 2) && BitSet(138, 3)
    ensures !BitSet(138, 4) && !BitSet(138, 5) && !BitSet(138, 6) && BitSet(138, 7)
  {
    assert BitSet(138, 7) == BitSet(1, 0);
  }

  /** The example in `extract_bits`'s docstring: 138 = 0b10001010 selects channels 1, 3 and 7. */
  lemma ExtractBitsExample()
    ensures ExtractBits(138, 8) == [1, 3, 7]
  {
    var chs: seq<nat> := [1, 3, 7];
    BitsOf138();
    forall i: nat
      ensures i in chs <==> i < 8 && BitSet(138, i)
    {
      if i < 8 {
        assert i == 0 || i == 1 || i == 2 || i == 3 || i == 4 || i == 5 || i == 6 || i == 7;
      }
    }
    ExtractBitsUnique(138, 8, chs);
  }

  /** At most one channel per position of `range(num_ch)`. */
  lemma {:induction false} ExtractBitsLength(bit: int, numCh: int)
    ensures |ExtractBits(bit, numCh)| <= if numCh < 0 then 0 else numCh
    decreases numCh
  {
    if numCh > 0 {
      ExtractBitsLength(bit, numCh - 1);
    }
  }

  /** No bit set, no channel. */
  lemma {:induction false} ExtractBitsNone(numCh: int)
    ensures ExtractBits(0, numCh) == []
    decreases numCh
  {
    if numCh > 0 {
      ExtractBitsNone(numCh - 1);
      ZeroHasNoBits(numCh - 1);
    }
  }

  lemma {:induction false} ZeroHasNoBits(i: nat)
    ensures !BitSet(0, i)
  {
    if i > 0 {
      ZeroHasNoBits(i - 1);
    }
  }

  /** Adding a multiple of `2^n` leaves every bit below `n` unchanged. */
  lemma {:induction false} BitSetIgnoresHighBits(bit: int, k: int, n: nat, i: nat)
    requires i < n
    ensures BitSet(bit + k * Pow2(n), i) == BitSet(bit, i)
    decreases i
  {
    var y := k * Pow2(n - 1);
    assert k * Pow2(n) == 2 * y;
    if i > 0 {
      assert (bit + 2 * y) / 2 == bit / 2 + y;
      BitSetIgnoresHighBits(bit / 2, k, n - 1, i - 1);
    }
  }

  /** Bits at positions `num_ch` and above play no part in the selection. */
  lemma ExtractBitsIgnoresHighBits(bit: int, k: int, numCh: nat)
    ensures ExtractBits(bit + k * Pow2(numCh), numCh) == ExtractBits(bit, numCh)
  {
    forall i: nat | i < numCh
      ensures BitSet(bit + k * Pow2(numCh), i) == BitSet(bit, i)
    {
      BitSetIgnoresHighBits(bit, k, numCh, i);
    }
    AscendingWithSameElements(ExtractBits(bit + k * Pow2(numCh), numCh), ExtractBits(bit, numCh));
  }

  /** Two strictly ascending sequences with the same elements are equal. */
  lemma {:induction false} AscendingWithSameElements(xs: seq<nat>, ys: seq<nat>)
    requires StrictlyAscending(xs) && StrictlyAscending(ys)
    requires forall i :: i in xs <==> i in ys
    ensures xs == ys
    decreases |xs|
  {
    if xs != [] {
      assert xs[0] in ys;
    }
    if ys != [] {
      assert ys[0] in xs;
    }
    if xs != [] && ys != [] {
      assert xs[0] == ys[0] by {
        assert xs[0] in ys && ys[0] in xs;
      }
      forall i
        ensures i in xs[1..] <==> i in ys[1..]
      {
        if i in xs[1..] {
          assert i in ys && i != ys[0];
        }
        if i in ys[1..] {
          assert i in xs && i != xs[0];
        }
      }
      AscendingWithSameElements(xs[1..], ys[1..]);
    }
  }

  /** `extract_bits` is the only ascending list holding exactly the selected channels. */
  lemma ExtractBitsUnique(bit: int, numCh: int, xs: seq<nat>)
    requires StrictlyAscending(xs)
    requires forall i: nat :: i in xs <==> i < numCh && BitSet(bit, i)
    ensures xs == ExtractBits(bit, numCh)
  {
    AscendingWithSameElements(xs, ExtractBits(bit, numCh));
  }

  lemma {:induction false} LowBitsOfMaskSet(n: nat, i: nat)
    requires i < n
    ensures BitSet(Pow2(n) - 1, i)
    decreases i
  {
    assert (Pow2(n) - 1) / 2 == Pow2(n - 1) - 1;
    if i > 0 {
      LowBitsOfMaskSet(n - 1, i - 1);
    }
  }

  /** With the low `num_ch` bits all set, every channel is selected. */
  lemma ExtractBitsAll(numCh: nat)
    ensures ExtractBits(Pow2(numCh) - 1, numCh) == seq(numCh, i => i)
  {
    var all := seq(numCh, i => i);
    forall i: nat
      ensures i in all <==> i < numCh && BitSet(Pow2(numCh) - 1, i)
    {
      if i < numCh {
        assert all[i] == i;
        LowBitsOfMaskSet(numCh, i);
      }
    }
    AscendingWithSameElements(all, ExtractBits(Pow2(numCh) - 1, numCh));
  }
}
