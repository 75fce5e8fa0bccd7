/** Bit-level arithmetic shared by the host decoders and the firmware.

    `Bit(n, i)` is Python's `bool(n & (1 << i))`: because Dafny's `/` by a
    positive divisor rounds towards minus infinity, halving reads a negative
    `n` as its two's-complement bit string, as Python's `&` does. */
module Bits {

  function Pow2(k: nat): (r: nat)
    ensures r >= 1
  {
    if k == 0 then 1 else 2 * Pow2(k - 1)
  }

  /** Bit i of n (least significant bit first). */
  function Bit(n: int, i: nat): bool
    decreases i
  {
    if i == 0 then n % 2 == 1 else Bit(n / 2, i - 1)
  }

  /** n shifted right by k places, `n >> k`. */
  function Shr(n: int, k: nat): int
    decreases k
  {
    if k == 0 then n else Shr(n / 2, k - 1)
  }

  /** The number whose bit i is `bs[i]`, least significant bit first. */
  function FromBits(bs: seq<bool>): (r: nat)
    ensures r < Pow2(|bs|)
  {
    if |bs| == 0 then 0 else (if bs[0] then 1 else 0) + 2 * FromBits(bs[1..])
  }

  /** Arduino `bitSet(n, k)`. */
  function SetBit(n: int, k: nat): int
  {
    if Bit(n, k) then n else n + Pow2(k)
  }

  /** Arduino `bitClear(n, k)`. */
  function ClearBit(n: int, k: nat): int
  {
    if Bit(n, k) then n - Pow2(k) else n
  }

  lemma {:induction false} ZeroBits(i: nat)
    ensures !Bit(0, i)
  {
    if i > 0 {
      ZeroBits(i - 1);
    }
  }

  /** Placing a below b: bits under k come from b, the others from a. */
  lemma {:induction false} BitSplit(a: int, b: int, k: nat, i: nat)
    requires 0 <= b < Pow2(k)
    ensures Bit(a * Pow2(k) + b, i) == if i < k then Bit(b, i) else Bit(a, i - k)
  {
    if k == 0 {
      assert a * Pow2(k) + b == a;
    } else {
      var n := a * Pow2(k) + b;
      assert a * Pow2(k) == 2 * (a * Pow2(k - 1));
      if i == 0 {
        assert n % 2 == b % 2;
      } else {
        assert n / 2 == a * Pow2(k - 1) + b / 2;
        BitSplit(a, b / 2, k - 1, i - 1);
      }
    }
  }

  /** A number below 2^k has no bit set at k or above. */
  lemma BitAbove(n: int, k: nat, i: nat)
    requires 0 <= n < Pow2(k) && k <= i
    ensures !Bit(n, i)
  {
    BitSplit(0, n, k, i);
    ZeroBits(i - k);
  }

  /** Reducing modulo 2^k keeps the bits below k. */
  lemma BitMod(n: int, k: nat, i: nat)
    requires i < k
    ensures Bit(n % Pow2(k), i) == Bit(n, i)
  {
    var q := n / Pow2(k);
    assert n == q * Pow2(k) + n % Pow2(k);
    BitSplit(q, n % Pow2(k), k, i);
  }

  lemma {:induction false} BitShr(n: int, k: nat, j: nat)
    ensures Bit(Shr(n, k), j) == Bit(n, k + j)
    decreases k
  {
    if k > 0 {
      BitShr(n / 2, k - 1, j);
      assert Bit(n, k + j) == Bit(n / 2, k - 1 + j);
    }
  }

  lemma {:induction false} BitOfFromBits(bs: seq<bool>, i: nat)
    ensures Bit(FromBits(bs), i) == (i < |bs| && bs[i])
  {
    if |bs| == 0 {
      ZeroBits(i);
    } else if i > 0 {
      assert FromBits(bs) / 2 == FromBits(bs[1..]);
      BitOfFromBits(bs[1..], i - 1);
    }
  }

  /** Adding 2^k to a number whose bit k is clear sets exactly that bit. */
  lemma {:induction false} BitAddPow(n: int, k: nat, j: nat)
    requires !Bit(n, k)
    ensures Bit(n + Pow2(k), j) == (j == k || Bit(n, j))
    decreases k
  {
    if k == 0 {
      if j > 0 {
        assert (n + 1) / 2 == n / 2;
      }
    } else if j > 0 {
      assert (n + Pow2(k)) / 2 == n / 2 + Pow2(k - 1);
      BitAddPow(n / 2, k - 1, j - 1);
    }
  }

  /** Subtracting 2^k from a number whose bit k is set clears exactly that bit. */
  lemma {:induction false} BitSubPow(n: int, k: nat, j: nat)
    requires Bit(n, k)
    ensures Bit(n - Pow2(k), j) == (j != k && Bit(n, j))
    decreases k
  {
    if k == 0 {
      if j > 0 {
        assert (n - 1) / 2 == n / 2;
      }
    } else if j > 0 {
      assert (n - Pow2(k)) / 2 == n / 2 - Pow2(k - 1);
      BitSubPow(n / 2, k - 1, j - 1);
    }
  }

  /** Setting a clear bit below position m keeps an m-bit number within m bits. */
  lemma {:induction false} AddPowBounded(n: int, k: nat, m: nat)
    requires 0 <= n < Pow2(m) && k < m && !Bit(n, k)
    ensures n + Pow2(k) < Pow2(m)
  {
    assert Pow2(m) == 2 * Pow2(m - 1);
    if k > 0 {
      assert n / 2 < Pow2(m - 1);
      AddPowBounded(n / 2, k - 1, m - 1);
    }
  }

  lemma SetBitBits(n: int, k: nat, j: nat)
    ensures Bit(SetBit(n, k), j) == (j == k || Bit(n, j))
  {
    if !Bit(n, k) {
      BitAddPow(n, k, j);
    }
  }

  lemma ClearBitBits(n: int, k: nat, j: nat)
    ensures Bit(ClearBit(n, k), j) == (j != k && Bit(n, j))
  {
    if Bit(n, k) {
      BitSubPow(n, k, j);
    }
  }

  /** bitSet and bitClear keep an m-bit register within m bits. */
  lemma SetBitBounded(n: int, k: nat, m: nat)
    requires 0 <= n < Pow2(m) && k < m
    ensures 0 <= SetBit(n, k) < Pow2(m)
  {
    if !Bit(n, k) {
      AddPowBounded(n, k, m);
    }
  }

  lemma ClearBitBounded(n: int, k: nat)
    requires 0 <= n
    ensures 0 <= ClearBit(n, k) <= n
  {
    if Bit(n, k) && n < Pow2(k) {
      BitAbove(n, k, k);
    }
  }

  /** bitClear undoes a bitSet of a bit that was clear. */
  lemma ClearAfterSet(n: int, k: nat)
    requires !Bit(n, k)
    ensures ClearBit(SetBit(n, k), k) == n
  {
    BitAddPow(n, k, k);
  }
}
