/** Bit sequences and the natural numbers they denote, least significant bit first. */
module Binary {

  function Pow2(n: nat): (p: nat)
    ensures p >= 1
  {
    if n == 0 then 1 else 2 * Pow2(n - 1)
  }

  function BitValue(bit: bool): nat {
    if bit then 1 else 0
  }

  function NatOfBits(bits: seq<bool>): nat {
    if bits == [] then 0 else BitValue(bits[0]) + 2 * NatOfBits(bits[1..])
  }

  /** The bits of `n` up to its most significant one: what a shift loop collects. */
  function BitsOfNat(n: nat): seq<bool> {
    if n == 0 then [] else [n % 2 == 1] + BitsOfNat(n / 2)
  }

  function Zeros(n: nat): seq<bool> {
    seq(n, _ => false)
  }

  function Reverse(bits: seq<bool>): (r: seq<bool>)
    ensures |r| == |bits|
  {
    seq(|bits|, i requires 0 <= i < |bits| => bits[|bits| - 1 - i])
  }

  lemma {:induction false} NatOfBitsOfNat(n: nat)
    ensures NatOfBits(BitsOfNat(n)) == n
  {
    if n > 0 {
      NatOfBitsOfNat(n / 2);
      assert BitsOfNat(n)[1..] == BitsOfNat(n / 2);
    }
  }

  /** A shift loop stays within `width` bits exactly when the number does. */
  lemma {:induction false} BitLengthBound(n: nat, width: nat)
    ensures |BitsOfNat(n)| <= width <==> n < Pow2(width)
  {
    if n > 0 && width > 0 {
      BitLengthBound(n / 2, width - 1);
    }
  }

  lemma {:induction false} NatOfBitsConcat(a: seq<bool>, b: seq<bool>)
    ensures NatOfBits(a + b) == NatOfBits(a) + Pow2(|a|) * NatOfBits(b)
  {
    if a == [] {
      assert a + b == b;
    } else {
      NatOfBitsConcat(a[1..], b);
      assert (a + b)[1..] == a[1..] + b;
      assert Pow2(|a|) == 2 * Pow2(|a[1..]|);
      assert 2 * (Pow2(|a[1..]|) * NatOfBits(b)) == Pow2(|a|) * NatOfBits(b);
    }
  }

  lemma {:induction false} NatOfZeros(n: nat)
    ensures NatOfBits(Zeros(n)) == 0
  {
    if n > 0 {
      NatOfZeros(n - 1);
      assert Zeros(n)[1..] == Zeros(n - 1);
    }
  }

  lemma {:induction false} NatOfBitsBound(bits: seq<bool>)
    ensures NatOfBits(bits) < Pow2(|bits|)
  {
    if bits != [] {
      NatOfBitsBound(bits[1..]);
    }
  }

  lemma MultipleLeavesRange(p: int, d: int)
    requires p >= 0
    ensures d >= 1 ==> p * d >= p
    ensures d <= -1 ==> p * d <= -p
  {
    if d >= 1 {
      assert p * d == p + p * (d - 1);
    } else if d <= -1 {
      assert p * d == -p + p * (d + 1);
    }
  }

  lemma DivModOfSum(low: nat, high: nat, p: nat)
    requires low < p
    ensures (low + p * high) / p == high
    ensures (low + p * high) % p == low
  {
    var n := low + p * high;
    var q, r := n / p, n % p;
    assert n == p * q + r;
    assert p * (high - q) == r - low by {
      assert p * (high - q) == p * high - p * q;
    }
    MultipleLeavesRange(p, high - q);
  }

  /** Shifting and masking a number reads a slice of its bits. */
  lemma NatOfSlice(bits: seq<bool>, start: nat, length: nat)
    requires start + length <= |bits|
    ensures (NatOfBits(bits) / Pow2(start)) % Pow2(length) == NatOfBits(bits[start..start + length])
  {
    hide NatOfBits, Pow2;
    var low, middle, high := bits[..start], bits[start..start + length], bits[start + length..];
    assert bits == low + (middle + high);
    NatOfBitsConcat(low, middle + high);
    NatOfBitsConcat(middle, high);
    NatOfBitsBound(low);
    NatOfBitsBound(middle);
    DivModOfSum(NatOfBits(low), NatOfBits(middle + high), Pow2(start));
    DivModOfSum(NatOfBits(middle), NatOfBits(high), Pow2(length));
  }

  lemma ReverseConcat(a: seq<bool>, b: seq<bool>)
    ensures Reverse(a + b) == Reverse(b) + Reverse(a)
  {
  }

  lemma ReverseTwice(bits: seq<bool>)
    ensures Reverse(Reverse(bits)) == bits
  {
  }
}
