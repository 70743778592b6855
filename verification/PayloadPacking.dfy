/**
 Initial payload of a PDU in the restbus simulation: the initial values of its signals are
 expanded to bits, written over the unused-bit pattern, folded into bytes, and each byte is
 bit-reversed in a little-endian PDU (AUTOSAR TPS System Template R22-11, section 6.2.2).
 */
module PayloadPacking {
  import opened Binary
  import opened Wrappers

  datatype InitValues = Single(value: int) | Array(values: seq<int>) | NotExist

  datatype ISignal = ISignal(name: string, bigEndian: bool, startPos: int, length: int, initValues: InitValues)

  datatype ISignalGroup = ISignalGroup(name: string, isignals: seq<ISignal>)

  type u8 = x: int | 0 <= x < 256

  /** The ways in which the source never hands back a payload. */
  datatype Abort =
    | BothSignalKinds
    | SeveralGroups
    | NegativeSize
    | ShiftNeverEnds
    | ArrayLengthNotInBytes
    | Miscalculation
    | IndexOutOfBounds

  // ---------------------------------------------------------------- specification

  function BitsOfValue(value: int, width: nat): (r: Result<seq<bool>, Abort>) {
    if value < 0 then Failure(ShiftNeverEnds)
    else
      var bits := BitsOfNat(value);
      Success(if |bits| < width then bits + Zeros(width - |bits|) else bits)
  }

  function BitsOfArray(values: seq<int>): (r: Result<seq<bool>, Abort>) {
    if values == [] then Success([])
    else
      var front :- BitsOfArray(values[..|values| - 1]);
      var last :- BitsOfValue(values[|values| - 1], 8);
      Success(front + Reverse(last))
  }

  /** The bits a signal occupies, in the order in which they are written; none if it has no value. */
  function SignalBits(signal: ISignal): (r: Result<Option<seq<bool>>, Abort>) {
    if signal.length < 0 || signal.startPos < 0 then Failure(NegativeSize)
    else
      match signal.initValues
      case NotExist => Success(None)
      case Single(value) =>
        var bits :- BitsOfValue(value, signal.length);
        if |bits| != signal.length then Failure(Miscalculation)
        else Success(Some(if signal.bigEndian then Reverse(bits) else bits))
      case Array(values) =>
        if signal.length % 8 != 0 then Failure(ArrayLengthNotInBytes)
        else
          var bits :- BitsOfArray(values);
          if |bits| != signal.length then Failure(Miscalculation) else Success(Some(bits))
  }

  function Overwrite(bits: seq<bool>, start: nat, part: seq<bool>): (r: seq<bool>)
    requires start + |part| <= |bits|
    ensures |r| == |bits|
  {
    bits[..start] + part + bits[start + |part|..]
  }

  function WriteSignal(bits: seq<bool>, signal: ISignal): (r: Result<seq<bool>, Abort>)
    ensures r.Success? ==> |r.value| == |bits|
  {
    var part :- SignalBits(signal);
    if part.None? || part.value == [] then Success(bits)
    else if signal.startPos + signal.length > |bits| then Failure(IndexOutOfBounds)
    else Success(Overwrite(bits, signal.startPos, part.value))
  }

  function WriteSignals(bits: seq<bool>, signals: seq<ISignal>): (r: Result<seq<bool>, Abort>)
    ensures r.Success? ==> |r.value| == |bits|
  {
    if signals == [] then Success(bits)
    else
      var written :- WriteSignals(bits, signals[..|signals| - 1]);
      WriteSignal(written, signals[|signals| - 1])
  }

  /** The byte whose most significant bit comes first, as the fold builds it. */
  function FoldedByte(bits: seq<bool>): (b: u8)
    requires |bits| == 8
  {
    NatOfBitsBound(Reverse(bits));
    assert Pow2(8) == 256;
    FoldedValue(bits)
  }

  function FoldedBytes(bits: seq<bool>): (bytes: seq<u8>)
    ensures |bytes| == |bits| / 8
  {
    if |bits| < 8 then []
    else FoldedBytes(bits[..|bits| - 8]) + [FoldedByte(bits[|bits| - 8..])]
  }

  function ByteBits(b: u8): (bits: seq<bool>)
    ensures |bits| == 8
  {
    BitLengthBound(b, 8);
    assert Pow2(8) == 256;
    BitsOfNat(b) + Zeros(8 - |BitsOfNat(b)|)
  }

  function ReverseBits(b: u8): (r: u8) {
    FoldedByte(ByteBits(b))
  }

  function ReversedEach(folded: seq<u8>): (bytes: seq<u8>)
    ensures |bytes| == |folded|
  {
    seq(|folded|, k requires 0 <= k < |folded| => ReverseBits(folded[k]))
  }

  function Bytes(bits: seq<bool>, bigEndian: bool): (bytes: seq<u8>)
    ensures |bytes| == |bits| / 8
  {
    if bigEndian then FoldedBytes(bits) else ReversedEach(FoldedBytes(bits))
  }

  function UnusedBits(unusedBitPattern: bool, dlc: nat): (bits: seq<bool>)
    ensures |bits| == 8 * dlc
  {
    seq(8 * dlc, _ => unusedBitPattern)
  }

  function Payload(unusedBitPattern: bool, ungrouped: seq<ISignal>, grouped: seq<ISignalGroup>, length: int,
                   bigEndian: bool): (r: Result<seq<u8>, Abort>)
  {
    if |grouped| > 0 && |ungrouped| > 0 then Failure(BothSignalKinds)
    else if |grouped| > 1 then Failure(SeveralGroups)
    else if length < 0 then Failure(NegativeSize)
    else
      var isignals := if |grouped| > 0 then grouped[0].isignals else ungrouped;
      var bits :- WriteSignals(UnusedBits(unusedBitPattern, length), isignals);
      Success(Bytes(bits, bigEndian))
  }

  // ---------------------------------------------------------------- the algorithm

  /** The shift loop and its padding loop. A negative number is reported instead of being shifted forever. */
  method CollectBits(value: int, width: nat) returns (r: Result<seq<bool>, Abort>)
    ensures r == BitsOfValue(value, width)
  {
    if value < 0 {
      return Failure(ShiftNeverEnds);
    }
    var bits: seq<bool> := [];
    var n := value;
    while n != 0
      invariant n >= 0
      invariant BitsOfNat(value) == bits + BitsOfNat(n)
      decreases n
    {
      bits := bits + [n % 2 == 1];
      n := n / 2;
    }
    assert BitsOfNat(value) == bits;
    ghost var collected := bits;
    while |bits| < width
      invariant |collected| <= |bits| && (|bits| <= width || bits == collected)
      invariant bits == collected + Zeros(|bits| - |collected|)
    {
      bits := bits + [false];
    }
    r := Success(bits);
  }

  method CollectSignalBits(signal: ISignal) returns (r: Result<Option<seq<bool>>, Abort>)
    ensures r == SignalBits(signal)
  {
    if signal.length < 0 || signal.startPos < 0 {
      return Failure(NegativeSize);
    }
    match signal.initValues {
      case NotExist =>
        return Success(None);
      case Single(value) =>
        var bits :- CollectBits(value, signal.length);
        if |bits| != signal.length {
          return Failure(Miscalculation);
        }
        r := Success(Some(if signal.bigEndian then Reverse(bits) else bits));
      case Array(values) =>
        if signal.length % 8 != 0 {
          return Failure(ArrayLengthNotInBytes);
        }
        var bits: seq<bool> := [];
        for i := 0 to |values|
          invariant BitsOfArray(values[..i]) == Success(bits)
        {
          assert values[..i + 1][..i] == values[..i];
          var valueBits := CollectBits(values[i], 8);
          if valueBits.Failure? {
            ArrayFailure(values, i + 1);
            return Failure(valueBits.error);
          }
          bits := bits + Reverse(valueBits.value);
        }
        assert values[..|values|] == values;
        if |bits| != signal.length {
          return Failure(Miscalculation);
        }
        r := Success(Some(bits));
    }
  }

  lemma {:induction false} ArrayFailure(values: seq<int>, i: nat)
    requires i <= |values| && BitsOfArray(values[..i]).Failure?
    ensures BitsOfArray(values) == BitsOfArray(values[..i])
    decreases |values|
  {
    if i < |values| {
      var front := values[..|values| - 1];
      assert front[..i] == values[..i];
      ArrayFailure(front, i);
    } else {
      assert values[..i] == values;
    }
  }

  lemma {:induction false} WriteFailure(bits: seq<bool>, signals: seq<ISignal>, i: nat)
    requires i <= |signals| && WriteSignals(bits, signals[..i]).Failure?
    ensures WriteSignals(bits, signals) == WriteSignals(bits, signals[..i])
    decreases |signals|
  {
    if i < |signals| {
      var front := signals[..|signals| - 1];
      assert front[..i] == signals[..i];
      WriteFailure(bits, front, i);
    } else {
      assert signals[..i] == signals;
    }
  }

  /** Shifts a byte left, dropping what leaves it, and sets the freed lowest bit if asked to. */
  function ShiftIn(currentByte: u8, bit: bool): u8 {
    (currentByte * 2) % 256 + BitValue(bit)
  }

  /** The number whose most significant bit comes first. */
  function FoldedValue(bits: seq<bool>): nat {
    NatOfBits(Reverse(bits))
  }

  lemma ShiftInExtends(partial: seq<bool>, bit: bool)
    requires |partial| < 8
    ensures FoldedValue(partial) < 256
    ensures ShiftIn(FoldedValue(partial), bit) == FoldedValue(partial + [bit])
  {
    ReverseConcat(partial, [bit]);
    assert Reverse([bit]) == [bit];
    NatOfBitsConcat([bit], Reverse(partial));
    NatOfBitsBound(Reverse(partial));
    assert NatOfBits([bit]) == BitValue(bit) + 2 * NatOfBits([]);
    assert Pow2(1) == 2 && Pow2(7) == 128;
    Pow2Monotonic(|partial|, 7);
  }

  /** The state of the folding loop after consuming `bits`. */
  ghost predicate Folded(bits: seq<bool>, bytes: seq<u8>, currentByte: u8, bitCount: int) {
    && 0 <= bitCount < 8
    && |bits| == 8 * |bytes| + bitCount
    && bytes == FoldedBytes(bits[..8 * |bytes|])
    && currentByte == FoldedValue(bits[8 * |bytes|..])
  }

  lemma FoldedNext(bits: seq<bool>, bytes: seq<u8>, currentByte: u8, bitCount: int, bit: bool)
    requires Folded(bits, bytes, currentByte, bitCount)
    ensures bitCount < 7 ==> Folded(bits + [bit], bytes, ShiftIn(currentByte, bit), bitCount + 1)
    ensures bitCount == 7 ==> Folded(bits + [bit], bytes + [ShiftIn(currentByte, bit)], 0, 0)
  {
    var start := 8 * |bytes|;
    var next := bits + [bit];
    assert next[start..] == bits[start..] + [bit];
    assert next[..start] == bits[..start];
    ShiftInExtends(bits[start..], bit);
    if bitCount == 7 {
      assert next[..start + 8] == next;
      assert next[|next| - 8..] == next[start..];
    }
  }

  /** Shifts a byte left by several places, dropping what leaves it. */
  function ShiftLeft(b: u8, places: nat): u8 {
    b * Pow2(places) % 256
  }

  lemma ShiftOnce(b: u8, places: nat)
    requires b < 128
    ensures ShiftIn(b, false) == 2 * b && ShiftLeft(b, places + 1) == ShiftLeft(2 * b, places)
  {
    assert b * Pow2(places + 1) == 2 * b * Pow2(places);
  }

  lemma PartialByte(partial: seq<bool>)
    requires |partial| < 8
    ensures FoldedValue(partial) < 128
  {
    NatOfBitsBound(Reverse(partial));
    Pow2Monotonic(|partial|, 7);
    assert Pow2(7) == 128;
  }

  lemma RoomLeft(bits: seq<bool>, bytes: seq<u8>, currentByte: u8, bitCount: int)
    requires Folded(bits, bytes, currentByte, bitCount)
    ensures 0 <= bitCount < 8 && |bits| % 8 == bitCount && currentByte < 128
    ensures bitCount == 0 ==> FoldedBytes(bits) == bytes
  {
    hide FoldedBytes, FoldedValue;
    PartialByte(bits[8 * |bytes|..]);
    assert bitCount == 0 ==> bits[..8 * |bytes|] == bits;
  }

  /** Bits that do not fill a byte are folded as if zeros followed them. */
  lemma {:induction false} LeftoverFolded(bits: seq<bool>, bytes: seq<u8>, currentByte: u8, bitCount: int)
    requires Folded(bits, bytes, currentByte, bitCount) && bitCount > 0
    ensures bitCount < 8 && FoldedBytes(bits + Zeros(8 - bitCount)) == bytes + [ShiftLeft(currentByte, 8 - bitCount)]
    decreases 8 - bitCount
  {
    hide *;
    RoomLeft(bits, bytes, currentByte, bitCount);
    ShiftOnce(currentByte, 7 - bitCount);
    FoldedNext(bits, bytes, currentByte, bitCount, false);
    OneZeroMore(bits, 7 - bitCount);
    if bitCount < 7 {
      LeftoverFolded(bits + [false], bytes, 2 * currentByte, bitCount + 1);
    } else {
      RoomLeft(bits + [false], bytes + [2 * currentByte], 0, 0);
      ShiftNowhere(2 * currentByte);
    }
  }

  lemma ShiftNowhere(b: u8)
    ensures ShiftLeft(b, 0) == b
  {
  }

  lemma OneZeroMore(bits: seq<bool>, n: nat)
    ensures bits + Zeros(n + 1) == bits + [false] + Zeros(n)
    ensures n == 0 ==> bits + Zeros(n + 1) == bits + [false]
  {
  }

  /** Zeros that fill up the last byte. */
  function Padding(bits: seq<bool>): seq<bool> {
    Zeros((8 - |bits| % 8) % 8)
  }

  /** The end of the folding loop, with or without bits left over. */
  lemma FoldFinished(bits: seq<bool>, bytes: seq<u8>, currentByte: u8, bitCount: int)
    requires Folded(bits, bytes, currentByte, bitCount)
    ensures 0 <= bitCount < 8
    ensures FoldedBytes(bits + Padding(bits))
            == if bitCount > 0 then bytes + [ShiftLeft(currentByte, 8 - bitCount)] else bytes
  {
    hide Folded, FoldedBytes, ShiftLeft;
    RoomLeft(bits, bytes, currentByte, bitCount);
    if bitCount > 0 {
      LeftoverFolded(bits, bytes, currentByte, bitCount);
    } else {
      assert bits + Padding(bits) == bits;
    }
  }

  method FoldBits(bits: seq<bool>) returns (bytes: seq<u8>)
    ensures bytes == FoldedBytes(bits + Padding(bits))
  {
    bytes := [];
    var currentByte: u8 := 0;
    var bitCount := 0;
    assert Folded(bits[..0], bytes, currentByte, bitCount);
    hide Folded, FoldedBytes, Padding, ShiftIn, ShiftLeft;
    for i := 0 to |bits|
      invariant Folded(bits[..i], bytes, currentByte, bitCount)
    {
      assert bits[..i + 1] == bits[..i] + [bits[i]];
      RoomLeft(bits[..i], bytes, currentByte, bitCount);
      FoldedNext(bits[..i], bytes, currentByte, bitCount, bits[i]);
      currentByte := ShiftIn(currentByte, bits[i]);
      bitCount := bitCount + 1;
      if bitCount == 8 {
        bytes := bytes + [currentByte];
        currentByte := 0;
        bitCount := 0;
      }
    }
    assert bits[..|bits|] == bits;
    FoldFinished(bits, bytes, currentByte, bitCount);
    if bitCount > 0 {
      currentByte := ShiftLeft(currentByte, 8 - bitCount);
      bytes := bytes + [currentByte];
    }
  }

  lemma {:induction false} Pow2Monotonic(a: nat, b: nat)
    requires a <= b
    ensures Pow2(a) <= Pow2(b)
    decreases b - a
  {
    if a < b {
      Pow2Monotonic(a + 1, b);
    }
  }

  /** Copies the bits of one signal; the index check is the one the source's vector access makes. */
  method CopyBits(bits: array<bool>, start: nat, part: seq<bool>) returns (inBounds: bool)
    modifies bits
    ensures inBounds == (part == [] || start + |part| <= bits.Length)
    ensures inBounds && part != [] ==> bits[..] == Overwrite(old(bits[..]), start, part)
    ensures part == [] ==> bits[..] == old(bits[..])
  {
    var index := 0;
    while index < |part|
      invariant 0 <= index <= |part| && (index == 0 || start + index <= bits.Length)
      invariant forall k :: 0 <= k < bits.Length ==>
                              bits[k] == if start <= k < start + index then part[k - start] else old(bits[k])
    {
      if start + index >= bits.Length {
        return false;
      }
      bits[start + index] := part[index];
      index := index + 1;
    }
    inBounds := true;
  }

  method ReverseEach(folded: seq<u8>) returns (bytes: seq<u8>)
    ensures bytes == ReversedEach(folded)
  {
    bytes := folded;
    for i := 0 to |bytes|
      invariant |bytes| == |folded|
      invariant forall k :: 0 <= k < i ==> bytes[k] == ReverseBits(folded[k])
      invariant forall k :: i <= k < |folded| ==> bytes[k] == folded[k]
    {
      bytes := bytes[i := ReverseBits(bytes[i])];
    }
  }

  method WriteEach(bits: array<bool>, isignals: seq<ISignal>) returns (r: Result<(), Abort>)
    modifies bits
    ensures match WriteSignals(old(bits[..]), isignals)
            case Success(written) => r.Success? && bits[..] == written
            case Failure(abort) => r == Failure(abort)
  {
    ghost var blank := bits[..];
    for i := 0 to |isignals|
      invariant WriteSignals(blank, isignals[..i]) == Success(bits[..])
    {
      assert isignals[..i + 1][..i] == isignals[..i];
      assert WriteSignals(blank, isignals[..i + 1]) == WriteSignal(bits[..], isignals[i]);
      var part := CollectSignalBits(isignals[i]);
      if part.Failure? {
        WriteFailure(blank, isignals, i + 1);
        return Failure(part.error);
      }
      if part.value.Some? {
        var inBounds := CopyBits(bits, isignals[i].startPos, part.value.value);
        if !inBounds {
          WriteFailure(blank, isignals, i + 1);
          return Failure(IndexOutOfBounds);
        }
      }
    }
    assert isignals[..|isignals|] == isignals;
    r := Success(());
  }

  lemma NothingLeftOver(bits: seq<bool>)
    requires |bits| % 8 == 0
    ensures bits + Padding(bits) == bits
  {
  }

  method ExtractInitValues(unusedBitPattern: bool, ungrouped: seq<ISignal>, grouped: seq<ISignalGroup>, length: int,
                           bigEndian: bool) returns (r: Result<seq<u8>, Abort>)
    ensures r == Payload(unusedBitPattern, ungrouped, grouped, length, bigEndian)
    ensures r.Success? ==> |r.value| == length
  {
    hide FoldedBytes, WriteSignals, ReversedEach, Padding;
    if |grouped| > 0 && |ungrouped| > 0 {
      return Failure(BothSignalKinds);
    }
    var isignals := ungrouped;
    if |grouped| > 0 {
      if |grouped| > 1 {
        return Failure(SeveralGroups);
      }
      isignals := grouped[0].isignals;
    }
    if length < 0 {
      return Failure(NegativeSize);
    }
    var bits := new bool[8 * length](_ => unusedBitPattern);
    assert bits[..] == UnusedBits(unusedBitPattern, length);
    var written := WriteEach(bits, isignals);
    if written.Failure? {
      return Failure(written.error);
    }
    var initValues := FoldBits(bits[..]);
    NothingLeftOver(bits[..]);
    if !bigEndian {
      initValues := ReverseEach(initValues);
    }
    assert |initValues| == length; // the size check that ends in a panic otherwise
    r := Success(initValues);
  }
}
