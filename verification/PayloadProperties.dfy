/** What the packed payload means: integers read back, untouched bits, independence of the signal order. */
module PayloadProperties {
  import opened Binary
  import opened Wrappers
  import opened PayloadPacking

  // ---------------------------------------------------------------- when a payload exists

  function Shifted(n: int, times: nat): int
    decreases times
  {
    if times == 0 then n else Shifted(n / 2, times - 1)
  }

  /** Shifting right reaches zero, and so ends the loop, exactly for the non-negative numbers. */
  lemma ShiftLoopEndsIff(n: int)
    ensures (exists times: nat :: Shifted(n, times) == 0) <==> n >= 0
  {
    if n >= 0 {
      ShiftReachesZero(n);
    } else {
      forall times: nat
        ensures Shifted(n, times) != 0
      {
        ShiftStaysNegative(n, times);
      }
    }
  }

  lemma {:induction false} ShiftReachesZero(n: nat)
    ensures exists times: nat :: Shifted(n, times) == 0
  {
    if n == 0 {
      assert Shifted(n, 0) == 0;
    } else {
      ShiftReachesZero(n / 2);
      var times: nat :| Shifted(n / 2, times) == 0;
      assert Shifted(n, times + 1) == 0;
    }
  }

  lemma {:induction false} ShiftStaysNegative(n: int, times: nat)
    requires n < 0
    ensures Shifted(n, times) < 0
    decreases times
  {
    if times > 0 {
      ShiftStaysNegative(n / 2, times - 1);
    }
  }

  function ArrayWidth(values: seq<int>): nat {
    if values == [] then 0
    else
      var last := values[|values| - 1];
      ArrayWidth(values[..|values| - 1]) + if last < 0 then 0 else if last < 256 then 8 else |BitsOfNat(last)|
  }

  predicate NonNegative(values: seq<int>) {
    forall i :: 0 <= i < |values| ==> values[i] >= 0
  }

  predicate InByteRange(values: seq<int>) {
    forall i :: 0 <= i < |values| ==> 0 <= values[i] < 256
  }

  /** What a caller can check of one signal: sizes, value range and bounds. */
  predicate Packable(signal: ISignal, size: nat) {
    && signal.length >= 0
    && signal.startPos >= 0
    && match signal.initValues {
         case NotExist => true
         case Single(value) =>
           && 0 <= value < Pow2(signal.length)
           && (signal.length > 0 ==> signal.startPos + signal.length <= size)
         case Array(values) =>
           && signal.length % 8 == 0
           && NonNegative(values)
           && ArrayWidth(values) == signal.length
           && (signal.length > 0 ==> signal.startPos + signal.length <= size)
       }
  }

  lemma BitsOfValueLength(value: nat, width: nat)
    ensures |BitsOfValue(value, width).value| >= width
    ensures |BitsOfValue(value, width).value| == width <==> value < Pow2(width)
    ensures NatOfBits(BitsOfValue(value, width).value) == value
  {
    BitLengthBound(value, width);
    NatOfBitsOfNat(value);
    if |BitsOfNat(value)| < width {
      NatOfBitsConcat(BitsOfNat(value), Zeros(width - |BitsOfNat(value)|));
      NatOfZeros(width - |BitsOfNat(value)|);
    }
  }

  lemma BitsOfElementWidth(value: int)
    ensures BitsOfValue(value, 8).Success? <==> value >= 0
    ensures value >= 0 ==> |BitsOfValue(value, 8).value| == if value < 256 then 8 else |BitsOfNat(value)|
  {
    SmallPowers();
    if value >= 0 {
      BitLengthBound(value, 8);
    }
  }

  lemma {:induction false} BitsOfArrayWidth(values: seq<int>)
    ensures BitsOfArray(values).Success? <==> NonNegative(values)
    ensures BitsOfArray(values).Success? ==> |BitsOfArray(values).value| == ArrayWidth(values)
  {
    if values != [] {
      hide BitsOfValue, BitsOfNat, Reverse;
      var front, last := values[..|values| - 1], values[|values| - 1];
      BitsOfArrayWidth(front);
      BitsOfElementWidth(last);
      assert NonNegative(values) == (NonNegative(front) && last >= 0) by {
        assert values == front + [last];
      }
    }
  }

  lemma SignalWritableIff(bits: seq<bool>, signal: ISignal)
    ensures WriteSignal(bits, signal).Success? <==> Packable(signal, |bits|)
  {
    if signal.length >= 0 {
      match signal.initValues {
        case NotExist =>
        case Single(value) =>
          if value >= 0 {
            BitsOfValueLength(value, signal.length);
          }
        case Array(values) =>
          BitsOfArrayWidth(values);
      }
    }
  }

  lemma {:induction false} SignalsWritableIff(bits: seq<bool>, signals: seq<ISignal>)
    ensures WriteSignals(bits, signals).Success? <==> forall s :: s in signals ==> Packable(s, |bits|)
  {
    if signals != [] {
      var front, last := signals[..|signals| - 1], signals[|signals| - 1];
      assert signals == front + [last];
      SignalsWritableIff(bits, front);
      if WriteSignals(bits, front).Success? {
        SignalWritableIff(WriteSignals(bits, front).value, last);
      }
    }
  }

  /** The signals to pack: those without a group, or those of the one group. */
  predicate ArePacked(signals: seq<ISignal>, ungrouped: seq<ISignal>, grouped: seq<ISignalGroup>) {
    || (grouped == [] && signals == ungrouped)
    || (ungrouped == [] && |grouped| == 1 && signals == grouped[0].isignals)
  }

  /** A payload is produced exactly for one kind of signals, a valid length, and signals that all fit. */
  lemma PayloadExistsIff(unused: bool, ungrouped: seq<ISignal>, grouped: seq<ISignalGroup>, length: int,
                         bigEndian: bool)
    ensures Payload(unused, ungrouped, grouped, length, bigEndian).Success? <==>
            && length >= 0
            && exists signals :: ArePacked(signals, ungrouped, grouped)
                                 && forall s :: s in signals ==> Packable(s, 8 * length)
  {
    if length >= 0 && (grouped == [] || (ungrouped == [] && |grouped| == 1)) {
      var signals := if grouped == [] then ungrouped else grouped[0].isignals;
      assert ArePacked(signals, ungrouped, grouped);
      SignalsWritableIff(UnusedBits(unused, length), signals);
    }
  }

  // ---------------------------------------------------------------- single bits

  predicate Covers(signal: ISignal, p: nat) {
    !signal.initValues.NotExist? && signal.startPos <= p < signal.startPos + signal.length
  }

  predicate Disjoint(a: ISignal, b: ISignal) {
    || a.initValues.NotExist? || b.initValues.NotExist?
    || a.startPos + a.length <= b.startPos || b.startPos + b.length <= a.startPos
  }

  /** Different valued signals of the list never share a bit. */
  ghost predicate NonOverlapping(signals: seq<ISignal>) {
    forall a, b :: a in signals && b in signals && a != b ==> Disjoint(a, b)
  }

  /** The bits a signal contributes; empty for one without value. */
  function Part(signal: ISignal): seq<bool> {
    var r := SignalBits(signal);
    if r.Success? && r.value.Some? then r.value.value else []
  }

  lemma WrittenSignalBit(bits: seq<bool>, signal: ISignal, p: nat)
    requires p < |bits| && WriteSignal(bits, signal).Success?
    ensures !Covers(signal, p) ==> WriteSignal(bits, signal).value[p] == bits[p]
    ensures Covers(signal, p) ==>
              && |Part(signal)| == signal.length
              && WriteSignal(bits, signal).value[p] == Part(signal)[p - signal.startPos]
  {
  }

  lemma {:induction false} UntouchedBit(bits: seq<bool>, signals: seq<ISignal>, p: nat)
    requires p < |bits| && WriteSignals(bits, signals).Success?
    requires forall s :: s in signals ==> !Covers(s, p)
    ensures WriteSignals(bits, signals).value[p] == bits[p]
  {
    if signals != [] {
      var n := |signals| - 1;
      UntouchedBit(bits, signals[..n], p);
      WrittenSignalBit(WriteSignals(bits, signals[..n]).value, signals[n], p);
    }
  }

  /** The last signal writing a bit decides it. */
  lemma {:induction false} WrittenBit(bits: seq<bool>, signals: seq<ISignal>, k: nat, p: nat)
    requires p < |bits| && WriteSignals(bits, signals).Success?
    requires k < |signals| && Covers(signals[k], p)
    requires forall j :: k < j < |signals| ==> signals[j] == signals[k] || !Covers(signals[j], p)
    ensures |Part(signals[k])| == signals[k].length
    ensures WriteSignals(bits, signals).value[p] == Part(signals[k])[p - signals[k].startPos]
    decreases |signals|
  {
    hide WriteSignal, Part, SignalBits;
    var n := |signals| - 1;
    var front := signals[..n];
    WrittenSignalBit(WriteSignals(bits, front).value, signals[n], p);
    if k < n {
      assert front[k] == signals[k];
      WrittenBit(bits, front, k, p);
    }
  }

  ghost predicate SurvivesLaterWrites(signals: seq<ISignal>, k: nat)
    requires k < |signals|
  {
    forall j :: k < j < |signals| ==> signals[j] == signals[k] || Disjoint(signals[k], signals[j])
  }

  lemma ValuedSignalFits(bits: seq<bool>, signals: seq<ISignal>, k: nat)
    requires k < |signals| && WriteSignals(bits, signals).Success? && !signals[k].initValues.NotExist?
    requires signals[k].length > 0
    ensures 0 <= signals[k].startPos <= |bits| - signals[k].length
  {
    hide WriteSignals;
    SignalsWritableIff(bits, signals);
    assert Packable(signals[k], |bits|);
  }

  /** The stretch of the final bit vector that a signal occupies, if no later signal writes there. */
  lemma WrittenSlice(bits: seq<bool>, signals: seq<ISignal>, k: nat)
    requires k < |signals| && WriteSignals(bits, signals).Success? && !signals[k].initValues.NotExist?
    requires SurvivesLaterWrites(signals, k)
    requires signals[k].length > 0
    ensures 0 <= signals[k].startPos <= |bits| - signals[k].length
    ensures Part(signals[k])
            == WriteSignals(bits, signals).value[signals[k].startPos..signals[k].startPos + signals[k].length]
  {
    hide WriteSignals, Part;
    var s := signals[k];
    ValuedSignalFits(bits, signals, k);
    var slice := WriteSignals(bits, signals).value[s.startPos..s.startPos + s.length];
    hide SurvivesLaterWrites;
    SurvivingBit(bits, signals, k, 0);
    forall i | 0 <= i < s.length
      ensures Part(s)[i] == slice[i]
    {
      SurvivingBit(bits, signals, k, i);
    }
  }

  lemma SurvivingBit(bits: seq<bool>, signals: seq<ISignal>, k: nat, i: nat)
    requires k < |signals| && WriteSignals(bits, signals).Success? && !signals[k].initValues.NotExist?
    requires SurvivesLaterWrites(signals, k) && i < signals[k].length
    requires 0 <= signals[k].startPos <= |bits| - signals[k].length
    ensures |Part(signals[k])| == signals[k].length
    ensures WriteSignals(bits, signals).value[signals[k].startPos + i] == Part(signals[k])[i]
  {
    hide WriteSignals, Part;
    WrittenBit(bits, signals, k, signals[k].startPos + i);
  }

  lemma SliceOfSlice<T>(s: seq<T>, start: nat, end: nat, i: nat, j: nat)
    requires start <= end <= |s| && i <= j <= end - start
    ensures s[start..end][i..j] == s[start + i..start + j]
  {
    var one, other := s[start..end][i..j], s[start + i..start + j];
    assert |one| == |other| && forall k :: 0 <= k < |one| ==> one[k] == other[k];
  }

  lemma {:induction false} FoldedByteAt(bits: seq<bool>, n: nat, k: nat)
    requires |bits| == 8 * n && k < n
    ensures |FoldedBytes(bits)| == n && FoldedBytes(bits)[k] == FoldedByte(bits[8 * k..8 * k + 8])
  {
    hide FoldedByte;
    var front := bits[..8 * (n - 1)];
    assert FoldedBytes(bits) == FoldedBytes(front) + [FoldedByte(bits[8 * (n - 1)..])];
    if k < n - 1 {
      FoldedByteAt(front, n - 1, k);
      SliceOfSlice(bits, 0, 8 * (n - 1), 8 * k, 8 * k + 8);
    } else {
      assert bits[8 * k..8 * k + 8] == bits[8 * (n - 1)..];
    }
  }

  lemma {:induction false} PaddingIsUnique(a: seq<bool>, b: seq<bool>)
    requires |a| == |b| && NatOfBits(a) == NatOfBits(b)
    ensures a == b
  {
    if a != [] {
      PaddingIsUnique(a[1..], b[1..]);
      assert a == [a[0]] + a[1..] && b == [b[0]] + b[1..];
    }
  }

  lemma SmallPowers()
    ensures Pow2(1) == 2 && Pow2(7) == 128 && Pow2(8) == 256
  {
  }

  lemma ByteBitsMeaning(b: u8)
    ensures NatOfBits(ByteBits(b)) == b
  {
    SmallPowers();
    BitLengthBound(b, 8);
    NatOfBitsOfNat(b);
    NatOfZeros(8 - |BitsOfNat(b)|);
    NatOfBitsConcat(BitsOfNat(b), Zeros(8 - |BitsOfNat(b)|));
  }

  lemma ReverseBitsOfFolded(bits: seq<bool>)
    requires |bits| == 8
    ensures ReverseBits(FoldedByte(bits)) == NatOfBits(bits)
  {
    var b := FoldedByte(bits);
    ByteBitsMeaning(b);
    PaddingIsUnique(ByteBits(b), Reverse(bits));
    ReverseTwice(bits);
  }

  lemma BitAt(bits: seq<bool>, i: nat)
    requires i < |bits|
    ensures NatOfBits(bits) / Pow2(i) % 2 == BitValue(bits[i])
  {
    SmallPowers();
    NatOfSlice(bits, i, 1);
    assert bits[i..i + 1] == [bits[i]];
    assert [bits[i]][1..] == [];
  }

  /** Each byte is the number of its eight bits, read in the direction of the PDU's byte order. */
  lemma ByteMeaning(bits: seq<bool>, bigEndian: bool, k: nat)
    requires |bits| % 8 == 0 && 8 * k < |bits|
    ensures var eight := bits[8 * k..8 * k + 8];
            Bytes(bits, bigEndian)[k] == NatOfBits(if bigEndian then Reverse(eight) else eight)
  {
    FoldedByteAt(bits, |bits| / 8, k);
    ReverseBitsOfFolded(bits[8 * k..8 * k + 8]);
  }

  function PayloadBit(bytes: seq<u8>, bigEndian: bool, p: nat): bool
    requires p < 8 * |bytes|
  {
    bytes[p / 8] / Pow2(if bigEndian then 7 - p % 8 else p % 8) % 2 == 1
  }

  lemma PayloadBitIsWritten(bits: seq<bool>, bigEndian: bool, p: nat)
    requires |bits| % 8 == 0 && p < |bits|
    ensures PayloadBit(Bytes(bits, bigEndian), bigEndian, p) == bits[p]
  {
    hide Bytes, NatOfBits, Pow2;
    var k, i := p / 8, p % 8;
    var eight := bits[8 * k..8 * k + 8];
    ByteMeaning(bits, bigEndian, k);
    if bigEndian {
      BitAt(Reverse(eight), 7 - i);
    } else {
      BitAt(eight, i);
    }
    assert eight[i] == bits[p];
  }

  /** A payload is the bytes of the written bit vector. */
  lemma PayloadParts(unused: bool, ungrouped: seq<ISignal>, grouped: seq<ISignalGroup>, signals: seq<ISignal>,
                     length: int, bigEndian: bool,
                     bytes: seq<u8>) returns (bits: seq<bool>)
    requires Payload(unused, ungrouped, grouped, length, bigEndian) == Success(bytes)
    requires ArePacked(signals, ungrouped, grouped)
    ensures length >= 0 && |bits| == 8 * length && |bytes| == length
    ensures WriteSignals(UnusedBits(unused, length), signals) == Success(bits)
    ensures bytes == Bytes(bits, bigEndian)
  {
    bits := WriteSignals(UnusedBits(unused, length), signals).value;
  }

  /** The payload has the requested size, and every bit outside the valued signals is the unused-bit pattern. */
  lemma UnusedBitsKept(unused: bool, ungrouped: seq<ISignal>, grouped: seq<ISignalGroup>, signals: seq<ISignal>,
                       length: int, bigEndian: bool,
                       bytes: seq<u8>, p: nat)
    requires Payload(unused, ungrouped, grouped, length, bigEndian) == Success(bytes)
    requires ArePacked(signals, ungrouped, grouped)
    requires forall s :: s in signals ==> !Covers(s, p)
    ensures |bytes| == length
    ensures p < 8 * length ==> PayloadBit(bytes, bigEndian, p) == unused
  {
    var bits := PayloadParts(unused, ungrouped, grouped, signals, length, bigEndian, bytes);
    if p < 8 * length {
      UntouchedBit(UnusedBits(unused, length), signals, p);
      PayloadBitIsWritten(bits, bigEndian, p);
    }
  }

  // ---------------------------------------------------------------- the payload as one integer

  function LittleEndian(bytes: seq<u8>): nat {
    if bytes == [] then 0 else bytes[0] + 256 * LittleEndian(bytes[1..])
  }

  function BigEndian(bytes: seq<u8>): nat {
    if bytes == [] then 0 else 256 * BigEndian(bytes[..|bytes| - 1]) + bytes[|bytes| - 1]
  }

  lemma {:induction false} LittleEndianOfBits(bits: seq<bool>, bytes: seq<u8>)
    requires |bits| == 8 * |bytes|
    requires forall k :: 0 <= k < |bytes| ==> bytes[k] == NatOfBits(bits[8 * k..8 * k + 8])
    ensures LittleEndian(bytes) == NatOfBits(bits)
  {
    if bytes != [] {
      var rest := bits[8..];
      forall k | 0 <= k < |bytes| - 1
        ensures bytes[1..][k] == NatOfBits(rest[8 * k..8 * k + 8])
      {
        assert rest[8 * k..8 * k + 8] == bits[8 * (k + 1)..8 * (k + 1) + 8];
      }
      LittleEndianOfBits(rest, bytes[1..]);
      NatOfBitsConcat(bits[..8], rest);
      assert bits == bits[..8] + rest && bits[8 * 0..8 * 0 + 8] == bits[..8];
      assert Pow2(8) == 256;
    }
  }

  lemma OneMoreByte(front: seq<bool>, last: seq<bool>)
    requires |last| == 8
    ensures NatOfBits(Reverse(front + last)) == 256 * NatOfBits(Reverse(front)) + NatOfBits(Reverse(last))
  {
    SmallPowers();
    hide NatOfBits, Pow2, Reverse;
    ReverseConcat(front, last);
    NatOfBitsConcat(Reverse(last), Reverse(front));
  }

  lemma {:induction false} BigEndianOfBits(bits: seq<bool>, bytes: seq<u8>)
    requires |bits| == 8 * |bytes|
    requires forall k :: 0 <= k < |bytes| ==> bytes[k] == NatOfBits(Reverse(bits[8 * k..8 * k + 8]))
    ensures BigEndian(bytes) == NatOfBits(Reverse(bits))
  {
    if bytes != [] {
      hide NatOfBits, Pow2, Reverse;
      var n := |bytes| - 1;
      var front, last := bits[..8 * n], bits[8 * n..];
      forall k | 0 <= k < n
        ensures bytes[..n][k] == NatOfBits(Reverse(front[8 * k..8 * k + 8]))
      {
        assert front[8 * k..8 * k + 8] == bits[8 * k..8 * k + 8];
      }
      BigEndianOfBits(front, bytes[..n]);
      assert bits == front + last && bits[8 * n..8 * n + 8] == last;
      OneMoreByte(front, last);
    } else {
      assert Reverse(bits) == [];
    }
  }

  lemma PayloadInteger(bits: seq<bool>)
    requires |bits| % 8 == 0
    ensures LittleEndian(Bytes(bits, false)) == NatOfBits(bits)
    ensures BigEndian(Bytes(bits, true)) == NatOfBits(Reverse(bits))
  {
    forall k | 0 <= k < |bits| / 8
      ensures Bytes(bits, false)[k] == NatOfBits(bits[8 * k..8 * k + 8])
      ensures Bytes(bits, true)[k] == NatOfBits(Reverse(bits[8 * k..8 * k + 8]))
    {
      ByteMeaning(bits, false, k);
      ByteMeaning(bits, true, k);
    }
    LittleEndianOfBits(bits, Bytes(bits, false));
    BigEndianOfBits(bits, Bytes(bits, true));
  }

  lemma PartOfSingle(signal: ISignal, size: nat)
    requires signal.initValues.Single? && Packable(signal, size)
    ensures |Part(signal)| == signal.length
    ensures NatOfBits(if signal.bigEndian then Reverse(Part(signal)) else Part(signal)) == signal.initValues.value
  {
    BitsOfValueLength(signal.initValues.value, signal.length);
    ReverseTwice(BitsOfValue(signal.initValues.value, signal.length).value);
  }

  /** What the bit vector holds where a single-valued signal was written. */
  lemma SingleValueWritten(blank: seq<bool>, signals: seq<ISignal>, k: nat)
    requires k < |signals| && WriteSignals(blank, signals).Success?
    requires signals[k].initValues.Single? && SurvivesLaterWrites(signals, k)
    ensures signals[k].startPos >= 0 && signals[k].length >= 0
    ensures signals[k].length == 0 ==> signals[k].initValues.value == 0
    ensures signals[k].length > 0 ==>
              && signals[k].startPos + signals[k].length <= |blank|
              && var start := signals[k].startPos;
                 var slice := WriteSignals(blank, signals).value[start..start + signals[k].length];
                 NatOfBits(if signals[k].bigEndian then Reverse(slice) else slice) == signals[k].initValues.value
  {
    SignalsWritableIff(blank, signals);
    assert Packable(signals[k], |blank|);
    if signals[k].length > 0 {
      PartOfSingle(signals[k], |blank|);
      WrittenSlice(blank, signals, k);
    }
  }

  /** A little-endian signal of a little-endian PDU is the bit field of that length at its start position. */
  lemma LittleEndianRoundTrip(unused: bool, ungrouped: seq<ISignal>, grouped: seq<ISignalGroup>, signals: seq<ISignal>,
                              length: int,
                              bytes: seq<u8>, k: nat)
    requires Payload(unused, ungrouped, grouped, length, false) == Success(bytes)
    requires ArePacked(signals, ungrouped, grouped)
    requires k < |signals| && SurvivesLaterWrites(signals, k)
    requires var s := signals[k]; s.initValues.Single? && !s.bigEndian
    ensures var s := signals[k];
            && s.startPos >= 0 && s.length >= 0
            && LittleEndian(bytes) / Pow2(s.startPos) % Pow2(s.length) == s.initValues.value
  {
    hide WriteSignals, SurvivesLaterWrites;
    var bits := PayloadParts(unused, ungrouped, grouped, signals, length, false, bytes);
    SingleValueWritten(UnusedBits(unused, length), signals, k);
    PayloadInteger(bits);
    if signals[k].length > 0 {
      NatOfSlice(bits, signals[k].startPos, signals[k].length);
    }
  }

  /** A big-endian signal of a big-endian PDU is the bit field counted from the most significant end. */
  lemma BigEndianRoundTrip(unused: bool, ungrouped: seq<ISignal>, grouped: seq<ISignalGroup>, signals: seq<ISignal>,
                           length: int,
                           bytes: seq<u8>, k: nat)
    requires Payload(unused, ungrouped, grouped, length, true) == Success(bytes)
    requires ArePacked(signals, ungrouped, grouped)
    requires k < |signals| && SurvivesLaterWrites(signals, k)
    requires var s := signals[k]; s.initValues.Single? && s.bigEndian && s.length > 0
    ensures var s := signals[k];
            && 0 <= s.startPos <= 8 * length - s.length
            && BigEndian(bytes) / Pow2(8 * length - s.startPos - s.length) % Pow2(s.length) == s.initValues.value
  {
    hide WriteSignals, SurvivesLaterWrites;
    var bits := PayloadParts(unused, ungrouped, grouped, signals, length, true, bytes);
    SingleValueWritten(UnusedBits(unused, length), signals, k);
    PayloadInteger(bits);
    ReversedSlice(bits, signals[k].startPos, signals[k].length);
    NatOfSlice(Reverse(bits), |bits| - signals[k].startPos - signals[k].length, signals[k].length);
  }

  lemma ReversedSlice(bits: seq<bool>, start: nat, length: nat)
    requires start + length <= |bits|
    ensures Reverse(bits)[|bits| - start - length..|bits| - start] == Reverse(bits[start..start + length])
  {
    var one, other := Reverse(bits)[|bits| - start - length..|bits| - start], Reverse(bits[start..start + length]);
    assert |one| == |other|;
    forall i | 0 <= i < length
      ensures one[i] == other[i]
    {
      assert one[i] == Reverse(bits)[|bits| - start - length + i] == bits[start + length - 1 - i];
    }
  }

  /** Where the bit of weight 2^i of a signal is placed. */
  function BitPosition(signal: ISignal, i: nat): int {
    if signal.bigEndian then signal.startPos + signal.length - 1 - i else signal.startPos + i
  }

  /** The bit of weight 2^i of a signal, in any combination of signal and PDU byte order. */
  lemma SignalBitRoundTrip(unused: bool, ungrouped: seq<ISignal>, grouped: seq<ISignalGroup>, signals: seq<ISignal>,
                           length: int,
                           bigEndian: bool, bytes: seq<u8>, k: nat, i: nat)
    requires Payload(unused, ungrouped, grouped, length, bigEndian) == Success(bytes)
    requires ArePacked(signals, ungrouped, grouped)
    requires k < |signals| && SurvivesLaterWrites(signals, k)
    requires signals[k].initValues.Single? && i < signals[k].length
    ensures 0 <= BitPosition(signals[k], i) < 8 * |bytes|
    ensures BitValue(PayloadBit(bytes, bigEndian, BitPosition(signals[k], i)))
            == signals[k].initValues.value / Pow2(i) % 2
  {
    hide WriteSignals, SurvivesLaterWrites, NatOfBits, Pow2, Bytes, PayloadBit;
    var s := signals[k];
    var bits := PayloadParts(unused, ungrouped, grouped, signals, length, bigEndian, bytes);
    SingleValueWritten(UnusedBits(unused, length), signals, k);
    PayloadBitIsWritten(bits, bigEndian, BitPosition(s, i));
    var slice := bits[s.startPos..s.startPos + s.length];
    BitAt(if s.bigEndian then Reverse(slice) else slice, i);
  }

  lemma BitsOfByte(value: int)
    requires 0 <= value < 256
    ensures BitsOfValue(value, 8).Success? && |BitsOfValue(value, 8).value| == 8
    ensures NatOfBits(Reverse(Reverse(BitsOfValue(value, 8).value))) == value
  {
    SmallPowers();
    BitsOfValueLength(value, 8);
    ReverseTwice(BitsOfValue(value, 8).value);
  }

  lemma {:induction false} ArrayLength(values: seq<int>)
    requires InByteRange(values)
    ensures BitsOfArray(values).Success? && |BitsOfArray(values).value| == 8 * |values|
  {
    if values != [] {
      hide BitsOfValue, Reverse;
      var front, last := values[..|values| - 1], values[|values| - 1];
      assert values == front + [last];
      ArrayLength(front);
      BitsOfByte(last);
    }
  }

  lemma {:induction false} ArraySlice(values: seq<int>, j: nat)
    requires InByteRange(values) && j < |values|
    ensures BitsOfArray(values).Success? && |BitsOfArray(values).value| == 8 * |values|
    ensures NatOfBits(Reverse(BitsOfArray(values).value[8 * j..8 * j + 8])) == values[j]
  {
    hide BitsOfValue, NatOfBits, Reverse;
    var n := |values| - 1;
    assert values == values[..n] + [values[n]];
    ArrayLength(values[..n]);
    BitsOfByte(values[n]);
    var front, last := BitsOfArray(values[..n]).value, Reverse(BitsOfValue(values[n], 8).value);
    assert BitsOfArray(values) == Success(front + last);
    if j < n {
      ArraySlice(values[..n], j);
      TakeOfConcat(front, last, 8 * j, 8 * j + 8);
    } else {
      DropOfConcat(front, last);
    }
  }

  lemma TakeOfConcat<T>(a: seq<T>, b: seq<T>, i: nat, j: nat)
    requires i <= j <= |a|
    ensures (a + b)[i..j] == a[i..j]
  {
  }

  lemma DropOfConcat<T>(a: seq<T>, b: seq<T>)
    ensures (a + b)[|a|..|a| + |b|] == b
  {
  }

  lemma PartOfArray(signal: ISignal, size: nat, j: nat)
    requires signal.initValues.Array? && Packable(signal, size) && j < |signal.initValues.values|
    requires InByteRange(signal.initValues.values)
    ensures |Part(signal)| == signal.length == 8 * |signal.initValues.values|
    ensures NatOfBits(Reverse(Part(signal)[8 * j..8 * j + 8])) == signal.initValues.values[j]
  {
    BitsOfArrayWidth(signal.initValues.values);
    ArraySlice(signal.initValues.values, j);
  }

  lemma ArrayByteWritten(blank: seq<bool>, signals: seq<ISignal>, k: nat, j: nat)
    requires k < |signals| && WriteSignals(blank, signals).Success? && SurvivesLaterWrites(signals, k)
    requires signals[k].initValues.Array? && j < |signals[k].initValues.values|
    requires InByteRange(signals[k].initValues.values)
    ensures 0 <= signals[k].startPos && signals[k].startPos + 8 * j + 8 <= |blank|
    ensures var p := signals[k].startPos + 8 * j;
            NatOfBits(Reverse(WriteSignals(blank, signals).value[p..p + 8])) == signals[k].initValues.values[j]
  {
    hide WriteSignals, SurvivesLaterWrites, Part, NatOfBits;
    var s := signals[k];
    SignalsWritableIff(blank, signals);
    assert Packable(s, |blank|);
    PartOfArray(s, |blank|, j);
    WrittenSlice(blank, signals, k);
    var written := WriteSignals(blank, signals).value;
    SliceOfSlice(written, s.startPos, s.startPos + s.length, 8 * j, 8 * j + 8);
  }

  /**
   Every bit of every array value, at whatever position the array starts: most significant bit first, in either byte
   order.
   */
  lemma ArrayBitRoundTrip(unused: bool, ungrouped: seq<ISignal>, grouped: seq<ISignalGroup>, signals: seq<ISignal>,
                          length: int,
                          bigEndian: bool,
                          bytes: seq<u8>, k: nat, j: nat, i: nat)
    requires Payload(unused, ungrouped, grouped, length, bigEndian) == Success(bytes)
    requires ArePacked(signals, ungrouped, grouped)
    requires k < |signals| && SurvivesLaterWrites(signals, k)
    requires var s := signals[k];
             s.initValues.Array? && j < |s.initValues.values| && InByteRange(s.initValues.values)
    requires i < 8
    ensures var s := signals[k];
            && 0 <= s.startPos + 8 * j + 7 - i < 8 * |bytes|
            && BitValue(PayloadBit(bytes, bigEndian, s.startPos + 8 * j + 7 - i))
                 == s.initValues.values[j] / Pow2(i) % 2
  {
    hide WriteSignals, SurvivesLaterWrites, NatOfBits, Pow2, Bytes, PayloadBit;
    var s := signals[k];
    var bits := PayloadParts(unused, ungrouped, grouped, signals, length, bigEndian, bytes);
    ArrayByteWritten(UnusedBits(unused, length), signals, k, j);
    var p := s.startPos + 8 * j;
    PayloadBitIsWritten(bits, bigEndian, p + 7 - i);
    BitAt(Reverse(bits[p..p + 8]), i);
  }

  /**
   A byte array on a byte boundary appears unchanged in a big-endian PDU; in a little-endian PDU
   every one of its bytes is mirrored, because array values are always expanded most significant bit first.
   */
  lemma ArrayRoundTrip(unused: bool, ungrouped: seq<ISignal>, grouped: seq<ISignalGroup>, signals: seq<ISignal>,
                       length: int, bigEndian: bool,
                       bytes: seq<u8>, k: nat, j: nat)
    requires Payload(unused, ungrouped, grouped, length, bigEndian) == Success(bytes)
    requires ArePacked(signals, ungrouped, grouped)
    requires k < |signals| && SurvivesLaterWrites(signals, k)
    requires var s := signals[k];
             && s.initValues.Array? && j < |s.initValues.values| && s.startPos % 8 == 0
             && InByteRange(s.initValues.values)
    ensures var s := signals[k];
            && 0 <= s.startPos / 8 + j < |bytes|
            && bytes[s.startPos / 8 + j]
               == if bigEndian then s.initValues.values[j] else ReverseBits(s.initValues.values[j])
  {
    hide WriteSignals, SurvivesLaterWrites;
    var bits := PayloadParts(unused, ungrouped, grouped, signals, length, bigEndian, bytes);
    ArrayByteWritten(UnusedBits(unused, length), signals, k, j);
    FoldedByteAt(bits, length, signals[k].startPos / 8 + j);
  }

  // ---------------------------------------------------------------- order independence

  lemma CoveredBit(bits: seq<bool>, signals: seq<ISignal>, signal: ISignal, p: nat)
    requires p < |bits| && WriteSignals(bits, signals).Success?
    requires NonOverlapping(signals) && signal in signals && Covers(signal, p)
    ensures |Part(signal)| == signal.length
    ensures WriteSignals(bits, signals).value[p] == Part(signal)[p - signal.startPos]
  {
    hide WriteSignals, Part, SignalBits;
    var k :| 0 <= k < |signals| && signals[k] == signal;
    forall j | k < j < |signals|
      ensures signals[j] == signal || !Covers(signals[j], p)
    {
      assert signals[j] in signals;
    }
    WrittenBit(bits, signals, k, p);
  }

  lemma SameBitEitherOrder(bits: seq<bool>, first: seq<ISignal>, second: seq<ISignal>, p: nat)
    requires p < |bits| && WriteSignals(bits, first).Success? && WriteSignals(bits, second).Success?
    requires forall s :: s in first <==> s in second
    requires NonOverlapping(first)
    ensures WriteSignals(bits, first).value[p] == WriteSignals(bits, second).value[p]
  {
    if s :| s in first && Covers(s, p) {
      CoveredBit(bits, first, s, p);
      CoveredBit(bits, second, s, p);
    } else {
      UntouchedBit(bits, first, p);
      UntouchedBit(bits, second, p);
    }
  }

  /** Non-overlapping signals give the same payload, or equally none, in whatever order and grouping they arrive. */
  lemma OrderIndependence(unused: bool, ungrouped: seq<ISignal>, grouped: seq<ISignalGroup>,
                          ungrouped': seq<ISignal>, grouped': seq<ISignalGroup>,
                          first: seq<ISignal>, second: seq<ISignal>, length: int, bigEndian: bool)
    requires ArePacked(first, ungrouped, grouped) && ArePacked(second, ungrouped', grouped')
    requires (forall s :: s in first <==> s in second) && NonOverlapping(first)
    ensures var one, other := Payload(unused, ungrouped, grouped, length, bigEndian),
                              Payload(unused, ungrouped', grouped', length, bigEndian);
            && one.Success? == other.Success?
            && (one.Success? ==> one == other)
  {
    hide WriteSignals, Packable, Bytes;
    PayloadExistsIff(unused, ungrouped, grouped, length, bigEndian);
    PayloadExistsIff(unused, ungrouped', grouped', length, bigEndian);
    if Payload(unused, ungrouped, grouped, length, bigEndian).Success? {
      var blank := UnusedBits(unused, length);
      forall p | 0 <= p < 8 * length
        ensures WriteSignals(blank, first).value[p] == WriteSignals(blank, second).value[p]
      {
        SameBitEitherOrder(blank, first, second, p);
      }
      assert WriteSignals(blank, first).value == WriteSignals(blank, second).value;
    }
  }
}
