/** What the trailer detects: residue, odd weight, bursts, double bits and minimum distance. */
module CrcDetection {
  import opened Bits
  import opened CrcRegister
  import opened CrcOrder
  import opened Words
  import opened BytesUtilities
  import opened CrcCalculator

  // ----- The trailer -----

  /** A frame made by addCRC is accepted, and its front is the payload. */
  lemma FrameIsAccepted(payload: seq<Byte>)
    ensures Accepts(Frame(payload))
    ensures Frame(payload)[..|Frame(payload)| - CRC_LENGTH] == payload
  {
    hide Crc, GetHighByte, GetLowByte, BindTwoBytes;
    var f := Frame(payload);
    assert f[..|payload|] == payload;
    BindSplits(Crc(payload));
  }

  /** Conversely, an accepted string is the frame of its own front. */
  lemma AcceptedIsFrame(frame: seq<Byte>)
    requires Accepts(frame)
    ensures frame == Frame(frame[..|frame| - CRC_LENGTH])
  {
    hide Crc, GetHighByte, GetLowByte, BindTwoBytes;
    var n := |frame| - CRC_LENGTH;
    SplitBinds(frame[n], frame[n + 1]);
    assert frame == frame[..n] + [frame[n], frame[n + 1]];
  }

  /** The empty payload has a frame, which removeCRC accepts although addCRC never makes it. */
  lemma EmptyPayloadFrame(frame: seq<Byte>)
    requires |frame| == CRC_LENGTH
    ensures Accepts(frame) <==> frame == [0xFF, 0xFF]
  {
    hide Crc;
    CrcOfEmpty();
    assert GetHighByte(0xFFFF) == 0xFF && GetLowByte(0xFFFF) == 0xFF;
    assert Frame([]) == [0xFF, 0xFF];
    FrameIsAccepted([]);
    if Accepts(frame) {
      AcceptedIsFrame(frame);
      assert frame[..0] == [];
    }
  }

  /** removeCRC accepts exactly the strings over which, trailer included, the register ends clear. */
  lemma AcceptsIffResidueClear(frame: seq<Byte>)
    requires |frame| >= CRC_LENGTH
    ensures Accepts(frame) <==> Feed(PRESET, MessageBits(frame)) == CLEAR
    ensures Accepts(frame) <==> Crc(frame) == 0
  {
    hide Crc, BindTwoBytes, HighBits, Feed;
    var n := |frame| - CRC_LENGTH;
    var payload, high, low := frame[..n], frame[n], frame[n + 1];
    var trailer := BindTwoBytes(high, low);
    assert frame == payload + ([high] + [low]);
    MessageBitsConcat(payload, [high] + [low]);
    MessageBitsConcat([high], [low]);
    OneByteBits(high);
    OneByteBits(low);
    BoundBits(high, low);
    FeedConcat(PRESET, MessageBits(payload), WordBits(trailer));
    CrcIsFeed(payload);
    FeedTrailer(WordBits(Crc(payload)), WordBits(trailer));
    if WordBits(Crc(payload)) == WordBits(trailer) {
      WordBitsInjective(Crc(payload), trailer);
    }
    ClearWord(Crc(frame));
    CrcIsFeed(frame);
  }

  lemma ClearWord(w: Word)
    ensures WordBits(w) == CLEAR <==> w == 0
  {
    hide HighBits;
    HighBitsOfZero(16);
    if WordBits(w) == CLEAR {
      WordBitsInjective(w, 0);
    }
  }

  // ----- Errors -----

  /** The bits in which two strings of the same length differ. */
  function Difference(f: seq<Byte>, g: seq<Byte>): (e: BitString)
    requires |f| == |g|
    ensures |e| == 8 * |f|
  {
    Xor(MessageBits(f), MessageBits(g))
  }

  /** An error pattern that leaves a clear register clear. */
  ghost predicate Undetected(error: BitString) { Feed(CLEAR, error) == CLEAR }

  /** Whether a corrupted frame passes depends on the error alone. */
  lemma AcceptanceOfError(f: seq<Byte>, g: seq<Byte>)
    requires |f| == |g| && Accepts(f)
    ensures Accepts(g) <==> Undetected(Difference(f, g))
  {
    hide Feed, MessageBits, Crc, Accepts;
    AcceptsNeedsTrailer(f);
    AcceptsIffResidueClear(f);
    AcceptsIffResidueClear(g);
    XorZero(PRESET, PRESET);
    FeedXor(PRESET, PRESET, MessageBits(f), MessageBits(g));
    XorZero(CLEAR, Feed(PRESET, MessageBits(g)));
  }

  lemma AcceptsNeedsTrailer(f: seq<Byte>)
    requires Accepts(f)
    ensures |f| >= CRC_LENGTH
  {
  }

  lemma {:induction false} MessageBitsInjective(f: seq<Byte>, g: seq<Byte>)
    requires |f| == |g| && MessageBits(f) == MessageBits(g)
    ensures f == g
  {
    if f != [] {
      hide HighBits, HighByte, ByteBits;
      assert MessageBits(f)[..8] == ByteBits(f[0]) && MessageBits(g)[..8] == ByteBits(g[0]);
      assert MessageBits(f)[8..] == MessageBits(f[1..]) && MessageBits(g)[8..] == MessageBits(g[1..]);
      ByteBitsInjective(f[0], g[0]);
      MessageBitsInjective(f[1..], g[1..]);
      assert f == [f[0]] + f[1..] && g == [g[0]] + g[1..];
    }
  }

  lemma ByteBitsInjective(a: Byte, b: Byte)
    requires ByteBits(a) == ByteBits(b)
    ensures a == b
  {
    hide HighBits, HighByte;
    var u, v := HighByte(a), HighByte(b);
    HighBitsXor(u, v, 8);
    XorZero(ByteBits(a), ByteBits(b));
    HighBytesVanish(a, b);
    DroppedSixteen(u ^ v);
    HighBitsZero(u ^ v, 8);
    HighBytesEqual(a, b);
  }

  lemma HighBytesVanish(a: Byte, b: Byte)
    ensures (HighByte(a) ^ HighByte(b)) << 8 == 0
  {
  }

  lemma HighBytesEqual(a: Byte, b: Byte)
    requires HighByte(a) ^ HighByte(b) == 0
    ensures a == b
  {
  }

  lemma DifferenceIsNonzero(f: seq<Byte>, g: seq<Byte>)
    requires |f| == |g| && f != g
    ensures Weight(Difference(f, g)) > 0
  {
    hide MessageBits;
    WeightZero(Difference(f, g));
    XorZero(MessageBits(f), MessageBits(g));
    if Weight(Difference(f, g)) == 0 {
      MessageBitsInjective(f, g);
    }
  }

  // ----- Odd weight -----

  lemma UndetectedIsEven(error: BitString)
    requires Undetected(error)
    ensures Weight(error) % 2 == 0
  {
    FeedParity(CLEAR, error);
    ParityIsWeight(error);
  }

  /** Every accepted frame has even weight, at any length. */
  lemma AcceptedIsEven(f: seq<Byte>)
    requires Accepts(f)
    ensures Weight(MessageBits(f)) % 2 == 0
  {
    hide MessageBits, Accepts, Crc;
    AcceptsNeedsTrailer(f);
    AcceptsIffResidueClear(f);
    FeedParity(PRESET, MessageBits(f));
    ParityIsWeight(MessageBits(f));
    ParityOfPreset();
    StepsClear(0);
    FeedParity(CLEAR, []);
  }

  lemma ParityOfPreset()
    ensures !Parity(PRESET) && !Parity(CLEAR)
  {
    var p: BitString := PRESET;
    assert p == p[..4] + (p[4..8] + (p[8..12] + p[12..]));
    ParityConcat(p[..4], p[4..8] + (p[8..12] + p[12..]));
    ParityConcat(p[4..8], p[8..12] + p[12..]);
    ParityConcat(p[8..12], p[12..]);
    ParityNibble(p[..4]);
    ParityNibble(p[4..8]);
    ParityNibble(p[8..12]);
    ParityNibble(p[12..]);
    WeightZero(CLEAR);
    ParityIsWeight(CLEAR);
  }

  /** Any odd number of flipped bits is rejected, at any length. */
  lemma OddErrorsAreDetected(f: seq<Byte>, g: seq<Byte>)
    requires |f| == |g| && Accepts(f)
    requires Weight(Difference(f, g)) % 2 == 1
    ensures !Accepts(g)
  {
    hide Accepts, Feed, Difference;
    AcceptanceOfError(f, g);
    if Accepts(g) {
      UndetectedIsEven(Difference(f, g));
    }
  }

  // ----- Bursts -----

  /** Leading and trailing zeros do not change whether an error is detected. */
  lemma UndetectedCore(before: nat, core: BitString, after: nat)
    ensures Undetected(Zeros(before) + core + Zeros(after)) <==> Undetected(core)
  {
    hide Feed;
    FeedConcat(CLEAR, Zeros(before) + core, Zeros(after));
    FeedConcat(CLEAR, Zeros(before), core);
    FeedZeros(CLEAR, before);
    FeedZeros(Feed(CLEAR, core), after);
    StepsClear(before);
    StepsClear(after);
    if Steps(Feed(CLEAR, core), after) == CLEAR {
      StepsInjective(Feed(CLEAR, core), CLEAR, after);
    }
  }

  lemma ShortErrorsAreDetected(core: BitString)
    requires |core| <= 16 && Weight(core) > 0
    ensures !Undetected(core)
  {
    hide Feed, Steps, Weight;
    var n := |core|;
    var loaded: Register := Xor(CLEAR, Aligned(core));
    FeedAligned(CLEAR, core);
    StepsClear(n);
    if Undetected(core) {
      StepsInjective(loaded, CLEAR, n);
      AlignedClear(core);
      WeightZero(core);
    }
  }

  lemma AlignedClear(core: BitString)
    requires |core| <= 16
    ensures Xor(CLEAR, Aligned(core)) == CLEAR <==> core == Zeros(|core|)
  {
    XorZero(CLEAR, Aligned(core));
    assert core == Aligned(core)[..|core|];
    assert Zeros(|core|) == CLEAR[..|core|];
    assert Zeros(|core|) + Zeros(16 - |core|) == CLEAR;
  }

  /** Any change confined to sixteen consecutive bits is rejected, at any length. */
  lemma BurstsAreDetected(f: seq<Byte>, g: seq<Byte>, start: nat, end: nat)
    requires |f| == |g| && f != g && Accepts(f)
    requires start <= end <= 8 * |f| && end - start <= 16
    requires forall i :: 0 <= i < 8 * |f| && !(start <= i < end) ==> !Difference(f, g)[i]
    ensures !Accepts(g)
  {
    hide Accepts, Feed, MessageBits, Undetected;
    var e := Difference(f, g);
    var core := e[start..end];
    assert e == Zeros(start) + core + Zeros(|e| - end);
    AcceptanceOfError(f, g);
    UndetectedCore(start, core, |e| - end);
    DifferenceIsNonzero(f, g);
    WeightZero(core);
    WeightZero(e);
    ShortErrorsAreDetected(core);
  }

  // ----- Two bits -----

  const TOP_BIT: Register := [true] + Zeros(15)

  /** Below the degree of the generator the powers of x are single bits. */
  lemma {:induction false} SmallPower(n: nat)
    requires n <= 15
    ensures Power(n) == Zeros(15 - n) + [true] + Zeros(n)
  {
    if n == 0 {
      assert UNIT == Zeros(15) + [true] + Zeros(0);
    } else {
      SmallPower(n - 1);
      StepsLast(UNIT, n - 1);
      SingleBitStep(n);
    }
  }

  lemma SingleBitStep(n: nat)
    requires 1 <= n <= 15
    ensures Step(Zeros(16 - n) + [true] + Zeros(n - 1)) == Zeros(15 - n) + [true] + Zeros(n)
  {
    var r: Register := Zeros(16 - n) + [true] + Zeros(n - 1);
    assert !r[0];
    assert r[1..] == Zeros(15 - n) + [true] + Zeros(n - 1);
    assert Zeros(n - 1) + [false] == Zeros(n);
  }

  /** Two set bits d apart go undetected exactly when x to the d is 1. */
  lemma PairUndetected(d: nat)
    requires d > 0
    ensures Undetected([true] + Zeros(d - 1) + [true]) <==> d % ORDER == 0
  {
    hide Step;
    var pair := [true] + Zeros(d - 1);
    assert Inject(CLEAR, true) == TOP_BIT;
    FeedConcat(CLEAR, pair, [true]);
    FeedConcat(CLEAR, [true], Zeros(d - 1));
    FeedOne(CLEAR, true);
    FeedZeros(Step(TOP_BIT), d - 1);
    var r := Steps(TOP_BIT, d);
    FeedOne(r, true);
    ClearsAtTopBit(r);
    SmallPower(15);
    assert Zeros(0) + [true] + Zeros(15) == TOP_BIT;
    StepsAdd(UNIT, 15, d);
    StepsAdd(UNIT, d, 15);
    OrderExact(d);
    if r == TOP_BIT {
      StepsInjective(Power(d), UNIT, 15);
    }
  }

  lemma FeedOne(r: Register, bit: bool)
    ensures Feed(r, [bit]) == Step(Inject(r, bit))
  {
  }

  lemma ClearsAtTopBit(r: Register)
    ensures Step(Inject(r, true)) == CLEAR <==> r == TOP_BIT
  {
    assert Step(CLEAR) == CLEAR;
    assert Inject(TOP_BIT, true) == CLEAR;
    if Step(Inject(r, true)) == CLEAR {
      StepInjective(Inject(r, true), CLEAR);
      assert r == Inject(r, true)[0 := true];
    }
  }

  /** The shape of an error of weight two. */
  lemma TwoBits(e: BitString) returns (i: nat, j: nat)
    requires Weight(e) == 2
    ensures i < j < |e|
    ensures e == Zeros(i) + ([true] + Zeros(j - i - 1) + [true]) + Zeros(|e| - j - 1)
  {
    i := FirstSet(e);
    var rest := e[i + 1..];
    var k := FirstSet(rest);
    WeightZero(rest[k + 1..]);
    j := i + 1 + k;
    assert rest == Zeros(k) + [true] + Zeros(|e| - j - 1);
  }

  /** Two flipped bits pass exactly when their distance is a multiple of 32767. */
  lemma DoubleErrorsPassIff(f: seq<Byte>, g: seq<Byte>, i: nat, j: nat)
    requires |f| == |g| && Accepts(f)
    requires i < j < 8 * |f|
    requires Difference(f, g) == Zeros(i) + ([true] + Zeros(j - i - 1) + [true]) + Zeros(8 * |f| - j - 1)
    ensures Accepts(g) <==> (j - i) % ORDER == 0
  {
    hide Accepts, Feed, MessageBits, Undetected;
    AcceptanceOfError(f, g);
    UndetectedCore(i, [true] + Zeros(j - i - 1) + [true], 8 * |f| - j - 1);
    PairUndetected(j - i);
  }

  // ----- Minimum distance -----

  /** Distinct accepted frames of the same length, up to 4095 bytes, differ in at least four bits. */
  lemma MinimumDistance(f: seq<Byte>, g: seq<Byte>)
    requires |f| == |g| <= 4095 && f != g
    requires Accepts(f) && Accepts(g)
    ensures Weight(Difference(f, g)) >= 4
  {
    hide Accepts, Feed, MessageBits, Undetected, Weight;
    var e := Difference(f, g);
    AcceptanceOfError(f, g);
    UndetectedIsEven(e);
    DifferenceIsNonzero(f, g);
    if Weight(e) == 2 {
      var i, j := TwoBits(e);
      DoubleErrorsPassIff(f, g, i, j);
    }
  }

  // The bound is sharp: at 4096 bytes the first bit and the bit 32767 places later go together.

  function XorBytes(f: seq<Byte>, g: seq<Byte>): (h: seq<Byte>)
    requires |f| == |g|
    ensures |h| == |f|
  {
    if f == [] then [] else [f[0] ^ g[0]] + XorBytes(f[1..], g[1..])
  }

  lemma {:induction false} XorBytesBits(f: seq<Byte>, g: seq<Byte>)
    requires |f| == |g|
    ensures MessageBits(XorBytes(f, g)) == Xor(MessageBits(f), MessageBits(g))
  {
    if f != [] {
      hide HighBits, HighByte, ByteBits, Xor;
      XorBytesBits(f[1..], g[1..]);
      ByteBitsXor(f[0], g[0]);
      var h := XorBytes(f, g);
      assert h[0] == f[0] ^ g[0] && h[1..] == XorBytes(f[1..], g[1..]);
      XorConcat(ByteBits(f[0]), MessageBits(f[1..]), ByteBits(g[0]), MessageBits(g[1..]));
    }
  }

  lemma XorConcat(a: BitString, b: BitString, c: BitString, d: BitString)
    requires |a| == |c| && |b| == |d|
    ensures Xor(a + b, c + d) == Xor(a, c) + Xor(b, d)
  {
  }

  lemma ByteBitsXor(a: Byte, b: Byte)
    ensures ByteBits(a ^ b) == Xor(ByteBits(a), ByteBits(b))
  {
    hide HighBits, HighByte;
    HighByteXor(a, b);
    HighBitsXor(HighByte(a), HighByte(b), 8);
  }

  lemma HighByteXor(a: Byte, b: Byte)
    ensures HighByte(a ^ b) == HighByte(a) ^ HighByte(b)
  {
  }

  function NullBytes(n: nat): (z: seq<Byte>)
    ensures |z| == n
  {
    if n == 0 then [] else [0] + NullBytes(n - 1)
  }

  lemma {:induction false} NullBytesBits(n: nat)
    ensures MessageBits(NullBytes(n)) == Zeros(8 * n)
  {
    if n > 0 {
      hide HighBits;
      HighBitsOfZero(8);
      assert HighByte(0) == 0;
      NullBytesBits(n - 1);
      assert NullBytes(n)[1..] == NullBytes(n - 1);
      assert Zeros(8) + Zeros(8 * (n - 1)) == Zeros(8 * n);
    }
  }

  lemma EdgeBytes()
    ensures ByteBits(0x80) == [true] + Zeros(7)
    ensures ByteBits(0x01) == Zeros(7) + [true]
  {
    hide HighBits;
    assert HighByte(0x80) == 0x8000 && HighByte(0x01) == 0x0100;
    HighBitsHead(0x8000, 7);
    HighBitsOfZero(7);
    HighBitsHead(0x0100, 7); HighBitsHead(0x0200, 6); HighBitsHead(0x0400, 5); HighBitsHead(0x0800, 4);
    HighBitsHead(0x1000, 3); HighBitsHead(0x2000, 2); HighBitsHead(0x4000, 1); HighBitsHead(0x8000, 0);
    HighBitsOfZero(0);
  }

  /** The first bit and the bit 32767 places later, in n bytes. */
  function FarPair(n: nat): (e: seq<Byte>)
    requires n >= 4096
    ensures |e| == n
  {
    [0x80] + NullBytes(4094) + [0x01] + NullBytes(n - 4096)
  }

  lemma FarPairBits(n: nat)
    requires n >= 4096
    ensures MessageBits(FarPair(n)) == Zeros(0) + ([true] + Zeros(ORDER - 1) + [true]) + Zeros(8 * n - ORDER - 1)
  {
    hide MessageBits, HighBits, ByteBits, NullBytes;
    var a, b, c, d := [0x80 as Byte], NullBytes(4094), [0x01 as Byte], NullBytes(n - 4096);
    MessageBitsConcat(a + b + c, d);
    MessageBitsConcat(a + b, c);
    MessageBitsConcat(a, b);
    OneByteBits(0x80);
    OneByteBits(0x01);
    EdgeBytes();
    NullBytesBits(4094);
    NullBytesBits(n - 4096);
  }

  lemma {:induction false} WeightConcat(a: BitString, b: BitString)
    ensures Weight(a + b) == Weight(a) + Weight(b)
  {
    if a == [] {
      assert a + b == b;
    } else {
      assert (a + b)[1..] == a[1..] + b;
      WeightConcat(a[1..], b);
    }
  }

  lemma PairWeight(d: nat, n: nat)
    ensures Weight(Zeros(0) + ([true] + Zeros(d) + [true]) + Zeros(n)) == 2
  {
    var pair := [true] + Zeros(d) + [true];
    assert Zeros(0) + pair == pair;
    WeightConcat(pair, Zeros(n));
    WeightConcat([true] + Zeros(d), [true]);
    WeightConcat([true], Zeros(d));
    WeightZero(Zeros(n));
    WeightZero(Zeros(d));
    assert Weight([true]) == 1;
  }

  lemma TooFarApart(n: nat) returns (f: seq<Byte>, g: seq<Byte>)
    requires n >= 4096
    ensures |f| == |g| == n && f != g
    ensures Accepts(f) && Accepts(g) && Weight(Difference(f, g)) == 2
  {
    hide MessageBits, Accepts, Frame, FarPair, Crc;
    var e := FarPair(n);
    f := Frame(NullBytes(n - CRC_LENGTH));
    g := XorBytes(f, e);
    FrameIsAccepted(NullBytes(n - CRC_LENGTH));
    XorBytesBits(f, e);
    FarPairBits(n);
    assert Difference(f, g) == MessageBits(e);
    PairWeight(ORDER - 1, 8 * n - ORDER - 1);
    DoubleErrorsPassIff(f, g, 0, ORDER);
    if f == g {
      XorZero(MessageBits(f), MessageBits(g));
      WeightZero(Difference(f, g));
    }
  }

  /** Frames of n bytes have minimum distance at least four. */
  ghost predicate DistanceFour(n: nat) {
    forall f: seq<Byte>, g: seq<Byte> ::
      |f| == |g| == n && f != g && Accepts(f) && Accepts(g) ==> Weight(Difference(f, g)) >= 4
  }

  /** The exact range of the distance guarantee. */
  lemma DistanceFourIff(n: nat)
    ensures DistanceFour(n) <==> n <= 4095
  {
    hide MessageBits, Accepts, Weight;
    if n <= 4095 {
      forall f: seq<Byte>, g: seq<Byte> | |f| == |g| == n && f != g && Accepts(f) && Accepts(g)
        ensures Weight(Difference(f, g)) >= 4
      {
        MinimumDistance(f, g);
      }
    } else {
      var f, g := TooFarApart(n);
    }
  }
}
