/** CRC-16/CCITT-FALSE over bytes, and the frames that carry it as a trailer. */
module CrcCalculator {
  import opened Bits
  import opened CrcRegister
  import opened Words
  import opened BytesUtilities
  import opened Sizes

  const CRC_LENGTH: nat := 2

  datatype ProtocolError = InputBufferTooSmall | OutputBufferTooSmall | CrcMismatch

  datatype Result<T> = Ok(value: T) | Err(error: ProtocolError)

  function ShiftTimes(crc: Word, n: nat): Word {
    if n == 0 then crc else ShiftWord(ShiftTimes(crc, n - 1))
  }

  /** The checksum of a message, byte by byte. */
  function Crc(message: seq<Byte>): Word {
    if message == [] then 0xFFFF
    else
      var last := |message| - 1;
      ShiftTimes(Crc(message[..last]) ^ HighByte(message[last]), 8)
  }

  lemma ShiftTimesNext(crc: Word, n: nat)
    ensures ShiftTimes(crc, 0) == crc
    ensures ShiftTimes(crc, n + 1) == ShiftWord(ShiftTimes(crc, n))
  {
  }

  lemma CrcSnoc(message: seq<Byte>, i: nat)
    requires i < |message|
    ensures Crc(message[..0]) == 0xFFFF
    ensures Crc(message[..i + 1]) == ShiftTimes(Crc(message[..i]) ^ HighByte(message[i]), 8)
  {
    hide ShiftTimes, HighByte;
    assert message[..i + 1][..i] == message[..i];
  }

  lemma CrcOfEmpty()
    ensures Crc([]) == 0xFFFF
  {
  }

  /** The body of the bit loop. */
  method ShiftBit(crc: Word) returns (shifted: Word)
    ensures shifted == ShiftWord(crc)
  {
    var highBitSet := crc & 0x8000 != 0;
    shifted := crc << 1;
    if highBitSet {
      shifted := shifted ^ 0x1021;
    }
  }

  /** The inner loop over the eight bits of a loaded byte. */
  method ShiftEightBits(loaded: Word) returns (crc: Word)
    ensures crc == ShiftTimes(loaded, 8)
  {
    hide ShiftTimes, ShiftWord;
    crc := loaded;
    ShiftTimesNext(loaded, 0);
    for bit := 0 to 8
      invariant crc == ShiftTimes(loaded, bit)
    {
      crc := ShiftBit(crc);
      ShiftTimesNext(loaded, bit);
    }
  }

  method CalculateCrc16CcittFalse(input: seq<Byte>) returns (crc: Word)
    ensures crc == Crc(input)
  {
    hide Crc, ShiftTimes, HighByte;
    crc := 0xFFFF;
    CrcOfEmpty();
    assert input[..0] == [];
    for i := 0 to |input|
      invariant crc == Crc(input[..i])
    {
      crc := crc ^ HighByte(input[i]);
      crc := ShiftEightBits(crc);
      CrcSnoc(input, i);
    }
    assert input[..|input|] == input;
  }

  lemma {:induction false} ShiftTimesIsSteps(crc: Word, n: nat)
    ensures WordBits(ShiftTimes(crc, n)) == Steps(WordBits(crc), n)
  {
    hide ShiftWord, HighBits, Step;
    if n > 0 {
      ShiftTimesIsSteps(crc, n - 1);
      ShiftWordIsStep(ShiftTimes(crc, n - 1));
      StepsAdd(WordBits(crc), n - 1, 1);
      OneStep(Steps(WordBits(crc), n - 1));
    }
  }

  lemma OneStep(r: Register)
    ensures Steps(r, 1) == Step(r)
  {
  }

  lemma HighByteAligned(b: Byte)
    ensures WordBits(HighByte(b)) == Aligned(ByteBits(b))
  {
    hide HighBits;
    HighBitsSplit(HighByte(b), 8, 8);
    DroppedSixteen(HighByte(b));
    assert HighByte(b) << 8 == 0;
    HighBitsOfZero(8);
  }

  /** Loading a byte at the top and shifting eight times feeds its eight bits. */
  lemma ByteIsFed(crc: Word, b: Byte)
    ensures WordBits(ShiftTimes(crc ^ HighByte(b), 8)) == Feed(WordBits(crc), ByteBits(b))
  {
    hide ShiftTimes, HighBits, HighByte;
    ShiftTimesIsSteps(crc ^ HighByte(b), 8);
    HighBitsXor(crc, HighByte(b), 16);
    HighByteAligned(b);
    FeedAligned(WordBits(crc), ByteBits(b));
  }

  lemma {:induction false} MessageBitsConcat(a: seq<Byte>, b: seq<Byte>)
    ensures MessageBits(a + b) == MessageBits(a) + MessageBits(b)
  {
    if a == [] {
      assert a + b == b;
    } else {
      assert (a + b)[1..] == a[1..] + b;
      MessageBitsConcat(a[1..], b);
    }
  }

  lemma OneByteBits(b: Byte)
    ensures MessageBits([b]) == ByteBits(b)
  {
    assert [b][1..] == [];
    assert MessageBits([]) == [];
  }

  /** The byte loop is the bit-serial register, preset to ones. */
  lemma {:induction false} CrcIsFeed(message: seq<Byte>)
    ensures WordBits(Crc(message)) == Feed(PRESET, MessageBits(message))
  {
    if message == [] {
      PresetWord();
    } else {
      hide ShiftTimes, HighByte, HighBits, Feed, ByteBits, MessageBits;
      var last := |message| - 1;
      var rest, b := message[..last], message[last];
      CrcIsFeed(rest);
      ByteIsFed(Crc(rest), b);
      assert message == rest + [b];
      MessageBitsConcat(rest, [b]);
      OneByteBits(b);
      FeedConcat(PRESET, MessageBits(rest), ByteBits(b));
    }
  }

  /** The check value of CRC-16/CCITT-FALSE: the ASCII digits 1 to 9 give 0x29B1. */
  lemma CheckValue()
    ensures Crc([0x31, 0x32, 0x33, 0x34, 0x35, 0x36, 0x37, 0x38, 0x39]) == 0x29B1
  {
    hide Crc;
    var m: seq<Byte> := [0x31, 0x32, 0x33, 0x34, 0x35, 0x36, 0x37, 0x38, 0x39];
    assert m[..0] == [];
    CrcOfEmpty();
    CrcPrefix(m, 0, 0x31, 0xFFFF, 0xC782);
    CrcPrefix(m, 1, 0x32, 0xC782, 0x3DBA);
    CrcPrefix(m, 2, 0x33, 0x3DBA, 0x5BCE);
    CrcPrefix(m, 3, 0x34, 0x5BCE, 0x5349);
    CrcPrefix(m, 4, 0x35, 0x5349, 0x4560);
    CrcPrefix(m, 5, 0x36, 0x4560, 0x2EF4);
    CrcPrefix(m, 6, 0x37, 0x2EF4, 0x7718);
    CrcPrefix(m, 7, 0x38, 0x7718, 0xA12B);
    CrcPrefix(m, 8, 0x39, 0xA12B, 0x29B1);
    assert m[..9] == m;
  }

  lemma CrcPrefix(m: seq<Byte>, i: nat, b: Byte, before: Word, after: Word)
    requires i < |m| && m[i] == b
    requires Crc(m[..i]) == before
    requires FourShifts(FourShifts(before ^ HighByte(b))) == after
    ensures Crc(m[..i + 1]) == after
  {
    hide HighByte, ShiftWord, Crc;
    CrcSnoc(m, i);
    var loaded := before ^ HighByte(b);
    FourMoreTimes(loaded, 0);
    FourMoreTimes(loaded, 4);
  }

  lemma FourMoreTimes(crc: Word, n: nat)
    ensures ShiftTimes(crc, 0) == crc
    ensures ShiftTimes(crc, n + 4) == FourShifts(ShiftTimes(crc, n))
  {
    hide ShiftWord;
    ShiftTimesNext(crc, n);
    ShiftTimesNext(crc, n + 1);
    ShiftTimesNext(crc, n + 2);
    ShiftTimesNext(crc, n + 3);
  }

  function FourShifts(w: Word): Word { ShiftWord(ShiftWord(ShiftWord(ShiftWord(w)))) }

  // ----- Frames: a payload and its checksum, high byte first -----

  function Trailer(crc: Word): (t: seq<Byte>)
    ensures |t| == CRC_LENGTH
  {
    [GetHighByte(crc), GetLowByte(crc)]
  }

  function Frame(payload: seq<Byte>): (f: seq<Byte>)
    ensures |f| == |payload| + CRC_LENGTH
  {
    payload + Trailer(Crc(payload))
  }

  /** What removeCRC compares. */
  predicate Accepts(frame: seq<Byte>) {
    |frame| >= CRC_LENGTH &&
    var n := |frame| - CRC_LENGTH;
    BindTwoBytes(frame[n], frame[n + 1]) == Crc(frame[..n])
  }

  /** Size arithmetic wraps, as it does on size_t. */
  function MinimumAddingOutputBufferSize(inputBufferSize: nat): nat {
    (inputBufferSize + CRC_LENGTH) % SIZE_RANGE
  }

  function MinimumRemovingOutputBufferSize(inputBufferSize: nat): Result<nat> {
    if inputBufferSize < CRC_LENGTH then Err(InputBufferTooSmall) else Ok(inputBufferSize - CRC_LENGTH)
  }

  /** The two size functions undo each other exactly where the sum does not wrap. */
  lemma SizesRoundTrip(n: nat)
    requires n < SIZE_RANGE
    ensures MinimumRemovingOutputBufferSize(MinimumAddingOutputBufferSize(n)) == Ok(n) <==> n + CRC_LENGTH < SIZE_RANGE
  {
  }

  lemma TrailerPlaced(front: seq<Byte>, rest: seq<Byte>, high: Byte, low: Byte)
    requires |rest| >= 2
    ensures (front + rest)[|front| := high][|front| + 1 := low] == front + [high, low] + rest[2..]
  {
  }

  lemma AddingSize(n: nat)
    requires n + CRC_LENGTH < SIZE_RANGE
    ensures MinimumAddingOutputBufferSize(n) == n + CRC_LENGTH
  {
  }

  /** On success the result is the length of the prefix of the output that holds the frame. */
  method AddCrc(input: seq<Byte>, output: array<Byte>) returns (r: Result<nat>)
    requires |input| + CRC_LENGTH < SIZE_RANGE
    modifies output
    ensures r == if input == [] then Err(InputBufferTooSmall)
                 else if |input| + CRC_LENGTH > output.Length then Err(OutputBufferTooSmall)
                 else Ok(|input| + CRC_LENGTH)
    ensures r.Ok? ==> output[..] == Frame(input) + old(output[r.value..])
    ensures r.Err? ==> output[..] == old(output[..])
  {
    hide Crc, GetHighByte, GetLowByte, MinimumAddingOutputBufferSize;
    if |input| == 0 {
      return Err(InputBufferTooSmall);
    }
    AddingSize(|input|);
    if MinimumAddingOutputBufferSize(|input|) > output.Length {
      return Err(OutputBufferTooSmall);
    }
    ghost var rest := output[|input|..];
    CopyInto(input, output);
    ghost var copied := output[..];
    var lastByte := |input|;
    var crc := CalculateCrc16CcittFalse(input);
    output[lastByte] := GetHighByte(crc);
    output[lastByte + 1] := GetLowByte(crc);
    assert output[..] == copied[lastByte := GetHighByte(crc)][lastByte + 1 := GetLowByte(crc)];
    TrailerPlaced(input, rest, GetHighByte(crc), GetLowByte(crc));
    assert rest[2..] == old(output[lastByte + 2..]);
    r := Ok(lastByte + 2);
  }

  /** On success the result is the length of the prefix of the output that holds the payload. */
  method RemoveCrc(input: seq<Byte>, output: array<Byte>) returns (r: Result<nat>)
    modifies output
    ensures r == if |input| < CRC_LENGTH then Err(InputBufferTooSmall)
                 else if |input| - CRC_LENGTH > output.Length then Err(OutputBufferTooSmall)
                 else if !Accepts(input) then Err(CrcMismatch)
                 else Ok(|input| - CRC_LENGTH)
    ensures r.Ok? ==> output[..] == input[..r.value] + old(output[r.value..])
    ensures r.Err? ==> output[..] == old(output[..])
  {
    var minimumOutputSize := MinimumRemovingOutputBufferSize(|input|);
    if minimumOutputSize.Err? {
      return minimumOutputSize;
    }
    var n := minimumOutputSize.value;
    if n > output.Length {
      return Err(OutputBufferTooSmall);
    }
    var actualCrc := BindTwoBytes(input[n], input[n + 1]);
    var expectedCrc := CalculateCrc16CcittFalse(input[..n]);
    if actualCrc != expectedCrc {
      return Err(CrcMismatch);
    }
    CopyInto(input[..n], output);
    r := Ok(n);
  }

  /** memcpy to the front of a large enough buffer. */
  method CopyInto(source: seq<Byte>, target: array<Byte>)
    requires |source| <= target.Length
    modifies target
    ensures target[..] == source + old(target[|source|..])
  {
    for i := 0 to |source|
      invariant target[..i] == source[..i]
      invariant target[i..] == old(target[i..])
    {
      target[i] := source[i];
    }
  }
}
