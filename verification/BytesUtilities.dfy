/** Splitting two bytes in big-endian order and joining them again. */
module BytesUtilities {
  import opened Bits
  import opened Words

  function GetHighByte(twoBytes: Word): Byte {
    (twoBytes >> 8) as Byte
  }

  function GetLowByte(twoBytes: Word): Byte {
    (twoBytes & 0xFF) as Byte
  }

  function BindTwoBytes(high: Byte, low: Byte): Word {
    ((high as Word) << 8) | (low as Word)
  }

  lemma BindSplits(twoBytes: Word)
    ensures BindTwoBytes(GetHighByte(twoBytes), GetLowByte(twoBytes)) == twoBytes
  {
  }

  lemma SplitBinds(high: Byte, low: Byte)
    ensures GetHighByte(BindTwoBytes(high, low)) == high
    ensures GetLowByte(BindTwoBytes(high, low)) == low
  {
  }

  /** The high byte is sent first: the two bytes in order carry the word's bits in order. */
  lemma BoundBits(high: Byte, low: Byte)
    ensures WordBits(BindTwoBytes(high, low)) == ByteBits(high) + ByteBits(low)
  {
    hide HighBits, Xor, Dropped, BindTwoBytes, HighByte;
    var w, h, l := BindTwoBytes(high, low), HighByte(high), low as Word;
    BoundIsSum(high, low);
    HighBitsSplit(w, 8, 8);
    DroppedSixteen(w);
    HighBitsXor(h, l, 8);
    LowHasNoHighBits(low);
    XorZeros(HighBits(h, 8));
  }

  lemma BoundIsSum(high: Byte, low: Byte)
    ensures BindTwoBytes(high, low) == HighByte(high) ^ (low as Word)
    ensures BindTwoBytes(high, low) << 8 == HighByte(low)
  {
  }

  lemma XorZeros(a: BitString)
    ensures Xor(a, Zeros(|a|)) == a
  {
  }

  lemma LowHasNoHighBits(low: Byte)
    ensures HighBits(low as Word, 8) == Zeros(8)
  {
    TopClear(low);
    var w := low as Word;
    FourClear(w, 4);
    DroppedFour(w);
    FourClear(w << 4, 0);
    assert HighBits(w << 4 << 4, 0) == [];
    assert Zeros(4) + Zeros(4) + [] == Zeros(8);
  }

  lemma TopClear(low: Byte)
    ensures (low as Word) & 0xF000 == 0 && ((low as Word) << 4) & 0xF000 == 0
  {
  }

  lemma FourClear(w: Word, n: nat)
    requires w & 0xF000 == 0
    ensures HighBits(w, n + 4) == Zeros(4) + HighBits(w << 4, n)
  {
    HighBitsSplit(w, 4, n);
    DroppedFour(w);
    HighBitsSplit(w, 2, 2);
    assert Dropped(w, 2) == w << 2;
    assert HighBits(w, 2) == Zeros(2);
    assert HighBits(w << 2, 2) == Zeros(2);
  }
}
