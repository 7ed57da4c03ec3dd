/** Machine words and the bits they hold. */
module Words {
  import opened Bits
  import opened CrcRegister

  type Byte = bv8
  type Word = bv16

  predicate Top(w: Word) { w & 0x8000 != 0 }

  function Doubled(w: Word): Word { w << 1 }

  /** The n highest bits of a word. */
  function HighBits(w: Word, n: nat): (bits: BitString)
    ensures |bits| == n
    decreases n
  {
    if n == 0 then [] else [Top(w)] + HighBits(Doubled(w), n - 1)
  }

  function WordBits(w: Word): Register { HighBits(w, 16) }

  function HighByte(b: Byte): Word { (b as Word) << 8 }

  function ByteBits(b: Byte): (bits: BitString)
    ensures |bits| == 8
  {
    HighBits(HighByte(b), 8)
  }

  /** The bits of a byte string in transmission order. */
  function MessageBits(message: seq<Byte>): (bits: BitString)
    ensures |bits| == 8 * |message|
  {
    if message == [] then [] else ByteBits(message[0]) + MessageBits(message[1..])
  }

  /** The word left after its n highest bits have been shifted out. */
  function Dropped(w: Word, n: nat): Word
    decreases n
  {
    if n == 0 then w else Dropped(Doubled(w), n - 1)
  }

  lemma {:induction false} HighBitsSplit(w: Word, m: nat, n: nat)
    ensures HighBits(w, m + n) == HighBits(w, m) + HighBits(Dropped(w, m), n)
    decreases m
  {
    if m > 0 {
      HighBitsSplit(Doubled(w), m - 1, n);
    }
  }

  lemma TopXor(a: Word, b: Word)
    ensures Top(a ^ b) == (Top(a) != Top(b))
  {
  }

  lemma DoubledXor(a: Word, b: Word)
    ensures Doubled(a ^ b) == Doubled(a) ^ Doubled(b)
  {
  }

  lemma HighBitsHead(w: Word, n: nat)
    ensures HighBits(w, n + 1) == [Top(w)] + HighBits(Doubled(w), n)
  {
  }

  lemma {:induction false} HighBitsXor(a: Word, b: Word, n: nat)
    ensures HighBits(a ^ b, n) == Xor(HighBits(a, n), HighBits(b, n))
    decreases n
  {
    if n > 0 {
      hide Top, Doubled, HighBits, Xor;
      HighBitsHead(a ^ b, n - 1);
      HighBitsHead(a, n - 1);
      HighBitsHead(b, n - 1);
      TopXor(a, b);
      DoubledXor(a, b);
      HighBitsXor(Doubled(a), Doubled(b), n - 1);
      XorCons(Top(a), HighBits(Doubled(a), n - 1), Top(b), HighBits(Doubled(b), n - 1));
    }
  }

  lemma {:induction false} HighBitsOfZero(n: nat)
    ensures HighBits(0, n) == Zeros(n)
    decreases n
  {
    if n > 0 {
      assert (0 as Word) << 1 == 0;
      HighBitsOfZero(n - 1);
    }
  }

  lemma {:induction false} DroppedAdd(w: Word, m: nat, n: nat)
    ensures Dropped(w, m + n) == Dropped(Dropped(w, m), n)
    decreases m
  {
    if m > 0 {
      DroppedAdd(Doubled(w), m - 1, n);
    }
  }

  lemma DroppedFour(w: Word)
    ensures Dropped(w, 4) == w << 4
  {
    assert Dropped(w, 2) == w << 2;
    assert Dropped(w << 2, 2) == w << 4;
    DroppedAdd(w, 2, 2);
  }

  lemma DroppedSixteen(w: Word)
    ensures Dropped(w, 8) == w << 8
    ensures Dropped(w, 16) == 0
  {
    hide Dropped;
    DroppedFour(w);
    DroppedFour(w << 4);
    DroppedFour(w << 8);
    DroppedFour(w << 12);
    DroppedAdd(w, 4, 4);
    DroppedAdd(w, 8, 4);
    DroppedAdd(w, 12, 4);
  }

  lemma {:induction false} HighBitsZero(w: Word, n: nat)
    requires HighBits(w, n) == Zeros(n)
    requires Dropped(w, n) == 0
    ensures w == 0
    decreases n
  {
    if n > 0 {
      assert HighBits(w, n)[0] == Top(w) && !Zeros(n)[0];
      assert HighBits(w, n)[1..] == HighBits(Doubled(w), n - 1);
      assert Zeros(n)[1..] == Zeros(n - 1);
      HighBitsZero(Doubled(w), n - 1);
    }
  }

  lemma WordBitsInjective(a: Word, b: Word)
    requires WordBits(a) == WordBits(b)
    ensures a == b
  {
    HighBitsXor(a, b, 16);
    XorZero(WordBits(a), WordBits(b));
    DroppedSixteen(a ^ b);
    HighBitsZero(a ^ b, 16);
  }

  lemma WordBitsShift(w: Word)
    ensures WordBits(Doubled(w)) == Shifted(WordBits(w))
  {
    var bits := WordBits(w);
    HighBitsSplit(w, 16, 1);
    DroppedSixteen(w);
    HighBitsOfZero(1);
    assert HighBits(w, 17)[1..] == WordBits(Doubled(w));
    assert (bits + [false])[1..] == bits[1..] + [false];
  }

  /** One pass of the bit loop. */
  function ShiftWord(w: Word): Word {
    if w & 0x8000 != 0 then Doubled(w) ^ 0x1021 else Doubled(w)
  }

  lemma PolynomialWord()
    ensures WordBits(0x1021) == POLYNOMIAL
  {
    hide HighBits;
    HighBitsHead(0x1021, 15); HighBitsHead(0x2042, 14); HighBitsHead(0x4084, 13); HighBitsHead(0x8108, 12);
    HighBitsHead(0x0210, 11); HighBitsHead(0x0420, 10); HighBitsHead(0x0840, 9); HighBitsHead(0x1080, 8);
    HighBitsHead(0x2100, 7); HighBitsHead(0x4200, 6); HighBitsHead(0x8400, 5); HighBitsHead(0x0800, 4);
    HighBitsHead(0x1000, 3); HighBitsHead(0x2000, 2); HighBitsHead(0x4000, 1); HighBitsHead(0x8000, 0);
    HighBitsOfZero(0);
  }

  lemma ShiftWordIsStep(w: Word)
    ensures WordBits(ShiftWord(w)) == Step(WordBits(w))
  {
    WordBitsShift(w);
    HighBitsXor(Doubled(w), 0x1021, 16);
    PolynomialWord();
    assert WordBits(w)[0] == Top(w);
    hide HighBits, Shifted;
  }

  lemma PresetWord()
    ensures WordBits(0xFFFF) == PRESET
  {
    hide HighBits;
    HighBitsHead(0xFFFF, 15); HighBitsHead(0xFFFE, 14); HighBitsHead(0xFFFC, 13); HighBitsHead(0xFFF8, 12);
    HighBitsHead(0xFFF0, 11); HighBitsHead(0xFFE0, 10); HighBitsHead(0xFFC0, 9); HighBitsHead(0xFF80, 8);
    HighBitsHead(0xFF00, 7); HighBitsHead(0xFE00, 6); HighBitsHead(0xFC00, 5); HighBitsHead(0xF800, 4);
    HighBitsHead(0xF000, 3); HighBitsHead(0xE000, 2); HighBitsHead(0xC000, 1); HighBitsHead(0x8000, 0);
    HighBitsOfZero(0);
  }

  lemma UnitWord()
    ensures WordBits(1) == UNIT
  {
    hide HighBits;
    HighBitsHead(0x0001, 15); HighBitsHead(0x0002, 14); HighBitsHead(0x0004, 13); HighBitsHead(0x0008, 12);
    HighBitsHead(0x0010, 11); HighBitsHead(0x0020, 10); HighBitsHead(0x0040, 9); HighBitsHead(0x0080, 8);
    HighBitsHead(0x0100, 7); HighBitsHead(0x0200, 6); HighBitsHead(0x0400, 5); HighBitsHead(0x0800, 4);
    HighBitsHead(0x1000, 3); HighBitsHead(0x2000, 2); HighBitsHead(0x4000, 1); HighBitsHead(0x8000, 0);
    HighBitsOfZero(0);
  }
}
