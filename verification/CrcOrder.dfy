/** The powers of x modulo the generator: x has order exactly 32767 = 7 * 31 * 151. */
module CrcOrder {
  import opened Bits
  import opened CrcRegister
  import opened Words

  const ORDER: nat := 32767

  /** The polynomial with the given coefficients, highest first, times a. */
  function Combine(coefficients: BitString, a: Register): Register
    decreases |coefficients|
  {
    var n := |coefficients|;
    if n == 0 then CLEAR
    else
      var higher := Step(Combine(coefficients[..n - 1], a));
      if coefficients[n - 1] then Xor(higher, a) else higher
  }

  /** x to the n. */
  function Power(n: nat): Register { Steps(UNIT, n) }

  lemma {:induction false} StepsLast(r: Register, n: nat)
    ensures Steps(r, n + 1) == Step(Steps(r, n))
  {
    StepsAdd(r, n, 1);
  }

  lemma XorSwap(a: Register, b: Register, c: Register, d: Register)
    ensures Xor(Xor(a, b), Xor(c, d)) == Xor(Xor(a, c), Xor(b, d))
  {
  }

  lemma {:induction false} CombineStep(p: BitString, a: Register)
    ensures Combine(p, Step(a)) == Step(Combine(p, a))
    decreases |p|
  {
    if p == [] {
      StepsClear(1);
      assert Steps(CLEAR, 1) == Step(CLEAR);
    } else {
      CombineStep(p[..|p| - 1], a);
      StepXor(Step(Combine(p[..|p| - 1], a)), a);
    }
  }

  lemma {:induction false} CombineXor(p: BitString, a: Register, b: Register)
    ensures Combine(p, Xor(a, b)) == Xor(Combine(p, a), Combine(p, b))
    decreases |p|
  {
    if p == [] {
      XorZero(CLEAR, CLEAR);
    } else {
      var q := p[..|p| - 1];
      CombineXor(q, a, b);
      StepXor(Combine(q, a), Combine(q, b));
      XorSwap(Step(Combine(q, a)), Step(Combine(q, b)), a, b);
    }
  }

  lemma {:induction false} CombineClear(p: BitString)
    ensures Combine(p, CLEAR) == CLEAR
    decreases |p|
  {
    if p != [] {
      CombineClear(p[..|p| - 1]);
      assert Step(CLEAR) == CLEAR;
      assert Xor(CLEAR, CLEAR) == CLEAR;
    }
  }

  lemma {:induction false} CombineSteps(p: BitString, a: Register, n: nat)
    ensures Combine(p, Steps(a, n)) == Steps(Combine(p, a), n)
    decreases n
  {
    if n > 0 {
      CombineSteps(p, Step(a), n - 1);
      CombineStep(p, a);
    }
  }

  lemma {:induction false} CombineCommutes(p: BitString, q: BitString, a: Register)
    ensures Combine(p, Combine(q, a)) == Combine(q, Combine(p, a))
    decreases |q|
  {
    if q == [] {
      CombineClear(p);
    } else {
      var h := q[..|q| - 1];
      CombineCommutes(p, h, a);
      CombineStep(p, Combine(h, a));
      CombineXor(p, Step(Combine(h, a)), a);
    }
  }

  /** Fewer than seventeen coefficients times the polynomial 1 are those coefficients. */
  lemma {:induction false} CombineUnit(p: BitString)
    requires |p| <= 16
    ensures Combine(p, UNIT) == Zeros(16 - |p|) + p
    decreases |p|
  {
    if p == [] {
      assert Zeros(16) + p == CLEAR;
    } else {
      var q := p[..|p| - 1];
      CombineUnit(q);
      var higher: Register := Zeros(16 - |q|) + q;
      assert Step(higher) == Zeros(16 - |p|) + q + [false];
      assert p == q + [p[|p| - 1]];
    }
  }

  /** n steps multiply by x to the n. */
  lemma StepsIsCombine(a: Register, n: nat)
    ensures Steps(a, n) == Combine(Power(n), a)
  {
    CombineUnit(a);
    CombineUnit(Power(n));
    assert Zeros(0) + a == a;
    assert Zeros(0) + Power(n) == Power(n);
    calc {
      Steps(a, n);
      Steps(Combine(a, UNIT), n);
      { CombineSteps(a, UNIT, n); }
      Combine(a, Power(n));
      Combine(a, Combine(Power(n), UNIT));
      { CombineCommutes(a, Power(n), UNIT); }
      Combine(Power(n), Combine(a, UNIT));
      Combine(Power(n), a);
    }
  }

  lemma PowerAdd(m: nat, n: nat)
    ensures Power(m + n) == Combine(Power(n), Power(m))
  {
    StepsAdd(UNIT, m, n);
    StepsIsCombine(Power(m), n);
  }

  function NextSum(sum: Register, coefficient: bool, a: Register): Register {
    if coefficient then Xor(Step(sum), a) else Step(sum)
  }

  lemma CombineSnoc(p: BitString, c: bool, a: Register)
    ensures Combine(p + [c], a) == NextSum(Combine(p, a), c, a)
  {
    assert (p + [c])[..|p|] == p;
  }

  /** A product under way: the sum so far and the coefficients still to come. */
  datatype Horner = Horner(sum: Word, rest: Word)

  function SumWord(w: Word, coefficient: bool, b: Word): Word {
    if coefficient then w ^ b else w
  }

  function Turn(h: Horner, b: Word): Horner {
    Horner(SumWord(ShiftWord(h.sum), Top(h.rest), b), Doubled(h.rest))
  }

  function TwoTurns(h: Horner, b: Word): Horner { Turn(Turn(h, b), b) }

  function FourTurns(h: Horner, b: Word): Horner { TwoTurns(TwoTurns(h, b), b) }

  function EightTurns(h: Horner, b: Word): Horner { FourTurns(FourTurns(h, b), b) }

  /** The product of two words as polynomials modulo the generator. */
  function Product(a: Word, b: Word): Word {
    EightTurns(EightTurns(Horner(0, a), b), b).sum
  }

  /** The coefficients done are in the sum, those to come lead the rest. */
  ghost predicate Progress(h: Horner, b: Word, done: BitString, todo: BitString) {
    WordBits(h.sum) == Combine(done, WordBits(b)) && HighBits(h.rest, |todo|) == todo
  }

  lemma SumBits(w: Word, coefficient: bool, b: Word)
    ensures WordBits(SumWord(w, coefficient, b)) == if coefficient then Xor(WordBits(w), WordBits(b)) else WordBits(w)
  {
    hide HighBits;
    HighBitsXor(w, b, 16);
  }

  lemma TurnSum(sum: Word, coefficient: bool, b: Word)
    ensures WordBits(SumWord(ShiftWord(sum), coefficient, b)) == NextSum(WordBits(sum), coefficient, WordBits(b))
  {
    hide ShiftWord, SumWord, HighBits, Step, Xor, Doubled;
    ShiftWordIsStep(sum);
    SumBits(ShiftWord(sum), coefficient, b);
  }

  lemma RestTail(rest: Word, todo: BitString)
    requires todo != [] && HighBits(rest, |todo|) == todo
    ensures Top(rest) == todo[0]
    ensures HighBits(Doubled(rest), |todo| - 1) == todo[1..]
  {
    hide HighBits, Top, Doubled;
    HighBitsHead(rest, |todo| - 1);
  }

  lemma TurnProgress(h: Horner, b: Word, done: BitString, todo: BitString)
    requires Progress(h, b, done, todo) && todo != []
    ensures Progress(Turn(h, b), b, done + [todo[0]], todo[1..])
  {
    hide ShiftWord, SumWord, HighBits, NextSum, Combine, Top, WordBits, Doubled;
    RestTail(h.rest, todo);
    TurnSum(h.sum, todo[0], b);
    CombineSnoc(done, todo[0], WordBits(b));
  }

  lemma TwoTurnsProgress(h: Horner, b: Word, done: BitString, todo: BitString)
    requires Progress(h, b, done, todo) && |todo| >= 2
    ensures Progress(TwoTurns(h, b), b, done + todo[..2], todo[2..])
  {
    hide Turn, Progress;
    TurnProgress(h, b, done, todo);
    TurnProgress(Turn(h, b), b, done + [todo[0]], todo[1..]);
    assert done + [todo[0]] + [todo[1..][0]] == done + todo[..2];
    assert todo[1..][1..] == todo[2..];
  }

  lemma FourTurnsProgress(h: Horner, b: Word, done: BitString, todo: BitString)
    requires Progress(h, b, done, todo) && |todo| >= 4
    ensures Progress(FourTurns(h, b), b, done + todo[..4], todo[4..])
  {
    hide TwoTurns, Progress;
    TwoTurnsProgress(h, b, done, todo);
    TwoTurnsProgress(TwoTurns(h, b), b, done + todo[..2], todo[2..]);
    assert done + todo[..2] + todo[2..][..2] == done + todo[..4];
    assert todo[2..][2..] == todo[4..];
  }

  lemma EightTurnsProgress(h: Horner, b: Word, done: BitString, todo: BitString)
    requires Progress(h, b, done, todo) && |todo| >= 8
    ensures Progress(EightTurns(h, b), b, done + todo[..8], todo[8..])
  {
    hide FourTurns, Progress;
    FourTurnsProgress(h, b, done, todo);
    FourTurnsProgress(FourTurns(h, b), b, done + todo[..4], todo[4..]);
    assert done + todo[..4] + todo[4..][..4] == done + todo[..8];
    assert todo[4..][4..] == todo[8..];
  }

  lemma ProductIsCombine(a: Word, b: Word)
    ensures WordBits(Product(a, b)) == Combine(WordBits(a), WordBits(b))
  {
    hide EightTurns, HighBits;
    var h, todo := Horner(0, a), WordBits(a);
    HighBitsOfZero(16);
    EightTurnsProgress(h, b, [], todo);
    EightTurnsProgress(EightTurns(h, b), b, [] + todo[..8], todo[8..]);
    assert [] + todo[..8] + todo[8..][..8] == todo;
  }

  /** Word w holds x to the n. */
  ghost predicate Holds(n: nat, w: Word) { WordBits(w) == Power(n) }

  lemma ProductHolds(m: nat, a: Word, n: nat, b: Word, product: Word)
    requires Holds(m, a) && Holds(n, b)
    requires Product(b, a) == product
    ensures Holds(m + n, product)
  {
    hide Product, HighBits;
    PowerAdd(m, n);
    ProductIsCombine(b, a);
  }

  lemma SmallPowers()
    ensures Holds(1, 0x0002) && Holds(8, 0x0100) && Holds(16, 0x1021) && Holds(32, 0x3730) && Holds(64, 0xB861)
  {
    hide Holds;
    PowerOne();
    ProductHolds(1, 0x0002, 1, 0x0002, 0x0004);
    ProductHolds(2, 0x0004, 2, 0x0004, 0x0010);
    ProductHolds(4, 0x0010, 4, 0x0010, 0x0100);
    ProductHolds(8, 0x0100, 8, 0x0100, 0x1021);
    ProductHolds(16, 0x1021, 16, 0x1021, 0x3730);
    ProductHolds(32, 0x3730, 32, 0x3730, 0xB861);
  }

  lemma PowerOne()
    ensures Holds(1, 0x0002)
  {
    UnitWord();
    ShiftWordIsStep(1);
    assert ShiftWord(1) == 2;
    hide HighBits;
    assert Steps(UNIT, 1) == Step(UNIT);
  }

  lemma MiddlePowers()
    ensures Holds(128, 0xAEFC) && Holds(512, 0x13FC) && Holds(1024, 0x36C4) && Holds(4096, 0xAA9E)
  {
    hide Holds;
    SmallPowers();
    ProductHolds(64, 0xB861, 64, 0xB861, 0xAEFC);
    ProductHolds(128, 0xAEFC, 128, 0xAEFC, 0x8E29);
    ProductHolds(256, 0x8E29, 256, 0x8E29, 0x13FC);
    ProductHolds(512, 0x13FC, 512, 0x13FC, 0x36C4);
    ProductHolds(1024, 0x36C4, 1024, 0x36C4, 0xFD50);
    ProductHolds(2048, 0xFD50, 2048, 0xFD50, 0xAA9E);
  }

  lemma LargePower()
    ensures Holds(32768, 0x0002)
  {
    hide Holds;
    MiddlePowers();
    ProductHolds(4096, 0xAA9E, 4096, 0xAA9E, 0x881C);
    ProductHolds(8192, 0x881C, 8192, 0x881C, 0x4458);
    ProductHolds(16384, 0x4458, 16384, 0x4458, 0x0002);
  }

  // x to each maximal proper divisor of the order: 32767/151, 32767/31 and 32767/7.

  lemma Power217()
    ensures Holds(217, 0x48E3)
  {
    hide Holds;
    SmallPowers();
    MiddlePowers();
    ProductHolds(128, 0xAEFC, 64, 0xB861, 0x650B);
    ProductHolds(192, 0x650B, 16, 0x1021, 0x45B4);
    ProductHolds(208, 0x45B4, 8, 0x0100, 0xAC61);
    ProductHolds(216, 0xAC61, 1, 0x0002, 0x48E3);
  }

  lemma Power1057()
    ensures Holds(1057, 0xF2AF)
  {
    hide Holds;
    SmallPowers();
    MiddlePowers();
    ProductHolds(1024, 0x36C4, 32, 0x3730, 0xF147);
    ProductHolds(1056, 0xF147, 1, 0x0002, 0xF2AF);
  }

  lemma Power4681()
    ensures Holds(4681, 0x2C42)
  {
    hide Holds;
    SmallPowers();
    MiddlePowers();
    ProductHolds(4096, 0xAA9E, 512, 0x13FC, 0x54A0);
    ProductHolds(4608, 0x54A0, 64, 0xB861, 0x0106);
    ProductHolds(4672, 0x0106, 8, 0x0100, 0x1621);
    ProductHolds(4680, 0x1621, 1, 0x0002, 0x2C42);
  }

  lemma NotUnit(n: nat, w: Word)
    requires Holds(n, w) && w != 1
    ensures Power(n) != UNIT
  {
    hide HighBits;
    UnitWord();
    if Power(n) == UNIT {
      WordBitsInjective(w, 1);
    }
  }

  lemma OrderReached()
    ensures Power(ORDER) == UNIT
  {
    LargePower();
    PowerOne();
    StepsLast(UNIT, ORDER);
    StepInjective(Power(ORDER), UNIT);
  }

  lemma PowerPast(m: nat, n: nat)
    requires Power(m) == UNIT
    ensures Power(m + n) == Power(n)
  {
    StepsAdd(UNIT, m, n);
  }

  lemma {:induction false} PowerMultiple(m: nat, k: nat)
    requires Power(m) == UNIT
    ensures Power(k * m) == UNIT
    decreases k
  {
    if k > 0 {
      PowerMultiple(m, k - 1);
      assert k * m == m + (k - 1) * m;
      PowerPast(m, (k - 1) * m);
    } else {
      assert k * m == 0;
    }
  }

  ghost predicate HasNoDivisor(p: nat, bound: nat) {
    forall c {:trigger p % c} :: 1 < c < bound ==> p % c != 0
  }

  /** Once m * p and m * c clear, with p prime and c short of it, m clears already. */
  lemma {:induction false} Descend(m: nat, p: nat, c: nat)
    requires 0 < c < p && HasNoDivisor(p, p)
    requires Power(m * p) == UNIT && Power(m * c) == UNIT
    ensures Power(m) == UNIT
    decreases c
  {
    if c > 1 {
      var q, r := p / c, p % c;
      assert m * p == q * (m * c) + m * r by {
        assert p == q * c + r;
        assert m * (q * c) == q * (m * c);
      }
      PowerMultiple(m * c, q);
      PowerPast(q * (m * c), m * r);
      Descend(m, p, r);
    } else {
      assert m * c == m;
    }
  }

  lemma SmallPrimes()
    ensures HasNoDivisor(7, 7) && HasNoDivisor(31, 31) && HasNoDivisor(151, 151)
  {
  }

  /** A prime factor p of the order that misses n rules x^n out, given x^(order/p). */
  lemma PrimeFactorMissed(n: nat, p: nat, m: nat, w: Word)
    requires HasNoDivisor(p, p) && m * p == ORDER && n % p != 0
    requires Holds(m, w) && w != 1
    ensures Power(n) != UNIT
  {
    hide Holds, Power;
    if Power(n) == UNIT {
      var q, c := n / p, n % p;
      OrderReached();
      PowerMultiple(n, m);
      PowerMultiple(ORDER, q);
      assert m * n == q * ORDER + m * c by {
        assert n == q * p + c;
        assert m * (q * p) == q * (m * p);
      }
      PowerPast(q * ORDER, m * c);
      Descend(m, p, c);
      NotUnit(m, w);
    }
  }

  lemma OrderFactors(n: nat, a: int, b: int, c: int)
    requires n == 7 * a && n == 31 * b && n == 151 * c
    ensures n % ORDER == 0
  {
    var d := 9 * b - 2 * a;
    CommonFactor(a, b, d);
    var e := 135 * c - 194 * d;
    CommonCofactor(d, c, e);
    DividesMultiple(n, e);
  }

  lemma CommonFactor(a: int, b: int, d: int)
    requires 7 * a == 31 * b && d == 9 * b - 2 * a
    ensures a == 31 * d
  {
  }

  lemma CommonCofactor(d: int, c: int, e: int)
    requires 217 * d == 151 * c && e == 135 * c - 194 * d
    ensures d == 151 * e
  {
  }

  lemma DividesMultiple(n: nat, e: int)
    requires n == ORDER * e
    ensures n % ORDER == 0
  {
  }

  /** The powers of x return to 1 exactly at the multiples of 32767. */
  lemma OrderExact(n: nat)
    ensures Power(n) == UNIT <==> n % ORDER == 0
  {
    if n % ORDER == 0 {
      OrderReached();
      PowerMultiple(ORDER, n / ORDER);
    } else {
      SmallPrimes();
      if n % 7 != 0 {
        Power4681();
        PrimeFactorMissed(n, 7, 4681, 0x2C42);
      } else if n % 31 != 0 {
        Power1057();
        PrimeFactorMissed(n, 31, 1057, 0xF2AF);
      } else if n % 151 != 0 {
        Power217();
        PrimeFactorMissed(n, 151, 217, 0x48E3);
      } else {
        OrderFactors(n, n / 7, n / 31, n / 151);
      }
    }
  }
}
