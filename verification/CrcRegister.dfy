/** The 16-bit shift register behind CRC-16/CCITT-FALSE, as a linear machine over bits. */
module CrcRegister {
  import opened Bits

  /** The register, bit 15 first. */
  type Register = r: BitString | |r| == 16 witness Zeros(16)

  /** x^12 + x^5 + 1: the generator of ITU-T V.41 section 2 without its leading x^16. */
  const POLYNOMIAL: Register := [
    false, false, false, true, false, false, false, false,
    false, false, true, false, false, false, false, true
  ]

  const CLEAR: Register := Zeros(16)

  /** The polynomial 1. */
  const UNIT: Register := Zeros(15) + [true]

  /** The preset 0xFFFF. */
  const PRESET: Register := seq(16, i => true)

  function Shifted(r: Register): Register {
    r[1..] + [false]
  }

  /** Multiplication by x modulo the generator. */
  function Step(r: Register): Register {
    if r[0] then Xor(Shifted(r), POLYNOMIAL) else Shifted(r)
  }

  /** One message bit enters at the top before the step. */
  function Inject(r: Register, bit: bool): Register {
    r[0 := r[0] != bit]
  }

  function Feed(r: Register, message: BitString): Register
    decreases |message|
  {
    if message == [] then r else Feed(Step(Inject(r, message[0])), message[1..])
  }

  function Steps(r: Register, n: nat): Register
    decreases n
  {
    if n == 0 then r else Steps(Step(r), n - 1)
  }

  lemma StepXor(a: Register, b: Register)
    ensures Step(Xor(a, b)) == Xor(Step(a), Step(b))
  {
    assert Shifted(Xor(a, b)) == Xor(Shifted(a), Shifted(b));
  }

  lemma StepInjective(a: Register, b: Register)
    requires Step(a) == Step(b)
    ensures a == b
  {
    assert forall i :: 0 <= i < 15 ==> Shifted(a)[i] == a[i + 1];
    assert forall i :: 0 <= i < 15 ==> Shifted(b)[i] == b[i + 1];
    assert Step(a)[15] == a[0] && Step(b)[15] == b[0];
    forall i | 0 < i < 16 ensures a[i] == b[i] {
      assert Step(a)[i - 1] == Step(b)[i - 1];
    }
    assert a == b;
  }

  /** The affine law: the register of a sum is the sum of the registers. */
  lemma {:induction false} FeedXor(r: Register, s: Register, a: BitString, b: BitString)
    requires |a| == |b|
    ensures Feed(Xor(r, s), Xor(a, b)) == Xor(Feed(r, a), Feed(s, b))
    decreases |a|
  {
    if a != [] {
      var ra, sb := Inject(r, a[0]), Inject(s, b[0]);
      assert Inject(Xor(r, s), a[0] != b[0]) == Xor(ra, sb);
      StepXor(ra, sb);
      assert Xor(a, b)[1..] == Xor(a[1..], b[1..]);
      FeedXor(Step(ra), Step(sb), a[1..], b[1..]);
    }
  }

  lemma {:induction false} FeedConcat(r: Register, a: BitString, b: BitString)
    ensures Feed(r, a + b) == Feed(Feed(r, a), b)
    decreases |a|
  {
    if a == [] {
      assert a + b == b;
    } else {
      assert (a + b)[1..] == a[1..] + b;
      FeedConcat(Step(Inject(r, a[0])), a[1..], b);
    }
  }

  lemma {:induction false} FeedZeros(r: Register, n: nat)
    ensures Feed(r, Zeros(n)) == Steps(r, n)
    decreases n
  {
    if n > 0 {
      assert Inject(r, false) == r;
      assert Zeros(n)[1..] == Zeros(n - 1);
      FeedZeros(Step(r), n - 1);
    }
  }

  /** Zero-bit steps lose nothing. */
  lemma {:induction false} StepsInjective(a: Register, b: Register, n: nat)
    requires Steps(a, n) == Steps(b, n)
    ensures a == b
    decreases n
  {
    if n > 0 {
      StepsInjective(Step(a), Step(b), n - 1);
      StepInjective(a, b);
    }
  }

  lemma {:induction false} StepsClear(n: nat)
    ensures Steps(CLEAR, n) == CLEAR
  {
    assert Step(CLEAR) == CLEAR;
    if n > 0 {
      StepsClear(n - 1);
    }
  }

  lemma {:induction false} StepsAdd(r: Register, m: nat, n: nat)
    ensures Steps(r, m + n) == Steps(Steps(r, m), n)
    decreases m
  {
    if m > 0 {
      StepsAdd(Step(r), m - 1, n);
    }
  }

  lemma {:induction false} StepsXor(a: Register, b: Register, n: nat)
    ensures Steps(Xor(a, b), n) == Xor(Steps(a, n), Steps(b, n))
    decreases n
  {
    if n > 0 {
      StepXor(a, b);
      StepsXor(Step(a), Step(b), n - 1);
    }
  }

  /** The message left-aligned in a clear register. */
  function Aligned(message: BitString): Register
    requires |message| <= 16
  {
    message + Zeros(16 - |message|)
  }

  /** Up to sixteen message bits act as if they had all been added before the first step. */
  lemma {:induction false} FeedAligned(r: Register, message: BitString)
    requires |message| <= 16
    ensures Feed(r, message) == Steps(Xor(r, Aligned(message)), |message|)
    decreases |message|
  {
    if message == [] {
      assert Xor(r, Aligned(message)) == r;
    } else {
      var b, rest := message[0], message[1..];
      var full, head := Xor(r, Aligned(message)), Inject(r, b);
      var tail: Register := [false] + rest + Zeros(16 - |message|);
      assert full == Xor(head, tail);
      StepXor(head, tail);
      assert Step(tail) == Aligned(rest);
      FeedAligned(Step(head), rest);
    }
  }

  /** Residue: sixteen more bits clear the register exactly when they equal it. */
  lemma FeedTrailer(r: Register, trailer: Register)
    ensures Feed(r, trailer) == CLEAR <==> r == trailer
  {
    FeedAligned(r, trailer);
    assert Aligned(trailer) == trailer;
    StepsClear(16);
    XorZero(r, trailer);
    if Feed(r, trailer) == CLEAR {
      StepsInjective(Xor(r, trailer), CLEAR, 16);
    }
  }

  /** The generator has four terms, so a step keeps the parity of the register. */
  lemma StepParity(r: Register)
    ensures Parity(Step(r)) == Parity(r)
  {
    ParityConcat(r[1..], [false]);
    assert !Parity([false]);
    if r[0] {
      ParityXor(Shifted(r), POLYNOMIAL);
      ParityPolynomial();
    }
  }

  lemma ParityPolynomial()
    ensures Parity(POLYNOMIAL)
  {
    var p := POLYNOMIAL;
    assert p == p[..4] + (p[4..8] + (p[8..12] + p[12..]));
    ParityConcat(p[..4], p[4..8] + (p[8..12] + p[12..]));
    ParityConcat(p[4..8], p[8..12] + p[12..]);
    ParityConcat(p[8..12], p[12..]);
    ParityNibble(p[..4]);
    ParityNibble(p[4..8]);
    ParityNibble(p[8..12]);
    ParityNibble(p[12..]);
  }

  lemma ParityNibble(n: BitString)
    requires |n| == 4
    ensures Parity(n) == (n[0] != (n[1] != (n[2] != n[3])))
  {
    assert n[1..][1..] == n[2..] && n[2..][1..] == n[3..] && n[3..][1..] == [];
    assert Parity(n[3..]) == n[3];
    assert Parity(n[2..]) == (n[2] != Parity(n[3..]));
    assert Parity(n[1..]) == (n[1] != Parity(n[2..]));
  }

  /** The register's parity is the parity of everything that has entered it. */
  lemma {:induction false} FeedParity(r: Register, message: BitString)
    ensures Parity(Feed(r, message)) == (Parity(r) != Parity(message))
    decreases |message|
  {
    if message != [] {
      var s := Inject(r, message[0]);
      assert s[1..] == r[1..];
      StepParity(s);
      FeedParity(Step(s), message[1..]);
    }
  }
}
