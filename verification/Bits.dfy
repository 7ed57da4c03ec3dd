/** Bit strings, most significant bit first, with addition modulo two. */
module Bits {

  type BitString = seq<bool>

  function Zeros(n: nat): (z: BitString)
    ensures |z| == n && forall i :: 0 <= i < n ==> !z[i]
  {
    seq(n, i => false)
  }

  /** Bitwise addition modulo two of two strings of the same length. */
  function Xor(a: BitString, b: BitString): (c: BitString)
    requires |a| == |b|
    ensures |c| == |a|
    ensures forall i :: 0 <= i < |c| ==> c[i] == (a[i] != b[i])
  {
    seq(|a|, i requires 0 <= i < |a| => a[i] != b[i])
  }

  /** The number of set bits. */
  function Weight(a: BitString): (w: nat)
    ensures w <= |a|
  {
    if a == [] then 0 else (if a[0] then 1 else 0) + Weight(a[1..])
  }

  /** The sum of the bits modulo two. */
  function Parity(a: BitString): bool {
    if a == [] then false else a[0] != Parity(a[1..])
  }

  lemma {:induction false} ParityIsWeight(a: BitString)
    ensures Parity(a) <==> Weight(a) % 2 == 1
  {
    if a != [] {
      ParityIsWeight(a[1..]);
    }
  }

  lemma {:induction false} WeightZero(a: BitString)
    ensures Weight(a) == 0 <==> a == Zeros(|a|)
  {
    if a != [] {
      WeightZero(a[1..]);
      assert a == [a[0]] + a[1..];
      assert Zeros(|a|) == [false] + Zeros(|a| - 1);
    }
  }

  lemma {:induction false} ParityConcat(a: BitString, b: BitString)
    ensures Parity(a + b) == (Parity(a) != Parity(b))
  {
    if a == [] {
      assert a + b == b;
    } else {
      assert (a + b)[1..] == a[1..] + b;
      ParityConcat(a[1..], b);
    }
  }

  lemma {:induction false} ParityXor(a: BitString, b: BitString)
    requires |a| == |b|
    ensures Parity(Xor(a, b)) == (Parity(a) != Parity(b))
  {
    if a != [] {
      assert Xor(a, b)[1..] == Xor(a[1..], b[1..]);
      ParityXor(a[1..], b[1..]);
    }
  }

  /** A nonzero string is a run of zeros, a set bit, and the rest. */
  lemma {:induction false} FirstSet(a: BitString) returns (k: nat)
    requires Weight(a) > 0
    ensures k < |a| && a[k] && a[..k] == Zeros(k)
    ensures a == Zeros(k) + [true] + a[k + 1..]
    ensures Weight(a[k + 1..]) == Weight(a) - 1
  {
    if a[0] {
      k := 0;
    } else {
      var j := FirstSet(a[1..]);
      k := j + 1;
      assert a[1..][j + 1..] == a[k + 1..];
      assert a[1..][..j] == a[1..k];
    }
    assert a == a[..k] + [a[k]] + a[k + 1..];
  }

  lemma XorCons(x: bool, a: BitString, y: bool, b: BitString)
    requires |a| == |b|
    ensures Xor([x] + a, [y] + b) == [x != y] + Xor(a, b)
  {
  }

  lemma XorZero(a: BitString, b: BitString)
    requires |a| == |b|
    ensures Xor(a, b) == Zeros(|a|) <==> a == b
  {
    if Xor(a, b) == Zeros(|a|) {
      forall i | 0 <= i < |a| ensures a[i] == b[i] {
        assert !Xor(a, b)[i];
      }
    }
  }
}
