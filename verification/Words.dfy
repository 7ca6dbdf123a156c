/** The algebra of exclusive or on 32-bit words. */
module Words {
  /** Exclusive or, named so that the algebra below reasons about it as a symbol. */
  function Xor(a: bv32, b: bv32): bv32 {
    a ^ b
  }

  lemma XorCommutes(a: bv32, b: bv32)
    ensures Xor(a, b) == Xor(b, a)
  {
  }

  lemma XorAssociates(a: bv32, b: bv32, c: bv32)
    ensures Xor(Xor(a, b), c) == Xor(a, Xor(b, c))
  {
  }

  lemma XorUndoes(a: bv32, b: bv32)
    ensures Xor(Xor(a, b), b) == a
  {
  }

  lemma XorZero(a: bv32)
    ensures Xor(a, 0) == a
  {
  }

  lemma XorZeroLeft(a: bv32)
    ensures Xor(0, a) == a
    ensures Xor(a, a) == 0
  {
  }

  lemma XorCancels(c: bv32, x: bv32, y: bv32)
    ensures Xor(c, x) == Xor(c, y) ==> x == y
    ensures Xor(x, c) == Xor(y, c) ==> x == y
  {
  }

  lemma XorRegroups(x: bv32, y: bv32, a: bv32, b: bv32)
    ensures Xor(Xor(x, y), Xor(a, b)) == Xor(Xor(x, a), Xor(y, b))
  {
    XorAssociates(x, y, Xor(a, b));
    XorAssociates(y, a, b);
    XorCommutes(y, a);
    XorAssociates(a, y, b);
    XorAssociates(x, a, Xor(y, b));
  }

  lemma RawXorHalves(a: bv32, b: bv32, x: bv32, y: bv32, c: bv32)
    requires x == a >> 1 && y == b >> 1 && c == a ^ b
    ensures c >> 1 == x ^ y
  {
  }

  lemma XorHalves(a: bv32, b: bv32)
    ensures Xor(a, b) >> 1 == Xor(a >> 1, b >> 1)
  {
    RawXorHalves(a, b, a >> 1, b >> 1, Xor(a, b));
  }

  lemma LowBits(a: bv32, b: bv32)
    ensures Xor(a, b) & 1 == Xor(a & 1, b & 1)
    ensures a & 1 == 0 || a & 1 == 1
    ensures b & 1 == 0 || b & 1 == 1
    ensures Xor(0, 0) == 0 && Xor(0, 1) == 1 && Xor(1, 0) == 1 && Xor(1, 1) == 0
  {
  }
}
