/**
 The bit operations of the guard on natural numbers: conjunction, disjunction and shifts, bit by bit from the lowest.
 A shift is a product or a quotient by a power of two, a disjunction of numbers without a common bit is their sum, and
 a mask of ones keeps a remainder.
 */
module Bits {
  function And(a: nat, b: nat): nat {
    if a == 0 || b == 0 then 0 else (a % 2) * (b % 2) + 2 * And(a / 2, b / 2)
  }

  function Or(a: nat, b: nat): nat {
    if a == 0 then b else if b == 0 then a else (if a % 2 + b % 2 > 0 then 1 else 0) + 2 * Or(a / 2, b / 2)
  }

  function Shl(a: nat, n: nat): nat { if n == 0 then a else 2 * Shl(a, n - 1) }
  function Shr(a: nat, n: nat): nat { if n == 0 then a else Shr(a / 2, n - 1) }

  function Pow2(n: nat): (p: nat)
    ensures p > 0
  {
    if n == 0 then 1 else 2 * Pow2(n - 1)
  }

  lemma {:induction false} OrDisjoint(a: nat, b: nat, n: nat)
    requires b < Pow2(n)
    ensures Or(Shl(a, n), b) == Shl(a, n) + b
  {
    if n > 0 {
      OrDisjoint(a, b / 2, n - 1);
      OrOnce(Shl(a, n - 1), b);
    }
  }

  lemma OrOnce(x: nat, b: nat)
    ensures Or(2 * x, b) == b % 2 + 2 * Or(x, b / 2)
  {}

  /** The bits below place n. */
  function Low(a: nat, n: nat): nat { if n == 0 then 0 else a % 2 + 2 * Low(a / 2, n - 1) }

  function Ones(n: nat): nat { if n == 0 then 0 else 1 + 2 * Ones(n - 1) }

  lemma {:induction false} LowBits(a: nat, n: nat)
    ensures And(a, Ones(n)) == Low(a, n)
  {
    if n > 0 {
      LowBits(a / 2, n - 1);
      if a == 0 { LowOfZero(n); }
    }
  }

  lemma {:induction false} LowOfZero(n: nat)
    ensures Low(0, n) == 0
  {
    if n > 0 { LowOfZero(n - 1); }
  }

  /** A mask with zeros below keeps what is above. */
  lemma {:induction false} HighBits(a: nat, m: nat, n: nat)
    ensures And(a, Shl(m, n)) == Shl(And(Shr(a, n), m), n)
  {
    if n > 0 {
      HighBits(a / 2, m, n - 1);
      AndEven(a, Shl(m, n - 1));
    }
  }

  lemma AndEven(a: nat, x: nat)
    ensures And(a, 2 * x) == 2 * And(a / 2, x)
  {}

  lemma ShlOnce(a: nat, n: nat)
    ensures Shl(a, 0) == a && Shl(a, n + 1) == 2 * Shl(a, n)
  {}

  lemma ShlEight(a: nat)
    ensures Shl(a, 6) == 64 * a && Shl(a, 8) == 256 * a
  {
    hide And, Or, Shl, Shr, Low, Ones, Pow2;
    ShlOnce(a, 0);
    ShlOnce(a, 1);
    ShlOnce(a, 2);
    ShlOnce(a, 3);
    ShlOnce(a, 4);
    ShlOnce(a, 5);
    ShlOnce(a, 6);
    ShlOnce(a, 7);
  }

  lemma ShrOnce(a: nat, n: nat)
    ensures Shr(a, 0) == a && Shr(a, n + 1) == Shr(a / 2, n)
  {}

  lemma ShrEight(a: nat)
    ensures Shr(a, 6) == a / 64 && Shr(a, 8) == a / 256
  {
    hide And, Or, Shl, Shr, Low, Ones, Pow2;
    ShrSix(a);
    ShrOnce(a, 7);
    ShrOnce(a / 2, 6);
    ShrSix(a / 4);
  }

  lemma ShrSix(a: nat)
    ensures Shr(a, 6) == a / 64
  {
    hide And, Or, Shl, Shr, Low, Ones, Pow2;
    ShrOnce(a, 5);
    ShrOnce(a / 2, 4);
    ShrOnce(a / 4, 3);
    ShrOnce(a / 8, 2);
    ShrOnce(a / 16, 1);
    ShrOnce(a / 32, 0);
    ShrOnce(a / 64, 0);
  }

  lemma LowTwo(a: nat, n: nat)
    ensures Low(a, 0) == 0 && Low(a, n + 2) == a % 4 + 4 * Low(a / 4, n)
  {}

  lemma LowFour(a: nat, n: nat)
    ensures Low(a, 0) == 0 && Low(a, n + 4) == a % 16 + 16 * Low(a / 16, n)
  {
    hide Low;
    LowTwo(a, n + 2);
    LowTwo(a / 4, n);
  }

  lemma LowEight(a: nat)
    ensures Low(a, 8) == a % 256
  {
    hide Low;
    LowFour(a, 4);
    LowFour(a / 16, 0);
    LowFour(a / 256, 0);
  }

  lemma ConstantsOfEight()
    ensures Ones(8) == 0xff && Pow2(8) == 256
  {
    assert Ones(2) == 3 && Ones(4) == 15 && Ones(6) == 63;
    assert Pow2(2) == 4 && Pow2(4) == 16 && Pow2(6) == 64;
  }

  lemma LowByte(a: nat)
    ensures And(a, 0xff) == a % 256
  {
    hide And, Low, Ones, Pow2;
    ConstantsOfEight();
    LowBits(a, 8);
    LowEight(a);
  }

  lemma {:induction false} LowAll(a: nat, n: nat)
    requires a < Pow2(n)
    ensures Low(a, n) == a
  {
    if n > 0 { LowAll(a / 2, n - 1); }
  }

  lemma {:induction false} ShrBound(g: nat, n: nat, k: nat)
    requires g < Pow2(n + k)
    ensures Shr(g, n) < Pow2(k)
  {
    if n > 0 { ShrBound(g / 2, n - 1, k); }
  }

  /** What is left of g above place n is c exactly when g lies in c's block. */
  lemma {:induction false} ShrIff(g: nat, c: nat, n: nat)
    ensures Shr(g, n) == c <==> Shl(c, n) <= g < Shl(c + 1, n)
  {
    if n > 0 { ShrIff(g / 2, c, n - 1); }
  }

  lemma {:induction false} ShlInjective(a: nat, b: nat, n: nat)
    ensures Shl(a, n) == Shl(b, n) <==> a == b
  {
    if n > 0 { ShlInjective(a, b, n - 1); }
  }
}
