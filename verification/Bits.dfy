/** Machine words as natural numbers, and C's bit operators on them, bit by bit. */
module Bits {
  import opened Finite

  /** How many values a 32-bit field has. */
  const M: nat := 0x1_0000_0000

  /** Bit i of x. */
  predicate Bit(x: nat, i: nat)
    decreases i, x
  {
    if i == 0 then x % 2 == 1 else Bit(x / 2, i - 1)
  }

  function Pow2(n: nat): (r: nat)
    ensures r > 0
  {
    if n == 0 then 1 else 2 * Pow2(n - 1)
  }

  /** (1 << n) - 1 */
  function Ones(n: nat): nat { if n == 0 then 0 else 1 + 2 * Ones(n - 1) }

  /** x & y */
  function And(x: nat, y: nat): nat
    decreases x
  {
    if x == 0 then 0 else (if x % 2 == 1 && y % 2 == 1 then 1 else 0) + 2 * And(x / 2, y / 2)
  }

  /** x | y */
  function Or(x: nat, y: nat): nat
    decreases x + y
  {
    if x == 0 && y == 0 then 0
    else (if x % 2 == 1 || y % 2 == 1 then 1 else 0) + 2 * Or(x / 2, y / 2)
  }

  /** ~x in a word of n bits */
  function Not(x: nat, n: nat): nat
    decreases n, x
  {
    if n == 0 then 0 else 1 - x % 2 + 2 * Not(x / 2, n - 1)
  }

  /** x << n before truncation, x >> n, and truncation to n bits */
  function Shl(x: nat, n: nat): nat { if n == 0 then x else 2 * Shl(x, n - 1) }
  function Shr(x: nat, n: nat): nat
    decreases n, x
  {
    if n == 0 then x else Shr(x / 2, n - 1)
  }
  function Low(x: nat, n: nat): nat
    decreases n, x
  {
    if n == 0 then 0 else x % 2 + 2 * Low(x / 2, n - 1)
  }

  /* ---------------------------------------------------------------- the bits of each result */

  lemma {:induction false} ZeroBit(i: nat)
    ensures !Bit(0, i)
  {
    if i > 0 { ZeroBit(i - 1); }
  }

  lemma {:induction false} AndBit(x: nat, y: nat, i: nat)
    ensures Bit(And(x, y), i) <==> Bit(x, i) && Bit(y, i)
    decreases i
  {
    if x == 0 { ZeroBit(i); } else if i > 0 { AndBit(x / 2, y / 2, i - 1); }
  }

  lemma {:induction false} OrBit(x: nat, y: nat, i: nat)
    ensures Bit(Or(x, y), i) <==> Bit(x, i) || Bit(y, i)
    decreases i
  {
    if x == 0 && y == 0 { ZeroBit(i); } else if i > 0 { OrBit(x / 2, y / 2, i - 1); }
  }

  lemma {:induction false} NotBit(x: nat, n: nat, i: nat)
    ensures Bit(Not(x, n), i) <==> i < n && !Bit(x, i)
    decreases i
  {
    if n == 0 { ZeroBit(i); } else if i > 0 { NotBit(x / 2, n - 1, i - 1); }
  }

  lemma {:induction false} OnesBit(n: nat, i: nat)
    ensures Bit(Ones(n), i) <==> i < n
    decreases i
  {
    if n == 0 { ZeroBit(i); } else if i > 0 { OnesBit(n - 1, i - 1); }
  }

  lemma {:induction false} ShlBit(x: nat, n: nat, i: nat)
    ensures Bit(Shl(x, n), i) <==> n <= i && Bit(x, i - n)
    decreases n
  {
    if n > 0 && i > 0 { ShlBit(x, n - 1, i - 1); }
  }

  lemma {:induction false} ShrBit(x: nat, n: nat, i: nat)
    ensures Bit(Shr(x, n), i) <==> Bit(x, i + n)
    decreases n
  {
    if n > 0 { ShrBit(x / 2, n - 1, i); }
  }

  lemma {:induction false} LowBit(x: nat, n: nat, i: nat)
    ensures Bit(Low(x, n), i) <==> i < n && Bit(x, i)
    decreases i
  {
    if n == 0 { ZeroBit(i); } else if i > 0 { LowBit(x / 2, n - 1, i - 1); }
  }

  /** Words with the same bits are equal. */
  lemma {:induction false} SameBits(x: nat, y: nat)
    requires forall i: nat :: Bit(x, i) == Bit(y, i)
    ensures x == y
    decreases x + y
  {
    if x > 0 || y > 0 {
      assert Bit(x, 0) == Bit(y, 0);
      forall i: nat ensures Bit(x / 2, i) == Bit(y / 2, i) {
        assert Bit(x, i + 1) == Bit(y, i + 1);
      }
      SameBits(x / 2, y / 2);
    }
  }

  /** A number below 2^n has no bit at n or above. */
  lemma {:induction false} HighBits(x: nat, n: nat, i: nat)
    requires x < Pow2(n) && n <= i
    ensures !Bit(x, i)
    decreases n
  {
    if n == 0 { ZeroBit(i); } else { HighBits(x / 2, n - 1, i - 1); }
  }

  /** A non-zero number has a bit. */
  lemma {:induction false} SomeBit(x: nat)
    requires x > 0
    ensures exists i: nat :: Bit(x, i)
  {
    if forall i: nat :: !Bit(x, i) {
      forall i: nat ensures Bit(x, i) == Bit(0, i) { ZeroBit(i); }
      SameBits(x, 0);
    }
  }

  /* ---------------------------------------------------------------- masks and moduli */

  lemma DivUnique(x: nat, m: nat, q: nat, r: nat)
    requires x == q * m + r && r < m
    ensures x % m == r && x / m == q
  {
    var a, b := x / m, x % m;
    assert x == a * m + b;
    if a < q { MulGap(a, q, m); } else if q < a { MulGap(q, a, m); }
  }

  lemma DoubleMod(x: nat, p: nat)
    requires p > 0
    ensures x % (2 * p) == x % 2 + 2 * ((x / 2) % p)
  {
    var y := x / 2;
    var q, r := y / p, y % p;
    assert y == q * p + r;
    assert q * (2 * p) == 2 * (q * p);
    DivUnique(x, 2 * p, q, 2 * r + x % 2);
  }

  lemma {:induction false} LowIsMod(x: nat, n: nat)
    ensures Low(x, n) == x % Pow2(n)
    decreases n
  {
    if n > 0 {
      LowIsMod(x / 2, n - 1);
      DoubleMod(x, Pow2(n - 1));
    }
  }

  lemma {:induction false} OnesIsPow(n: nat)
    ensures Ones(n) == Pow2(n) - 1
  {
    if n > 0 { OnesIsPow(n - 1); }
  }

  lemma {:induction false} AndOnes(x: nat, n: nat)
    ensures And(x, Ones(n)) == Low(x, n)
    decreases n
  {
    if n > 0 { if x > 0 { AndOnes(x / 2, n - 1); } else { AndOnes(0, n - 1); } }
    else { AndZero(x); }
  }

  lemma {:induction false} AndZero(x: nat)
    ensures And(x, 0) == 0
    decreases x
  {
    if x > 0 { AndZero(x / 2); }
  }

  lemma {:induction false} LowLow(x: nat, m: nat, n: nat)
    requires n <= m
    ensures Low(Low(x, m), n) == Low(x, n)
    decreases n
  {
    if n > 0 { LowLow(x / 2, m - 1, n - 1); }
  }

  /** The ring index of the program: masking a wrapped position is the modulus of the position. */
  lemma MaskIsMod(x: nat, n: nat, m: nat)
    requires n <= m
    ensures And(x % Pow2(m), Pow2(n) - 1) == x % Pow2(n)
  {
    LowIsMod(x, m);
    OnesIsPow(n);
    AndOnes(x % Pow2(m), n);
    LowLow(x, m, n);
    LowIsMod(x, n);
  }

  lemma {:induction false} ShlIsMul(x: nat, n: nat)
    ensures Shl(x, n) == x * Pow2(n)
    decreases n
  {
    if n > 0 {
      ShlIsMul(x, n - 1);
      assert x * (2 * Pow2(n - 1)) == 2 * (x * Pow2(n - 1));
    }
  }

  lemma HalfDiv(x: nat, p: nat)
    requires p > 0
    ensures x / 2 / p == x / (2 * p)
  {
    var y := x / 2;
    var q, r := y / p, y % p;
    assert y == q * p + r;
    assert q * (2 * p) == 2 * (q * p);
    DivUnique(x, 2 * p, q, 2 * r + x % 2);
  }

  lemma {:induction false} ShrIsDiv(x: nat, n: nat)
    ensures Shr(x, n) == x / Pow2(n)
    decreases n
  {
    if n > 0 {
      ShrIsDiv(x / 2, n - 1);
      HalfDiv(x, Pow2(n - 1));
    }
  }

  /** A word without bits at n and above is below 2^n. */
  lemma NoHighBits(x: nat, n: nat)
    requires forall i: nat :: n <= i ==> !Bit(x, i)
    ensures x < Pow2(n)
  {
    forall i: nat ensures Bit(Low(x, n), i) == Bit(x, i) { LowBit(x, n, i); }
    SameBits(Low(x, n), x);
    LowIsMod(x, n);
  }
}
