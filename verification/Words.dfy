/** Machine words as numbers, and their bits. */
module Words {
  /** Unsigned 32-bit words and bytes; addition and subtraction wrap around. */
  const WRAP := 0x1_0000_0000

  type Word = x: nat | x < WRAP
  type Byte = x: nat | x < 256

  function Add(x: Word, y: Word): Word { if x + y < WRAP then x + y else x + y - WRAP }

  function Sub(x: Word, y: Word): Word { if x < y then x - y + WRAP else x - y }

  function Pow2(n: nat): (p: nat)
    ensures p > 0
  {
    if n == 0 then 1 else 2 * Pow2(n - 1)
  }

  function ShiftRight(x: Word, n: nat): Word
    decreases n
  {
    if n == 0 then x else ShiftRight(x / 2, n - 1)
  }

  function ShiftLeft(x: Word, n: nat): Word
    decreases n
  {
    if n == 0 then x else ShiftLeft(Add(x, x), n - 1)
  }

  /** The lowest `n` bits of two numbers crossed: a bit is set where exactly one of them has it. */
  function XorBits(x: nat, y: nat, n: nat): (r: nat)
    ensures r < Pow2(n)
  {
    if n == 0 then 0
    else 2 * XorBits(x / 2, y / 2, n - 1) + (if x % 2 == y % 2 then 0 else 1)
  }

  function Xor(x: Word, y: Word): Word {
    Pow32();
    XorBits(x, y, 32)
  }

  lemma Pow32()
    ensures Pow2(32) == WRAP
  {
    assert Pow2(8) == 0x100;
    assert Pow2(16) == 0x1_0000;
    assert Pow2(24) == 0x100_0000;
  }

  lemma {:induction false} XorTwice(x: nat, y: nat, n: nat)
    requires x < Pow2(n)
    ensures XorBits(XorBits(x, y, n), y, n) == x
  {
    if n > 0 {
      XorTwice(x / 2, y / 2, n - 1);
    }
  }

  // ------------------------------------------------------------------- bit by bit

  predicate BitAt(x: nat, k: nat)
    decreases k
  {
    if k == 0 then x % 2 == 1 else BitAt(x / 2, k - 1)
  }

  function AndBits(x: nat, y: nat, n: nat): (r: nat)
    ensures r < Pow2(n)
  {
    if n == 0 then 0
    else 2 * AndBits(x / 2, y / 2, n - 1) + (if x % 2 == 1 && y % 2 == 1 then 1 else 0)
  }

  function OrBits(x: nat, y: nat, n: nat): (r: nat)
    ensures r < Pow2(n)
  {
    if n == 0 then 0
    else 2 * OrBits(x / 2, y / 2, n - 1) + (if x % 2 == 1 || y % 2 == 1 then 1 else 0)
  }

  function And(x: Word, y: Word): Word {
    Pow32();
    AndBits(x, y, 32)
  }

  function Or(x: Word, y: Word): Word {
    Pow32();
    OrBits(x, y, 32)
  }

  function Not(x: Word): Word { WRAP - 1 - x }

  lemma {:induction false} AndBitAt(x: nat, y: nat, n: nat, k: nat)
    requires k < n
    ensures BitAt(AndBits(x, y, n), k) <==> BitAt(x, k) && BitAt(y, k)
  {
    if k > 0 { AndBitAt(x / 2, y / 2, n - 1, k - 1); }
  }

  lemma {:induction false} OrBitAt(x: nat, y: nat, n: nat, k: nat)
    requires k < n
    ensures BitAt(OrBits(x, y, n), k) <==> BitAt(x, k) || BitAt(y, k)
  {
    if k > 0 { OrBitAt(x / 2, y / 2, n - 1, k - 1); }
  }

  lemma {:induction false} XorBitAt(x: nat, y: nat, n: nat, k: nat)
    requires k < n
    ensures BitAt(XorBits(x, y, n), k) <==> BitAt(x, k) != BitAt(y, k)
  {
    if k > 0 { XorBitAt(x / 2, y / 2, n - 1, k - 1); }
  }

  lemma HalfNot(p: nat, x: nat)
    requires x < 2 * p
    ensures (2 * p - 1 - x) / 2 == p - 1 - x / 2 && (2 * p - 1 - x) % 2 == 1 - x % 2
  {
  }

  lemma {:induction false} NotBitAt(x: nat, n: nat, k: nat)
    requires x < Pow2(n) && k < n
    ensures BitAt(Pow2(n) - 1 - x, k) <==> !BitAt(x, k)
  {
    HalfNot(Pow2(n - 1), x);
    if k > 0 { NotBitAt(x / 2, n - 1, k - 1); }
  }

  lemma {:induction false} PowBitAt(n: nat, k: nat)
    ensures BitAt(Pow2(n), k) <==> n == k
  {
    if n > 0 && k > 0 {
      PowBitAt(n - 1, k - 1);
    } else if k > 0 {
      ZeroBitAt(k - 1);
    }
  }

  lemma {:induction false} ZeroBitAt(k: nat)
    ensures !BitAt(0, k)
  {
    if k > 0 { ZeroBitAt(k - 1); }
  }

  /** The number below a power of two has all lower bits. */
  lemma {:induction false} MaskBitAt(n: nat, k: nat)
    ensures BitAt(Pow2(n) - 1, k) <==> k < n
  {
    if n == 0 {
      ZeroBitAt(k);
    } else if k > 0 {
      MaskBitAt(n - 1, k - 1);
    }
  }

  lemma {:induction false} ShiftBitAt(x: Word, n: nat)
    ensures ShiftRight(x, n) % 2 == 1 <==> BitAt(x, n)
    decreases n
  {
    if n > 0 { ShiftBitAt(x / 2, n - 1); }
  }

  lemma {:induction false} PowGrows(n: nat, m: nat)
    requires n <= m
    ensures Pow2(n) <= Pow2(m)
  {
    if n < m { PowGrows(n, m - 1); }
  }

  lemma QuotientIs(x: int, d: int, q: int, r: int)
    requires 0 < d && 0 <= r < d && x == q * d + r
    ensures x / d == q && x % d == r
  {
    var q', r' := x / d, x % d;
    assert (q - q') * d == r' - r;
    assert q - q' >= 1 ==> (q - q') * d >= d;
    assert q - q' <= -1 ==> (q - q') * d <= -d;
  }
}
