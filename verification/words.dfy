/** Unsigned 64-bit words as naturals below 2^64: wrap-around arithmetic, shifts and exclusive or. */
module Words {

  // ----- quotients and remainders -----

  lemma ModUnique(a: int, m: int, q: int, r: int)
    requires m > 0 && a == m * q + r && 0 <= r < m
    ensures a % m == r
  {
    var d := a / m - q;
    assert m * d == r - a % m;
    MultipleBound(m, d);
  }

  lemma MultipleBound(m: int, d: int)
    requires m > 0 && -m < m * d < m
    ensures d == 0
  {
    if d >= 1 {
      MonotoneProduct(m, 1, d);
    } else if d <= -1 {
      MonotoneProduct(m, d, -1);
    }
  }

  lemma MonotoneProduct(m: int, x: int, y: int)
    requires m > 0 && x <= y
    ensures m * x <= m * y
  {
  }

  lemma QuotientUnique(a: int, m: int, q: int, r: int)
    requires m > 0 && a == m * q + r && 0 <= r < m
    ensures a / m == q
  {
    ModUnique(a, m, q, r);
    assert m * (a / m - q) == 0;
    MultipleBound(m, a / m - q);
  }

  // ----- words -----

  const WORD: nat := 0x1_0000_0000_0000_0000

  type Word = n: int | 0 <= n < 0x1_0000_0000_0000_0000 witness 0

  type Int64 = n: int | -0x8000_0000_0000_0000 <= n < 0x8000_0000_0000_0000 witness 0

  /** Two's complement reading of a signed 64-bit number. */
  function FromSigned(n: Int64): Word { n % WORD }

  function ToSigned(w: Word): Int64 { if w < 0x8000_0000_0000_0000 then w else w - WORD }

  lemma SignedRoundTrip(n: Int64)
    ensures ToSigned(FromSigned(n)) == n
  {
  }

  function Plus(a: Word, b: Word): Word { (a + b) % WORD }

  function Times(a: Word, b: Word): Word { (a * b) % WORD }

  function Pow2(b: nat): (p: nat)
    ensures p > 0
  {
    if b == 0 then 1 else 2 * Pow2(b - 1)
  }

  lemma Pow2Of64()
    ensures Pow2(64) == WORD
  {
    assert Pow2(8) == 0x100;
    assert Pow2(16) == 0x1_0000;
    assert Pow2(24) == 0x100_0000;
    assert Pow2(32) == 0x1_0000_0000;
    assert Pow2(40) == 0x100_0000_0000;
    assert Pow2(48) == 0x1_0000_0000_0000;
    assert Pow2(56) == 0x100_0000_0000_0000;
  }

  /** Logical shift right. */
  function Shr(a: nat, k: nat): nat { if k == 0 then a else Shr(a / 2, k - 1) }

  /** Bitwise exclusive or. */
  function Xor(a: nat, b: nat): nat
    decreases a + b
  {
    if a == 0 && b == 0 then 0 else 2 * Xor(a / 2, b / 2) + (a + b) % 2
  }

  lemma {:induction false} XorZero(a: nat)
    ensures Xor(a, 0) == a
  {
    if a > 0 { XorZero(a / 2); }
  }

  lemma {:induction false} XorSelf(a: nat)
    ensures Xor(a, a) == 0
  {
    if a > 0 { XorSelf(a / 2); }
  }

  lemma {:induction false} XorCommutes(a: nat, b: nat)
    ensures Xor(a, b) == Xor(b, a)
    decreases a + b
  {
    if a + b > 0 { XorCommutes(a / 2, b / 2); }
  }

  lemma XorHalves(a: nat, b: nat)
    ensures Xor(a, b) / 2 == Xor(a / 2, b / 2)
    ensures Xor(a, b) % 2 == (a + b) % 2
  {
  }

  lemma SameParity(x: nat, y: nat, c: nat)
    requires x % 2 == y % 2
    ensures (x + c) % 2 == (y + c) % 2
  {
  }

  lemma XorParity(a: nat, b: nat, c: nat)
    ensures Xor(Xor(a, b), c) % 2 == (a + b + c) % 2
  {
    var ab := Xor(a, b);
    assert ab % 2 == (a + b) % 2 by { XorHalves(a, b); }
    assert Xor(ab, c) % 2 == (ab + c) % 2 by { XorHalves(ab, c); }
    SameParity(ab, a + b, c);
  }

  lemma {:induction false} XorAssociates(a: nat, b: nat, c: nat)
    ensures Xor(Xor(a, b), c) == Xor(a, Xor(b, c))
    decreases a + b + c
  {
    if a + b + c > 0 {
      XorAssociates(a / 2, b / 2, c / 2);
      var left, right := Xor(Xor(a, b), c), Xor(a, Xor(b, c));
      assert left % 2 == right % 2 by {
        XorParity(a, b, c);
        XorParity(b, c, a);
        XorCommutes(Xor(b, c), a);
        assert b + c + a == a + b + c;
      }
      assert left / 2 == right / 2 by {
        XorHalves(a, b);
        XorHalves(b, c);
        XorHalves(Xor(a, b), c);
        XorHalves(a, Xor(b, c));
      }
    }
  }

  lemma {:induction false} XorBound(a: nat, b: nat, n: nat)
    requires a < Pow2(n) && b < Pow2(n)
    ensures Xor(a, b) < Pow2(n)
    decreases n
  {
    if n > 0 { XorBound(a / 2, b / 2, n - 1); }
  }

  lemma {:induction false} ShrXor(a: nat, b: nat, k: nat)
    ensures Shr(Xor(a, b), k) == Xor(Shr(a, k), Shr(b, k))
    decreases k
  {
    if k > 0 {
      XorHalves(a, b);
      ShrXor(a / 2, b / 2, k - 1);
    }
  }

  lemma {:induction false} ShrShr(a: nat, i: nat, j: nat)
    ensures Shr(Shr(a, i), j) == Shr(a, i + j)
    decreases i
  {
    if i > 0 { ShrShr(a / 2, i - 1, j); }
  }

  lemma {:induction false} ShrVanishes(a: nat, k: nat)
    requires a < Pow2(k)
    ensures Shr(a, k) == 0
    decreases k
  {
    if k > 0 { ShrVanishes(a / 2, k - 1); }
  }

  lemma {:induction false} ShrShrinks(a: nat, k: nat)
    ensures Shr(a, k) <= a
    decreases k
  {
    if k > 0 { ShrShrinks(a / 2, k - 1); }
  }
}
