/** Remainders, and bitwise and with a mask. */
module Modular {

  lemma Multiples(q: int, m: nat)
    ensures q >= 1 ==> q * m >= m
    ensures q <= 0 ==> q * m <= 0
    ensures q <= -1 ==> q * m + m <= 0
  {
    if q >= 1 {
      assert q * m == (q - 1) * m + m;
    } else if q <= -1 {
      assert q * m == (q + 1) * m - m;
    }
  }

  /** Two numbers less than `m` apart leave different remainders. */
  lemma DistinctResidues(a: nat, b: nat, m: nat)
    requires 0 < m && a < b < a + m
    ensures a % m != b % m
  {
    var q := b / m - a / m;
    assert b - a == q * m + b % m - a % m;
    Multiples(q, m);
  }

  /** Division is determined by the quotient and the remainder. */
  lemma QuotientUnique(x: int, q: int, r: int, m: nat)
    requires 0 < m && 0 <= r < m && x == q * m + r
    ensures x % m == r && x / m == q
  {
    var d := x / m - q;
    assert d * m == r - x % m;
    Multiples(d, m);
  }

  /** A number and the same number shifted by a multiple of the modulus leave the same remainder. */
  lemma ShiftedResidue(a: int, q: int, m: nat)
    requires 0 < m
    ensures (a + q * m) % m == a % m
  {
    QuotientUnique(a + q * m, a / m + q, a % m, m);
  }

  /** Reducing modulo a multiple first does not change the remainder. */
  lemma RemainderOfRemainder(a: int, w: nat, m: nat)
    requires 0 < m && 0 < w && w % m == 0
    ensures (a % w) % m == a % m
  {
    var q, r := a / w, w / m;
    assert a % w == a - q * w && w == r * m;
    assert q * w == q * r * m;
    assert a % w == a + (-(q * r)) * m;
    ShiftedResidue(a, -(q * r), m);
  }

  /** Equal remainders: the difference is a multiple of the modulus. */
  lemma EqualResidues(a: int, b: int, m: nat)
    requires 0 < m && a % m == b % m
    ensures (b - a) % m == 0 && b - a == (b / m - a / m) * m
  {
    QuotientUnique(b - a, b / m - a / m, 0, m);
  }
}

module Bits {
  import Modular

  /** The values of a 64-bit word. */
  const WORD: nat := 0x1_0000_0000_0000_0000

  function Pow2(e: nat): (p: nat)
    ensures 1 <= p
  {
    if e == 0 then 1 else 2 * Pow2(e - 1)
  }

  /** Bitwise and. */
  function And(a: nat, b: nat): nat
    decreases a
  {
    if a == 0 then 0 else 2 * And(a / 2, b / 2) + (if a % 2 == 1 && b % 2 == 1 then 1 else 0)
  }

  lemma RemainderByBits(a: nat, p: nat)
    requires 0 < p
    ensures a % (2 * p) == 2 * (a / 2 % p) + a % 2
  {
    var q, r := a / 2 / p, a / 2 % p;
    assert a / 2 == q * p + r && 0 <= r < p;
    assert q * (2 * p) == 2 * (q * p);
    Modular.QuotientUnique(a, q, 2 * r + a % 2, 2 * p);
  }

  /** One more bit of mask. */
  lemma MaskStep(a: nat, p: nat)
    requires 0 < a && 0 < p && And(a / 2, p - 1) == a / 2 % p
    ensures And(a, 2 * p - 1) == a % (2 * p)
  {
    var b := 2 * p - 1;
    assert b / 2 == p - 1 && b % 2 == 1;
    RemainderByBits(a, p);
    assert And(a, b) == 2 * And(a / 2, b / 2) + a % 2;
  }

  lemma {:induction false} MaskNothing(a: nat)
    ensures And(a, 0) == 0
    decreases a
  {
    if a > 0 {
      MaskNothing(a / 2);
    }
  }

  /** Masking with a power of two less one is the remainder by that power. */
  lemma {:induction false} MaskIsRemainder(a: nat, e: nat)
    ensures And(a, Pow2(e) - 1) == a % Pow2(e)
    decreases a
  {
    var p := Pow2(e);
    if a == 0 {
      Modular.QuotientUnique(0, 0, 0, p);
    } else if e == 0 {
      MaskNothing(a);
      Modular.QuotientUnique(a, a, 0, p);
    } else {
      var half := Pow2(e - 1);
      assert p == 2 * half;
      MaskIsRemainder(a / 2, e - 1);
      MaskStep(a, half);
    }
  }

  lemma {:induction false} Pow2Add(e: nat, f: nat)
    ensures Pow2(e + f) == Pow2(e) * Pow2(f)
  {
    if f > 0 {
      Pow2Add(e, f - 1);
    }
  }

  lemma WordSizes()
    ensures Pow2(32) == 0x1_0000_0000 && Pow2(64) == 0x1_0000_0000_0000_0000
  {
    assert Pow2(8) == 0x100;
    Pow2Add(8, 8);
    assert Pow2(16) == 0x1_0000;
    Pow2Add(16, 16);
    assert Pow2(32) == 0x1_0000_0000;
    Pow2Add(32, 32);
  }

  /** The smaller power of two divides the larger. */
  lemma {:induction false} Pow2Divides(e: nat, f: nat)
    requires e <= f
    ensures Pow2(f) % Pow2(e) == 0
  {
    if e < f {
      Pow2Divides(e, f - 1);
      var q := Pow2(f - 1) / Pow2(e);
      Modular.QuotientUnique(Pow2(f), 2 * q, 0, Pow2(e));
    } else {
      Modular.QuotientUnique(Pow2(f), 1, 0, Pow2(e));
    }
  }
}
