/** Fixed-width unsigned integers and the C operators on them.

    Widths are subset types of `nat`; wrap-around is written out with `Wrap`.  Quotients, remainders and
    shifts are named so that proofs can hide what they are and use the facts stated about them here.
 */
module Words {

  type uint8 = x: nat | x < 0x100
  type uint32 = x: nat | x < 0x1_0000_0000
  type uint64 = x: nat | x < 0x1_0000_0000_0000_0000

  const W32: nat := 0x1_0000_0000
  const W64: nat := 0x1_0000_0000_0000_0000
  const W128: nat := 0x1_0000_0000_0000_0000_0000_0000_0000_0000
  const W256: nat := 0x1_0000_0000_0000_0000_0000_0000_0000_0000_0000_0000_0000_0000_0000_0000_0000_0000

  function Min(a: nat, b: nat): nat {
    if a < b then a else b
  }

  function Pow(b: nat, n: nat): (p: nat)
    ensures 0 < b ==> 0 < p
  {
    if n == 0 then 1
    else
      if 0 < b then MulPositive(b, Pow(b, n - 1)); b * Pow(b, n - 1) else 0
  }

  // Multiplication facts, one each, so that no other proof has to search for them.

  lemma MulPositive(a: nat, b: nat)
    requires 0 < a && 0 < b
    ensures 0 < a * b
  {
  }

  lemma MulMonotone(a: int, b: int, c: nat)
    requires a <= b
    ensures a * c <= b * c
  {
  }

  lemma MulSum(a: int, b: int, c: int)
    ensures (a + b) * c == a * c + b * c
  {
  }

  lemma MulAssoc(a: int, b: int, c: int)
    ensures (a * b) * c == a * (b * c) == b * (a * c)
  {
  }

  lemma MulCancel(a: int, b: int, c: nat)
    requires a * c < b * c
    ensures a < b
  {
    if a >= b {
      MulMonotone(b, a, c);
    }
  }

  lemma MulStrict(a: nat, b: nat, c: nat)
    requires a < b
    ensures a * c + c <= b * c
  {
    MulMonotone(a + 1, b, c);
    MulSum(a, 1, c);
  }

  /** A product as one term, for quantified statements. */
  function Times(a: nat, b: nat): nat {
    a * b
  }

  // Quotient and remainder; the remainder is never negative.

  function Quot(n: int, d: nat): (q: int)
    requires d != 0
    ensures 0 <= n ==> 0 <= q
  {
    n / d
  }

  function Rem(n: int, d: nat): (r: nat)
    requires d != 0
    ensures r < d
  {
    n % d
  }

  lemma QuotRem(n: int, d: nat)
    requires d != 0
    ensures n == Quot(n, d) * d + Rem(n, d)
  {
  }

  /** A quotient and a remainder are determined by the equation between them. */
  lemma QuotRemUnique(n: int, d: nat, q: int, r: nat)
    requires n == q * d + r && r < d
    ensures Quot(n, d) == q && Rem(n, d) == r
  {
    hide *;
    QuotRem(n, d);
    var q', r' := Quot(n, d), Rem(n, d);
    if q < q' {
      MulMonotone(q + 1, q', d);
      MulSum(q, 1, d);
    } else if q' < q {
      MulMonotone(q' + 1, q, d);
      MulSum(q', 1, d);
    }
  }

  /** Wrapping an intermediate sum does not change the wrapped result. */
  lemma RemAgain(x: int, c: int, d: nat)
    requires d != 0
    ensures Rem(Rem(x, d) + c, d) == Rem(x + c, d)
  {
    hide *;
    QuotRem(x, d);
    QuotRem(Rem(x, d) + c, d);
    var q, q' := Quot(x, d), Quot(Rem(x, d) + c, d);
    MulSum(q, q', d);
    QuotRemUnique(x + c, d, q + q', Rem(Rem(x, d) + c, d));
  }

  // Powers

  lemma {:induction false} PowAdd(b: nat, m: nat, n: nat)
    ensures Pow(b, m + n) == Pow(b, m) * Pow(b, n)
  {
    if m != 0 {
      PowAdd(b, m - 1, n);
      MulAssoc(b, Pow(b, m - 1), Pow(b, n));
    }
  }

  lemma PowStep(b: nat, n: nat)
    ensures Pow(b, n + 1) == Pow(b, n) * b
  {
  }

  lemma PowMonotone(b: nat, m: nat, n: nat)
    requires 0 < b && m <= n
    ensures Pow(b, m) <= Pow(b, n)
  {
    hide *;
    PowAdd(b, m, n - m);
    MulMonotone(1, Pow(b, n - m), Pow(b, m));
  }

  lemma WordSizes()
    ensures Pow(2, 0) == 1 && Pow(2, 1) == 2 && Pow(2, 8) == 0x100 && Pow(2, 16) == 0x1_0000
    ensures Pow(2, 24) == 0x100_0000 && Pow(2, 31) == 0x8000_0000 && Pow(2, 32) == W32
    ensures Pow(2, 64) == W64 && Pow(2, 128) == W128 && Pow(2, 256) == W256
  {
    assert Pow(2, 4) == 16;
    PowAdd(2, 4, 4);
    PowAdd(2, 8, 8);
    PowAdd(2, 8, 16);
    PowAdd(2, 16, 16);
    assert Pow(2, 32) == 2 * Pow(2, 31);
    PowAdd(2, 32, 32);
    PowAdd(2, 64, 64);
    PowAdd(2, 128, 128);
  }

  // The C operators `<<` (before truncation) and `>>`, and truncation to a width of `bits` bits as an
  // assignment to an unsigned variable does it.

  function Shl(x: nat, n: nat): nat {
    x * Pow(2, n)
  }

  function Shr(x: nat, n: nat): nat {
    Quot(x, Pow(2, n))
  }

  function Wrap(x: int, bits: nat): (r: nat)
    ensures r < Pow(2, bits)
  {
    Rem(x, Pow(2, bits))
  }

  /** Two words of `bits` bits as one number. */
  function Join(upper: nat, lower: nat, bits: nat): nat {
    upper * Pow(2, bits) + lower
  }

  lemma WrapFits(x: nat, bits: nat)
    requires x < Pow(2, bits)
    ensures Wrap(x, bits) == x
  {
    QuotRemUnique(x, Pow(2, bits), 0, x);
  }

  lemma WrapAgain(x: int, c: int, bits: nat)
    ensures Wrap(Wrap(x, bits) + c, bits) == Wrap(x + c, bits)
  {
    RemAgain(x, c, Pow(2, bits));
  }

  lemma JoinIsZero(upper: nat, lower: nat, bits: nat)
    ensures Join(upper, lower, bits) == 0 <==> upper == 0 && lower == 0
  {
    hide Pow;
    if upper != 0 {
      MulPositive(upper, Pow(2, bits));
    }
  }

  lemma JoinNoUpper(lower: nat, bits: nat)
    ensures Join(0, lower, bits) == lower
  {
  }

  /** Words that fit join to a number that fits twice the width. */
  lemma JoinFits(upper: nat, lower: nat, bits: nat)
    requires upper < Pow(2, bits) && lower < Pow(2, bits)
    ensures Join(upper, lower, bits) < Pow(2, 2 * bits)
  {
    hide Pow;
    MulStrict(upper, Pow(2, bits), Pow(2, bits));
    PowAdd(2, bits, bits);
  }

  /** Numbers compare like their words, the upper one first. */
  lemma JoinOrder(u1: nat, l1: nat, u2: nat, l2: nat, bits: nat)
    requires u1 < Pow(2, bits) && l1 < Pow(2, bits) && u2 < Pow(2, bits) && l2 < Pow(2, bits)
    ensures Join(u1, l1, bits) < Join(u2, l2, bits) <==> u1 < u2 || (u1 == u2 && l1 < l2)
    ensures Join(u1, l1, bits) == Join(u2, l2, bits) <==> u1 == u2 && l1 == l2
  {
    hide Pow;
    if u1 < u2 {
      MulStrict(u1, u2, Pow(2, bits));
    } else if u2 < u1 {
      MulStrict(u2, u1, Pow(2, bits));
    }
  }

  /** The C operator `|`. */
  function Or(a: nat, b: nat): nat
    decreases a + b
  {
    if a == 0 then b else if b == 0 then a
    else 2 * Or(a / 2, b / 2) + if a % 2 == 1 || b % 2 == 1 then 1 else 0
  }

  lemma OrStep(a: nat, b: nat)
    ensures Or(a, b) == 2 * Or(a / 2, b / 2) + if a % 2 == 1 || b % 2 == 1 then 1 else 0
  {
  }

  function Doubled(x: nat, n: nat): nat {
    if n == 0 then x else 2 * Doubled(x, n - 1)
  }

  lemma {:induction false} DoubledIsProduct(x: nat, n: nat)
    ensures Doubled(x, n) == x * Pow(2, n)
  {
    if n != 0 {
      DoubledIsProduct(x, n - 1);
      MulAssoc(2, x, Pow(2, n - 1));
    }
  }

  lemma {:induction false} OrDoubled(hiA: nat, loA: nat, hiB: nat, loB: nat, n: nat)
    requires loA < Pow(2, n) && loB < Pow(2, n)
    ensures Or(loA, loB) < Pow(2, n)
    ensures Or(Doubled(hiA, n) + loA, Doubled(hiB, n) + loB) == Doubled(Or(hiA, hiB), n) + Or(loA, loB)
  {
    if n != 0 {
      OrDoubled(hiA, loA / 2, hiB, loB / 2, n - 1);
      OrStep(Doubled(hiA, n) + loA, Doubled(hiB, n) + loB);
      OrStep(loA, loB);
    }
  }

  /** `|` works on the words of a number separately. */
  lemma OrJoins(u1: nat, l1: nat, u2: nat, l2: nat, bits: nat)
    requires l1 < Pow(2, bits) && l2 < Pow(2, bits)
    ensures Or(l1, l2) < Pow(2, bits)
    ensures Or(Join(u1, l1, bits), Join(u2, l2, bits)) == Join(Or(u1, u2), Or(l1, l2), bits)
  {
    hide Pow, Or, Doubled;
    OrDoubled(u1, l1, u2, l2, bits);
    DoubledIsProduct(u1, bits);
    DoubledIsProduct(u2, bits);
    DoubledIsProduct(Or(u1, u2), bits);
  }

  /** Where the operands share no bit position `|` is addition. */
  lemma OrIsSum(hi: nat, lo: nat, bits: nat)
    requires lo < Pow(2, bits)
    ensures Or(hi * Pow(2, bits), lo) == hi * Pow(2, bits) + lo
  {
    OrDoubled(hi, 0, 0, lo, bits);
    DoubledIsProduct(hi, bits);
    DoubledIsProduct(0, bits);
  }
}
