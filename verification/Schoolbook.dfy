/** The product of two four-digit numbers in an arbitrary base, column by column, as `mul128` (32-bit digits)
    and `mul256` (64-bit digits) compute it.
 */
module Schoolbook {
  import opened Words

  /** Four digits, the least significant first. */
  function Poly(c0: nat, c1: nat, c2: nat, c3: nat, b: nat): nat {
    c0 + b * (c1 + b * (c2 + b * c3))
  }

  function Fourth(b: nat): nat {
    b * (b * (b * b))
  }

  lemma PolySum(c0: nat, c1: nat, c2: nat, c3: nat, d0: nat, d1: nat, d2: nat, d3: nat, b: nat)
    ensures Poly(c0 + d0, c1 + d1, c2 + d2, c3 + d3, b) == Poly(c0, c1, c2, c3, b) + Poly(d0, d1, d2, d3, b)
  {
    var x3, y3 := b * c3, b * d3;
    assert b * (c3 + d3) == x3 + y3 by { MulSum(c3, d3, b); }
    var x2, y2 := b * (c2 + x3), b * (d2 + y3);
    assert b * (c2 + d2 + (x3 + y3)) == x2 + y2 by { MulSum(c2 + x3, d2 + y3, b); }
    assert b * (c1 + d1 + (x2 + y2)) == b * (c1 + x2) + b * (d1 + y2) by { MulSum(c1 + x2, d1 + y2, b); }
  }

  lemma PolyUp(c0: nat, c1: nat, c2: nat, c3: nat, b: nat)
    ensures b * Poly(c0, c1, c2, c3, b) == Poly(0, c0, c1, c2, b) + c3 * Fourth(b)
  {
    FourthTimes(c3, b);
    var t3, u2 := b * c3, b * c2;
    var t2 := b * (c2 + t3);
    assert t2 == u2 + b * t3 by { MulSum(c2, t3, b); }
    var t1, u1, v2 := b * (c1 + t2), b * (c1 + u2), b * t3;
    assert t1 == u1 + b * v2 by { MulSum(c1 + u2, v2, b); }
    assert b * (c0 + t1) == b * (c0 + u1) + b * (b * v2) by { MulSum(c0 + u1, b * v2, b); }
  }

  lemma FourthTimes(c: nat, b: nat)
    ensures b * (b * (b * (b * c))) == c * Fourth(b)
  {
    MulAssoc(b, b, c);
    MulAssoc(b, b * b, c);
    MulAssoc(b, b * (b * b), c);
  }

  lemma PolyScaled(x: nat, b0: nat, b1: nat, b2: nat, b3: nat, b: nat)
    ensures x * Poly(b0, b1, b2, b3, b) == Poly(x * b0, x * b1, x * b2, x * b3, b)
  {
    MulSum(b0, b * (b1 + b * (b2 + b * b3)), x);
    MulAssoc(x, b, b1 + b * (b2 + b * b3));
    MulSum(b1, b * (b2 + b * b3), x);
    MulAssoc(x, b, b2 + b * b3);
    MulSum(b2, b * b3, x);
    MulAssoc(x, b, b3);
  }

  /** Passing the upper half of every column to the next one. */
  lemma PolyCarry(l0: nat, l1: nat, l2: nat, l3: nat, h0: nat, h1: nat, h2: nat, h3: nat, b: nat)
    ensures Poly(l0 + b * h0, l1 + b * h1, l2 + b * h2, l3 + b * h3, b)
         == Poly(l0, l1 + h0, l2 + h1, l3 + h2, b) + h3 * Fourth(b)
  {
    PolyScaled(b, h0, h1, h2, h3, b);
    PolyUp(h0, h1, h2, h3, b);
    hide Poly, Fourth;
    PolySum(l0, l1, l2, l3, b * h0, b * h1, b * h2, b * h3, b);
    PolySum(l0, l1, l2, l3, 0, h0, h1, h2, b);
  }

  /** A two-digit step of the product: the rows of the upper digits move up one place. */
  lemma AddRow(x: nat, rest: nat, n: nat, b0: nat, b1: nat, b2: nat, b3: nat, b: nat,
               r0: nat, r1: nat, r2: nat, r3: nat, over: nat) returns (out: nat)
    requires n == Poly(b0, b1, b2, b3, b)
    requires rest * n == Poly(r0, r1, r2, r3, b) + over * Fourth(b)
    ensures (x + b * rest) * n
         == Poly(x * b0, x * b1 + r0, x * b2 + r1, x * b3 + r2, b) + out * Fourth(b)
  {
    PolyScaled(x, b0, b1, b2, b3, b);
    PolyUp(r0, r1, r2, r3, b);
    hide Poly, Fourth;
    PolySum(x * b0, x * b1, x * b2, x * b3, 0, r0, r1, r2, b);
    MulSum(x, b * rest, n);
    MulAssoc(b, rest, n);
    MulSum(Poly(r0, r1, r2, r3, b), over * Fourth(b), b);
    MulAssoc(b, over, Fourth(b));
    MulSum(r3, b * over, Fourth(b));
    out := r3 + b * over;
  }

  lemma Columns(a0: nat, a1: nat, a2: nat, a3: nat, b0: nat, b1: nat, b2: nat, b3: nat, b: nat) returns (out: nat)
    ensures Poly(a0, a1, a2, a3, b) * Poly(b0, b1, b2, b3, b)
         == Poly(a0 * b0, a0 * b1 + a1 * b0, a0 * b2 + (a1 * b1 + a2 * b0),
                 a0 * b3 + (a1 * b2 + (a2 * b1 + a3 * b0)), b) + out * Fourth(b)
  {
    var n := Poly(b0, b1, b2, b3, b);
    PolyScaled(a3, b0, b1, b2, b3, b);
    assert Poly(a0, a1, a2, a3, b) == a0 + b * (a1 + b * (a2 + b * a3));
    hide Poly, Fourth;
    out := AddRow(a2, a3, n, b0, b1, b2, b3, b, a3 * b0, a3 * b1, a3 * b2, a3 * b3, 0);
    out := AddRow(a1, a2 + b * a3, n, b0, b1, b2, b3, b,
                  a2 * b0, a2 * b1 + a3 * b0, a2 * b2 + a3 * b1, a2 * b3 + a3 * b2, out);
    out := AddRow(a0, a1 + b * (a2 + b * a3), n, b0, b1, b2, b3, b,
                  a1 * b0, a1 * b1 + a2 * b0, a1 * b2 + (a2 * b1 + a3 * b0), a1 * b3 + (a2 * b2 + a3 * b1), out);
  }

  // The columns of the digits of the products, as both functions add them up.

  function Column0(a0: nat, b0: nat, b: nat): nat
    requires b != 0
  {
    Rem(a0 * b0, b)
  }

  function Column1(a0: nat, a1: nat, b0: nat, b1: nat, b: nat): nat
    requires b != 0
  {
    Rem(a0 * b1, b) + Quot(a0 * b0, b) + Rem(a1 * b0, b)
  }

  function Column2(a0: nat, a1: nat, a2: nat, b0: nat, b1: nat, b2: nat, b: nat): nat
    requires b != 0
  {
    Rem(a0 * b2, b) + Quot(a0 * b1, b) + Rem(a1 * b1, b) + Quot(a1 * b0, b) + Rem(a2 * b0, b)
  }

  function Column3(a0: nat, a1: nat, a2: nat, a3: nat, b0: nat, b1: nat, b2: nat, b3: nat, b: nat): nat
    requires b != 0
  {
    Rem(a0 * b3, b) + Quot(a0 * b2, b) + Rem(a1 * b2, b) + Quot(a1 * b1, b) + Rem(a2 * b1, b) + Quot(a2 * b0, b)
    + Rem(a3 * b0, b)
  }

  /** One more product in a column that is already split into its digits and carry. */
  lemma Split(x: nat, y: nat, lo: nat, hi: nat, b: nat)
    requires b != 0 && y == lo + b * hi
    ensures x + y == (Rem(x, b) + lo) + b * (Quot(x, b) + hi)
  {
    hide *;
    QuotRem(x, b);
    MulSum(Quot(x, b), hi, b);
  }

  /** The four columns denote the product up to a multiple of `b^4`. */
  lemma ColumnsOfProduct(a0: nat, a1: nat, a2: nat, a3: nat, b0: nat, b1: nat, b2: nat, b3: nat, b: nat)
    returns (out: nat)
    requires b != 0
    ensures Poly(a0, a1, a2, a3, b) * Poly(b0, b1, b2, b3, b)
         == Poly(Column0(a0, b0, b), Column1(a0, a1, b0, b1, b), Column2(a0, a1, a2, b0, b1, b2, b),
                 Column3(a0, a1, a2, a3, b0, b1, b2, b3, b), b) + out * Fourth(b)
  {
    out := Columns(a0, a1, a2, a3, b0, b1, b2, b3, b);
    var carry :=
      ColumnsCarried(a0 * b0, a0 * b1, a0 * b2, a0 * b3, a1 * b0, a1 * b1, a1 * b2, a2 * b0, a2 * b1, a3 * b0, b);
    MulSum(carry, out, Fourth(b));
    out := carry + out;
  }

  lemma ColumnsCarried(p00: nat, p01: nat, p02: nat, p03: nat, p10: nat, p11: nat, p12: nat,
                       p20: nat, p21: nat, p30: nat, b: nat) returns (carry: nat)
    requires b != 0
    ensures Poly(p00, p01 + p10, p02 + (p11 + p20), p03 + (p12 + (p21 + p30)), b)
         == Poly(Rem(p00, b), Rem(p01, b) + Quot(p00, b) + Rem(p10, b),
                 Rem(p02, b) + Quot(p01, b) + Rem(p11, b) + Quot(p10, b) + Rem(p20, b),
                 Rem(p03, b) + Quot(p02, b) + Rem(p12, b) + Quot(p11, b) + Rem(p21, b) + Quot(p20, b) + Rem(p30, b), b)
            + carry * Fourth(b)
  {
    hide Poly, Fourth, Quot, Rem;
    Split(p00, 0, 0, 0, b);
    Split(p10, 0, 0, 0, b);
    Split(p20, 0, 0, 0, b);
    Split(p30, 0, 0, 0, b);
    Split(p01, p10, Rem(p10, b), Quot(p10, b), b);
    Split(p11, p20, Rem(p20, b), Quot(p20, b), b);
    Split(p21, p30, Rem(p30, b), Quot(p30, b), b);
    var l2, h2: nat := Rem(p11, b) + Rem(p20, b), Quot(p11, b) + Quot(p20, b);
    Split(p02, p11 + p20, l2, h2, b);
    var l3, h3: nat := Rem(p21, b) + Rem(p30, b), Quot(p21, b) + Quot(p30, b);
    Split(p12, p21 + p30, l3, h3, b);
    Split(p03, p12 + (p21 + p30), Rem(p12, b) + l3, Quot(p12, b) + h3, b);
    carry := Quot(p03, b) + (Quot(p12, b) + h3);
    PolyCarry(Rem(p00, b), Rem(p01, b) + Rem(p10, b), Rem(p02, b) + l2, Rem(p03, b) + (Rem(p12, b) + l3),
              Quot(p00, b), Quot(p01, b) + Quot(p10, b), Quot(p02, b) + h2, carry, b);
  }
}
