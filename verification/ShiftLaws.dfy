/** Arithmetic and shifts on a number kept in two words.

    The laws are first proved for an arbitrary word size `w` (split as `w == p * q` where a shift by `p`
    divides the word) and then stated for words of `bits` bits.
 */
module ShiftLaws {
  import opened Words

  // Equations between products; no quotient or remainder occurs in them.

  lemma CarryEquation(u: int, l: int, w: nat, carry: int, out: int, hi: nat, lo: nat)
    requires l == carry * w + lo && u + carry == out * w + hi && hi < w && lo < w
    ensures u * w + l == out * (w * w) + (hi * w + lo)
    ensures 0 <= hi * w + lo < w * w
  {
    MulSum(u, carry, w);
    MulSum(out * w, hi, w);
    MulAssoc(out, w, w);
    MulStrict(hi, w, w);
  }

  lemma LeftEquation(upper: nat, lower: nat, p: nat, w: nat, out: nat, stay: nat, carry: nat, low: nat)
    requires upper * p == out * w + stay && lower * p == carry * w + low
    ensures (upper * w + lower) * p == out * (w * w) + ((stay + carry) * w + low)
  {
    MulSum(upper * w, lower, p);
    MulAssoc(upper, w, p);
    MulAssoc(w, upper, p);
    MulSum(out * w, stay, w);
    MulAssoc(out, w, w);
    MulSum(stay, carry, w);
  }

  lemma RightEquation(u1: nat, u0: nat, l1: nat, l0: nat, p: nat, q: nat)
    ensures (u1 * p + u0) * (p * q) + (l1 * p + l0) == (u1 * (p * q) + (u0 * q + l1)) * p + l0
  {
    var w := p * q;
    MulSum(u1 * p, u0, w);
    MulAssoc(u1, p, w);
    MulAssoc(u1, w, p);
    MulSum(u1 * w, u0 * q + l1, p);
    MulSum(u0 * q, l1, p);
    MulAssoc(u0, q, p);
  }

  lemma WordLeftEquation(upper: nat, lower: nat, p: nat, w: nat, out: int, stay: nat)
    requires lower * p == out * w + stay && stay < w
    ensures (upper * w + lower) * (w * p) == (upper * p + out) * (w * w) + stay * w
    ensures 0 <= stay * w < w * w
  {
    MulStrict(stay, w, w);
    MulAssoc(upper * w + lower, p, w);
    MulSum(upper * w, lower, p);
    MulAssoc(upper, w, p);
    MulAssoc(upper, p, w);
    MulSum((upper * p) * w, out * w + stay, w);
    MulSum(out * w, stay, w);
    MulSum(upper * p, out, w * w);
    MulAssoc(upper * p, w, w);
    MulAssoc(out, w, w);
  }

  lemma WordRightEquation(q: nat, r: nat, lower: nat, p: nat, w: nat)
    requires r < p && lower < w
    ensures (q * p + r) * w + lower == q * (w * p) + (r * w + lower)
    ensures 0 <= r * w + lower < w * p
  {
    MulSum(q * p, r, w);
    MulAssoc(q, p, w);
    MulStrict(r, p, w);
  }

  // The laws for an arbitrary word size.

  /** The lower word's quotient is the carry (or, negative, the borrow) into the upper word. */
  lemma TwoWords(u: int, l: int, w: nat)
    requires w != 0
    ensures 0 < w * w && Rem(u + Quot(l, w), w) * w + Rem(l, w) == Rem(u * w + l, w * w)
  {
    hide *;
    MulPositive(w, w);
    QuotRem(l, w);
    QuotRem(u + Quot(l, w), w);
    var out, hi, lo := Quot(u + Quot(l, w), w), Rem(u + Quot(l, w), w), Rem(l, w);
    CarryEquation(u, l, w, Quot(l, w), out, hi, lo);
    QuotRemUnique(u * w + l, w * w, out, hi * w + lo);
  }

  /** A left shift by `p`: what stays in a word and what leaves it. */
  lemma WordTimes(x: nat, p: nat, q: nat)
    requires 0 < p && 0 < q && x < p * q
    ensures 0 < p * q && Quot(x, q) < p && Quot(x * p, p * q) == Quot(x, q)
    ensures Rem(x * p, p * q) == Rem(x, q) * p && Rem(x * p, p * q) + p <= p * q
  {
    hide *;
    var h, r := Quot(x, q), Rem(x, q);
    QuotRem(x, q);
    MulSum(h * q, r, p);
    MulAssoc(h, q, p);
    if h >= p {
      MulMonotone(p, h, q);
    }
    MulStrict(r, q, p);
    QuotRemUnique(x * p, p * q, h, r * p);
  }

  lemma LeftShift(upper: nat, lower: nat, p: nat, q: nat, w: nat)
    requires w == p * q && 0 < p && 0 < q && upper < w && lower < w
    ensures 0 < w && 0 < w * w && Rem(upper * p, w) + Quot(lower, q) < w
    ensures (Rem(upper * p, w) + Quot(lower, q)) * w + Rem(lower * p, w) == Rem((upper * w + lower) * p, w * w)
  {
    hide *;
    MulPositive(p, q);
    MulPositive(w, w);
    WordTimes(upper, p, q);
    WordTimes(lower, p, q);
    QuotRem(upper * p, w);
    QuotRem(lower * p, w);
    var out: nat, stay, carry: nat, low := Quot(upper * p, w), Rem(upper * p, w), Quot(lower, q), Rem(lower * p, w);
    LeftEquation(upper, lower, p, w, out, stay, carry, low);
    MulStrict(stay + carry, w, w);
    QuotRemUnique((upper * w + lower) * p, w * w, out, (stay + carry) * w + low);
  }

  lemma RightShift(upper: nat, lower: nat, p: nat, q: nat, w: nat)
    requires w == p * q && 0 < p && 0 < q && upper < w && lower < w
    ensures 0 < w && Quot(upper, p) < w && Rem(upper * q, w) + Quot(lower, p) < w
    ensures Quot(upper, p) * w + (Rem(upper * q, w) + Quot(lower, p)) == Quot(upper * w + lower, p)
  {
    hide *;
    MulPositive(p, q);
    WordTimes(upper, q, p);
    WordTimes(lower, q, p);
    MulMonotone(1, p, q);
    QuotRem(upper, p);
    QuotRem(lower, p);
    var u1: nat, u0, l1: nat, l0 := Quot(upper, p), Rem(upper, p), Quot(lower, p), Rem(lower, p);
    RightEquation(u1, u0, l1, l0, p, q);
    QuotRemUnique(upper * w + lower, p, u1 * w + (u0 * q + l1), l0);
  }

  /** A left shift by a whole word and then by `p`. */
  lemma LeftByWord(upper: nat, lower: nat, p: nat, w: nat)
    requires 0 < w && upper < w && lower < w
    ensures 0 < w * w && Rem(lower * p, w) * w == Rem((upper * w + lower) * (w * p), w * w)
  {
    hide *;
    MulPositive(w, w);
    QuotRem(lower * p, w);
    var out, stay := Quot(lower * p, w), Rem(lower * p, w);
    WordLeftEquation(upper, lower, p, w, out, stay);
    QuotRemUnique((upper * w + lower) * (w * p), w * w, upper * p + out, stay * w);
  }

  lemma RightByWord(upper: nat, lower: nat, p: nat, w: nat)
    requires lower < w && 0 < p
    ensures 0 < w * p && Quot(upper, p) == Quot(upper * w + lower, w * p)
  {
    hide *;
    MulPositive(w, p);
    QuotRem(upper, p);
    var q: nat, r := Quot(upper, p), Rem(upper, p);
    WordRightEquation(q, r, lower, p, w);
    QuotRemUnique(upper * w + lower, w * p, q, r * w + lower);
  }

  // The laws for words of `bits` bits.

  lemma Powers(value: nat, bits: nat)
    requires value <= bits
    ensures Pow(2, bits) == Pow(2, value) * Pow(2, bits - value)
    ensures Pow(2, 2 * bits) == Pow(2, bits) * Pow(2, bits)
  {
    PowAdd(2, value, bits - value);
    PowAdd(2, bits, bits);
  }

  lemma AddWords(u1: nat, l1: nat, u2: nat, l2: nat, bits: nat)
    requires l1 < Pow(2, bits) && l2 < Pow(2, bits)
    ensures Join(Wrap(u1 + u2 + if Wrap(l1 + l2, bits) < l1 then 1 else 0, bits), Wrap(l1 + l2, bits), bits)
         == Wrap(Join(u1, l1, bits) + Join(u2, l2, bits), 2 * bits)
  {
    hide Pow, Quot, Rem;
    var w := Pow(2, bits);
    Powers(0, bits);
    TwoWords(u1 + u2, l1 + l2, w);
    if l1 + l2 < w {
      QuotRemUnique(l1 + l2, w, 0, l1 + l2);
    } else {
      QuotRemUnique(l1 + l2, w, 1, l1 + l2 - w);
    }
    MulSum(u1, u2, w);
  }

  lemma SubtractWords(u1: nat, l1: nat, u2: nat, l2: nat, bits: nat)
    requires l1 < Pow(2, bits) && l2 < Pow(2, bits)
    ensures Join(Wrap(u1 - u2 - if Wrap(l1 - l2, bits) > l1 then 1 else 0, bits), Wrap(l1 - l2, bits), bits)
         == Wrap(Join(u1, l1, bits) - Join(u2, l2, bits), 2 * bits)
  {
    hide Pow, Quot, Rem;
    var w := Pow(2, bits);
    Powers(0, bits);
    TwoWords(u1 - u2, l1 - l2, w);
    if l2 <= l1 {
      QuotRemUnique(l1 - l2, w, 0, l1 - l2);
    } else {
      QuotRemUnique(l1 - l2, w, -1, l1 - l2 + w);
    }
    MulSum(u1 - u2, u2, w);
  }

  lemma ShiftLeftWithin(upper: nat, lower: nat, value: nat, bits: nat)
    requires value <= bits && upper < Pow(2, bits) && lower < Pow(2, bits)
    ensures var hi := Wrap(Shl(upper, value), bits) + Shr(lower, bits - value);
            hi < Pow(2, bits)
            && Join(hi, Wrap(Shl(lower, value), bits), bits) == Wrap(Shl(Join(upper, lower, bits), value), 2 * bits)
  {
    hide Pow, Quot, Rem;
    Powers(value, bits);
    LeftShift(upper, lower, Pow(2, value), Pow(2, bits - value), Pow(2, bits));
  }

  lemma ShiftLeftBeyond(upper: nat, lower: nat, value: nat, bits: nat)
    requires bits <= value && upper < Pow(2, bits) && lower < Pow(2, bits)
    ensures Join(Wrap(Shl(lower, value - bits), bits), 0, bits) == Wrap(Shl(Join(upper, lower, bits), value), 2 * bits)
  {
    hide Pow, Quot, Rem;
    PowAdd(2, bits, value - bits);
    Powers(bits, bits);
    LeftByWord(upper, lower, Pow(2, value - bits), Pow(2, bits));
  }

  /** A left shift by at least the width leaves nothing. */
  lemma ShiftLeftOut(n: nat, value: nat, bits: nat)
    requires bits <= value
    ensures Wrap(Shl(n, value), bits) == 0
  {
    hide Pow, Quot, Rem;
    var w, k := Pow(2, bits), Pow(2, value - bits);
    PowAdd(2, bits, value - bits);
    MulAssoc(n, k, w);
    QuotRemUnique(n * (w * k), w, n * k, 0);
  }

  lemma ShiftRightWithin(upper: nat, lower: nat, value: nat, bits: nat)
    requires value <= bits && upper < Pow(2, bits) && lower < Pow(2, bits)
    ensures Shr(upper, value) < Pow(2, bits)
    ensures var lo := Wrap(Shl(upper, bits - value), bits) + Shr(lower, value);
            lo < Pow(2, bits) && Join(Shr(upper, value), lo, bits) == Shr(Join(upper, lower, bits), value)
  {
    hide Pow, Quot, Rem;
    Powers(value, bits);
    RightShift(upper, lower, Pow(2, value), Pow(2, bits - value), Pow(2, bits));
  }

  lemma ShiftRightBeyond(upper: nat, lower: nat, value: nat, bits: nat)
    requires bits <= value && upper < Pow(2, bits) && lower < Pow(2, bits)
    ensures Shr(upper, value - bits) < Pow(2, bits)
    ensures Join(0, Shr(upper, value - bits), bits) == Shr(Join(upper, lower, bits), value)
  {
    hide Pow, Quot, Rem;
    var p := Pow(2, value - bits);
    PowAdd(2, bits, value - bits);
    RightByWord(upper, lower, p, Pow(2, bits));
    QuotRem(upper, p);
    MulMonotone(1, p, Quot(upper, p));
  }

  lemma ShiftRightOut(n: nat, value: nat, bits: nat)
    requires bits <= value && n < Pow(2, bits)
    ensures Shr(n, value) == 0
  {
    hide Pow, Quot, Rem;
    PowMonotone(2, bits, value);
    QuotRemUnique(n, Pow(2, value), 0, n);
  }

  lemma ShiftNone(n: nat)
    ensures Shl(n, 0) == n && Shr(n, 0) == n
  {
    hide Quot, Rem;
    QuotRemUnique(n, 1, n, 0);
  }
}
