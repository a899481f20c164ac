/** Positional numerals, most significant digit first.  Byte strings are base 256, printed amounts base 10. */
module Numerals {
  import opened Words

  function Eval(base: nat, ds: seq<nat>): nat {
    if ds == [] then 0 else Eval(base, ds[..|ds| - 1]) * base + ds[|ds| - 1]
  }

  lemma QuotSmaller(n: nat, base: nat)
    requires 2 <= base && n != 0
    ensures Quot(n, base) < n
  {
    hide *;
    QuotRem(n, base);
    MulMonotone(2, base, Quot(n, base));
  }

  /** The numeral of `n` without leading zeros; zero has no digits. */
  function Digits(base: nat, n: nat): seq<nat>
    requires 2 <= base
  {
    if n == 0 then [] else QuotSmaller(n, base); Digits(base, Quot(n, base)) + [Rem(n, base)]
  }

  function Zeros(n: nat): seq<nat> {
    seq(n, _ => 0)
  }

  ghost predicate Below(base: nat, ds: seq<nat>) {
    forall i :: 0 <= i < |ds| ==> ds[i] < base
  }

  /** Digits below the base and no leading zero. */
  ghost predicate Canonical(base: nat, ds: seq<nat>) {
    Below(base, ds) && (ds != [] ==> ds[0] != 0)
  }

  lemma EvalSnoc(base: nat, ds: seq<nat>, d: nat)
    ensures Eval(base, ds + [d]) == Eval(base, ds) * base + d
  {
    assert (ds + [d])[..|ds|] == ds;
  }

  lemma {:induction false} EvalConcat(base: nat, x: seq<nat>, y: seq<nat>)
    ensures Eval(base, x + y) == Eval(base, x) * Pow(base, |y|) + Eval(base, y)
  {
    if y == [] {
      assert x + y == x;
    } else {
      var y', d := y[..|y| - 1], y[|y| - 1];
      assert x + y == (x + y') + [d] && y == y' + [d];
      EvalConcat(base, x, y');
      EvalSnoc(base, x + y', d);
      EvalSnoc(base, y', d);
      var e, p := Eval(base, x), Pow(base, |y'|);
      MulSum(e * p, Eval(base, y'), base);
      MulAssoc(e, p, base);
      MulAssoc(base, p, e);
    }
  }

  lemma {:induction false} EvalZeros(base: nat, n: nat)
    ensures Eval(base, Zeros(n)) == 0
  {
    if n != 0 {
      EvalZeros(base, n - 1);
      assert Zeros(n)[..n - 1] == Zeros(n - 1);
    }
  }

  lemma {:induction false} EvalBound(base: nat, ds: seq<nat>)
    requires Below(base, ds)
    ensures Eval(base, ds) < Pow(base, |ds|)
  {
    if ds != [] {
      var ds', d := ds[..|ds| - 1], ds[|ds| - 1];
      EvalBound(base, ds');
      EvalSnoc(base, ds', d);
      assert ds == ds' + [d];
      PowStep(base, |ds'|);
      MulStrict(Eval(base, ds'), Pow(base, |ds'|), base);
    }
  }

  lemma {:induction false} DigitsCanonical(base: nat, n: nat)
    requires 2 <= base
    ensures Canonical(base, Digits(base, n)) && Eval(base, Digits(base, n)) == n
    ensures n == 0 <==> Digits(base, n) == []
  {
    hide Quot, Rem, Eval;
    if n == 0 {
      EvalNone(base);
    } else {
      var q, r := Quot(n, base), Rem(n, base);
      QuotSmaller(n, base);
      QuotRem(n, base);
      DigitsCanonical(base, q);
      EvalSnoc(base, Digits(base, q), r);
    }
  }

  lemma EvalNone(base: nat)
    ensures Eval(base, []) == 0
  {
  }

  lemma {:induction false} DigitsUnique(base: nat, ds: seq<nat>)
    requires 2 <= base && Canonical(base, ds)
    ensures Digits(base, Eval(base, ds)) == ds
  {
    if ds != [] {
      var ds', d := ds[..|ds| - 1], ds[|ds| - 1];
      DigitsUnique(base, ds');
      QuotRemUnique(Eval(base, ds), base, Eval(base, ds'), d);
      if ds' != [] {
        assert Eval(base, ds') != 0;
        assert Eval(base, ds') * base >= 1;
      }
      assert ds == ds' + [d];
    }
  }

  /** `n` has at most `k` digits exactly when it is below `base^k`. */
  lemma {:induction false} DigitCount(base: nat, n: nat, k: nat)
    requires 2 <= base
    ensures |Digits(base, n)| <= k <==> n < Pow(base, k)
  {
    if k == 0 {
      DigitsCanonical(base, n);
    } else if n == 0 {
    } else {
      DigitCount(base, Quot(n, base), k - 1);
      var q, p := Quot(n, base), Pow(base, k - 1);
      QuotRem(n, base);
      if q < p {
        MulMonotone(q + 1, p, base);
        MulSum(q, 1, base);
      } else {
        MulMonotone(p, q, base);
      }
    }
  }

  /** A left-padded numeral still denotes the same number, and only one fills a given width. */
  lemma PadUnique(base: nat, x: seq<nat>, y: seq<nat>)
    requires 2 <= base && Below(base, x) && Below(base, y)
    requires |x| == |y| && Eval(base, x) == Eval(base, y)
    ensures x == y
    decreases |x|
  {
    if x != [] {
      var x', y' := x[..|x| - 1], y[..|y| - 1];
      QuotRemUnique(Eval(base, x), base, Eval(base, x'), x[|x| - 1]);
      QuotRemUnique(Eval(base, y), base, Eval(base, y'), y[|y| - 1]);
      PadUnique(base, x', y');
      assert x == x' + [x[|x| - 1]] && y == y' + [y[|y| - 1]];
    }
  }
}
