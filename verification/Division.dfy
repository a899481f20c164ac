/** Bit counting and shift-subtract division of src/uint256.c. */
module Division {
  import opened Words
  import opened Uint256

  /** The number of binary digits of `n`. */
  function BitLength(n: nat): nat {
    if n == 0 then 0 else 1 + BitLength(n / 2)
  }

  lemma {:induction false} BitLengthBounds(n: nat)
    ensures n < Pow(2, BitLength(n))
    ensures n != 0 ==> Pow(2, BitLength(n) - 1) <= n
  {
    if n != 0 {
      BitLengthBounds(n / 2);
    }
  }

  lemma {:induction false} BitLengthAtMost(n: nat, k: nat)
    requires n < Pow(2, k)
    ensures BitLength(n) <= k
  {
    if n != 0 {
      BitLengthAtMost(n / 2, k - 1);
    }
  }

  lemma BitLengthMonotone(m: nat, n: nat)
    requires m <= n
    ensures BitLength(m) <= BitLength(n)
  {
    BitLengthBounds(n);
    BitLengthAtMost(m, BitLength(n));
  }

  lemma {:induction false} BitLengthDoubled(upper: nat, lower: nat, bits: nat)
    requires 0 < upper && lower < Pow(2, bits)
    ensures 0 < Doubled(upper, bits)
    ensures BitLength(Doubled(upper, bits) + lower) == BitLength(upper) + bits
  {
    if bits != 0 {
      BitLengthDoubled(upper, lower / 2, bits - 1);
    }
  }

  lemma BitLengthOfWords(upper: nat, lower: nat, bits: nat)
    requires 0 < upper && lower < Pow(2, bits)
    ensures BitLength(Join(upper, lower, bits)) == BitLength(upper) + bits
  {
    hide Pow, BitLength, Doubled;
    BitLengthDoubled(upper, lower, bits);
    DoubledIsProduct(upper, bits);
  }

  method Bits128(number: Uint128) returns (result: uint32)
    ensures result == BitLength(number.Value()) <= 128
  {
    hide Pow, Join;
    WordSizes();
    result := 0;
    if number.upper != 0 {
      BitLengthAtMost(number.upper, 64);
      BitLengthOfWords(number.upper, number.lower, 64);
      result := 64;
      var up: uint64 := number.upper;
      while up != 0
        invariant result + BitLength(up) == 64 + BitLength(number.upper)
      {
        up := up / 2;
        result := result + 1;
      }
    } else {
      BitLengthAtMost(number.lower, 64);
      JoinNoUpper(number.lower, 64);
      var low: uint64 := number.lower;
      while low != 0
        invariant result + BitLength(low) == BitLength(number.lower)
      {
        low := low / 2;
        result := result + 1;
      }
    }
  }

  lemma ShrByOne(n: nat)
    ensures Shr(n, 1) == n / 2
  {
    assert Pow(2, 1) == 2;
  }

  method Bits256(number: Uint256) returns (result: uint32)
    requires number.Valid()
    ensures result == BitLength(number.Value()) <= 256
  {
    hide Pow, Join, Shr, Uint128.Value;
    result := 0;
    ghost var u, l := number.upper.Value(), number.lower.Value();
    if !IsZero128(number.upper) {
      BitLengthAtMost(u, 128);
      BitLengthOfWords(u, l, 128);
      result := 128;
      var up := new Uint128();
      Copy128(up, number.upper);
      while !IsZero128(up)
        invariant fresh(up) && number.Value() == old(number.Value())
        invariant result + BitLength(up.Value()) == 128 + BitLength(u)
        decreases up.Value()
      {
        ShrByOne(up.Value());
        ShiftRight128(up, 1, up);
        result := result + 1;
      }
    } else {
      BitLengthAtMost(l, 128);
      JoinNoUpper(l, 128);
      var low := new Uint128();
      Copy128(low, number.lower);
      while !IsZero128(low)
        invariant fresh(low) && number.Value() == old(number.Value())
        invariant result + BitLength(low.Value()) == BitLength(l)
        decreases low.Value()
      {
        ShrByOne(low.Value());
        ShiftRight128(low, 1, low);
        result := result + 1;
      }
    }
  }

  /** The loop of `DivMod256` when the shifted divisor has come down to `d * 2^k`: the quotient so far counts
      whole multiples of `2^(k + 1)` and the remainder is less than two shifted divisors.  Position `-1` is the
      one after the last step. */
  ghost predicate DivisionState(l: nat, d: nat, quotient: nat, rest: nat, k: int, copyD: nat, adder: nat)
  {
    -1 <= k
    && l == quotient * d + rest
    && rest < d * Pow(2, k + 1)
    && Rem(quotient, Pow(2, k + 1)) == 0
    && (0 <= k ==> copyD == d * Pow(2, k) && adder == Pow(2, k))
  }

  lemma DivisionStart(l: nat, d: nat, bits: nat) returns (shift: nat)
    requires 0 < d <= l < Pow(2, bits)
    ensures BitLength(d) <= BitLength(l) <= bits && shift == BitLength(l) - BitLength(d)
    ensures Shl(d, shift) < Pow(2, bits) && Shl(1, shift) < Pow(2, bits)
    ensures DivisionState(l, d, 0, l, shift, Shl(d, shift), Shl(1, shift))
  {
    BitLengthBounds(l);
    BitLengthBounds(d);
    hide Pow, BitLength, Quot, Rem;
    var bl, bd := BitLength(l), BitLength(d);
    BitLengthAtMost(l, bits);
    BitLengthAtMost(d, bl);
    shift := bl - bd;
    PowAdd(2, bd, shift);
    PowMonotone(2, bl, bits);
    MulStrict(d, Pow(2, bd), Pow(2, shift));
    MulMonotone(1, d, Pow(2, shift));
    PowAdd(2, bd - 1, shift + 1);
    MulMonotone(Pow(2, bd - 1), d, Pow(2, shift + 1));
    QuotRemUnique(0, Pow(2, shift + 1), 0, 0);
  }

  /** Halving the shifted divisor and its quotient bit. */
  lemma Halved(d: nat, k: nat)
    ensures 0 < k ==> Shr(d * Pow(2, k), 1) == d * Pow(2, k - 1) && Shr(Pow(2, k), 1) == Pow(2, k - 1)
  {
    if 0 < k {
      var p := Pow(2, k - 1);
      MulAssoc(d, 2, p);
      ShrByOne(2 * (d * p));
      ShrByOne(2 * p);
    }
  }

  /** The remainder was below the shifted divisor: move on to the next position. */
  lemma DivisionSkips(l: nat, d: nat, quotient: nat, rest: nat, k: nat, copyD: nat, adder: nat)
    requires DivisionState(l, d, quotient, rest, k, copyD, adder) && rest < copyD
    ensures DivisionState(l, d, quotient, rest, k - 1, Shr(copyD, 1), Shr(adder, 1))
  {
    Halved(d, k);
    var p := Pow(2, k);
    assert Pow(2, k + 1) == 2 * p;
    hide Pow, Quot, Rem, Shr;
    QuotRem(quotient, 2 * p);
    var c := Quot(quotient, 2 * p);
    MulAssoc(c, 2, p);
    QuotRemUnique(quotient, p, 2 * c, 0);
  }

  /** The shifted divisor fits: `|` adds its quotient bit exactly. */
  lemma DivisionSubtracts(l: nat, d: nat, quotient: nat, rest: nat, k: nat, copyD: nat, adder: nat)
    requires DivisionState(l, d, quotient, rest, k, copyD, adder) && copyD <= rest
    ensures Or(quotient, adder) == quotient + adder
    ensures DivisionState(l, d, quotient + adder, rest - copyD, k - 1, Shr(copyD, 1), Shr(adder, 1))
  {
    Halved(d, k);
    var p := Pow(2, k);
    assert Pow(2, k + 1) == 2 * p;
    hide Pow, Quot, Rem, Shr, Or;
    QuotRem(quotient, 2 * p);
    var c := Quot(quotient, 2 * p);
    OrIsSum(c, p, k + 1);
    MulSum(quotient, p, d);
    MulAssoc(c, 2, p);
    MulSum(2 * c, 1, p);
    QuotRemUnique(quotient + p, p, 2 * c + 1, 0);
    MulAssoc(2, d, p);
  }

  lemma DivisionEnds(l: nat, d: nat, quotient: nat, rest: nat, k: int, copyD: nat, adder: nat)
    requires DivisionState(l, d, quotient, rest, k, copyD, adder) && d <= rest
    ensures 0 <= k
  {
  }

  lemma DivisionDone(l: nat, d: nat, quotient: nat, rest: nat, k: int, copyD: nat, adder: nat)
    requires DivisionState(l, d, quotient, rest, k, copyD, adder) && rest < d
    ensures quotient == Quot(l, d) && rest == Rem(l, d)
  {
    QuotRemUnique(l, d, quotient, rest);
  }

  ghost predicate DistinctCells(a: Uint256, b: Uint256, c: Uint256, d: Uint256, e: Uint256) {
    a.Valid() && b.Valid() && c.Valid() && d.Valid() && e.Valid()
    && Apart(a, b) && Apart(a, c) && Apart(a, d) && Apart(a, e)
    && Apart(b, c) && Apart(b, d) && Apart(b, e) && Apart(c, d) && Apart(c, e) && Apart(d, e)
  }

  /** The loop of `DivMod256`. */
  method SubtractShifted(r: Uint256, copyD: Uint256, adder: Uint256, resDiv: Uint256, resMod: Uint256,
                         ghost l: nat, ghost start: int)
    requires DistinctCells(r, copyD, adder, resDiv, resMod)
    requires r.Value() != 0
    requires DivisionState(l, r.Value(), resDiv.Value(), resMod.Value(), start, copyD.Value(), adder.Value())
    modifies copyD.upper, copyD.lower, adder.upper, adder.lower
    modifies resDiv.upper, resDiv.lower, resMod.upper, resMod.lower
    ensures r.Value() == old(r.Value()) != 0
    ensures resDiv.Value() == Quot(l, r.Value()) && resMod.Value() == Rem(l, r.Value())
  {
    hide Pow, Or, Wrap, Join, Shl, Shr, Quot, Rem, BitLength, Uint128.Value, Uint256.Value, DivisionState;
    ghost var k, d := start, r.Value();
    while Gte256(resMod, r)
      invariant r.Value() == d
      invariant DivisionState(l, d, resDiv.Value(), resMod.Value(), k, copyD.Value(), adder.Value())
      decreases k
    {
      DivisionEnds(l, d, resDiv.Value(), resMod.Value(), k, copyD.Value(), adder.Value());
      if Gte256(resMod, copyD) {
        DivisionSubtracts(l, d, resDiv.Value(), resMod.Value(), k, copyD.Value(), adder.Value());
        WrapFits(resMod.Value() - copyD.Value(), 256);
        Minus256(resMod, copyD, resMod);
        Or256(resDiv, adder, resDiv);
      } else {
        DivisionSkips(l, d, resDiv.Value(), resMod.Value(), k, copyD.Value(), adder.Value());
      }
      ShiftRight256(copyD, 1, copyD);
      ShiftRight256(adder, 1, adder);
      k := k - 1;
    }
    DivisionDone(l, d, resDiv.Value(), resMod.Value(), k, copyD.Value(), adder.Value());
  }

  /** The divisor and its quotient bit brought up to the dividend, and back by one place if that is too far. */
  method AlignDivisor(l: Uint256, r: Uint256, diffBits: uint32, copyD: Uint256, adder: Uint256) returns (ghost k: int)
    requires l.Valid() && r.Valid() && copyD.Valid() && adder.Valid()
    requires Apart(l, copyD) && Apart(l, adder) && Apart(r, copyD) && Apart(r, adder) && Apart(copyD, adder)
    requires 0 < r.Value() <= l.Value() && diffBits == BitLength(l.Value()) - BitLength(r.Value())
    modifies copyD.upper, copyD.lower, adder.upper, adder.lower
    ensures l.Value() == old(l.Value()) && r.Value() == old(r.Value())
    ensures DivisionState(l.Value(), r.Value(), 0, l.Value(), k, copyD.Value(), adder.Value())
  {
    hide Pow, Or, Wrap, Join, Shl, Shr, Quot, Rem, BitLength, Uint128.Value, Uint256.Value, DivisionState;
    var one := new Uint256.Of(1);
    k := DivisionStart(l.Value(), r.Value(), 256);
    WrapFits(Shl(r.Value(), k), 256);
    WrapFits(Shl(1, k), 256);
    ShiftLeft256(r, diffBits, copyD);
    ShiftLeft256(one, diffBits, adder);
    if Gt256(copyD, l) {
      DivisionSkips(l.Value(), r.Value(), 0, l.Value(), k, copyD.Value(), adder.Value());
      ShiftRight256(copyD, 1, copyD);
      ShiftRight256(adder, 1, adder);
      k := k - 1;
    }
  }

  /** Divide `resMod` down by `r`, counting into the cleared `resDiv`. */
  method LongDivide(r: Uint256, diffBits: uint32, resDiv: Uint256, resMod: Uint256)
    requires r.Valid() && resDiv.Valid() && resMod.Valid()
    requires Apart(r, resDiv) && Apart(r, resMod) && Apart(resDiv, resMod)
    requires resDiv.Value() == 0 && 0 < r.Value() <= resMod.Value()
    requires diffBits == BitLength(resMod.Value()) - BitLength(r.Value())
    modifies resDiv.upper, resDiv.lower, resMod.upper, resMod.lower
    ensures resDiv.Value() == Quot(old(resMod.Value()), old(r.Value()))
    ensures resMod.Value() == Rem(old(resMod.Value()), old(r.Value()))
  {
    hide Pow, Or, Wrap, Join, Shl, Shr, Quot, Rem, BitLength, Uint128.Value, Uint256.Value, DivisionState;
    ghost var n := resMod.Value();
    var copyD := new Uint256();
    var adder := new Uint256();
    ghost var k := AlignDivisor(resMod, r, diffBits, copyD, adder);
    assert DistinctCells(r, copyD, adder, resDiv, resMod);
    SubtractShifted(r, copyD, adder, resDiv, resMod, n, k);
  }

  /** The dividend is divided in a copy, so that the results may overwrite the operands. */
  method DivideCopy(l: Uint256, r: Uint256, diffBits: uint32) returns (resDiv: Uint256, resMod: Uint256)
    requires l.Valid() && r.Valid() && 0 < r.Value() <= l.Value()
    requires diffBits == BitLength(l.Value()) - BitLength(r.Value())
    ensures resDiv.Valid() && resMod.Valid() && fresh({resDiv.upper, resDiv.lower, resMod.upper, resMod.lower})
    ensures resDiv.Value() == Quot(l.Value(), r.Value()) && resMod.Value() == Rem(l.Value(), r.Value())
  {
    hide Pow, Or, Wrap, Join, Shl, Shr, Quot, Rem, BitLength, Uint128.Value, Uint256.Value, DivisionState;
    resDiv := new Uint256();
    resMod := new Uint256();
    Clear256(resDiv);
    Copy256(resMod, l);
    LongDivide(r, diffBits, resDiv, resMod);
  }

  /** Division for every nonzero divisor; `retDiv` and `retMod` may be the operands themselves. */
  method DivMod256(l: Uint256, r: Uint256, retDiv: Uint256, retMod: Uint256)
    requires l.Valid() && r.Valid() && retDiv.Valid() && retMod.Valid()
    requires SameOrApart(l, retDiv) && SameOrApart(l, retMod) && SameOrApart(r, retDiv) && SameOrApart(r, retMod)
    requires Apart(retDiv, retMod)
    requires r.Value() != 0
    modifies retDiv.upper, retDiv.lower, retMod.upper, retMod.lower
    ensures retDiv.Value() == Quot(old(l.Value()), old(r.Value()))
    ensures retMod.Value() == Rem(old(l.Value()), old(r.Value()))
  {
    hide Pow, Or, Wrap, Join, Shl, Shr, Quot, Rem, BitLength, Uint128.Value, Uint256.Value, DivisionState;
    ghost var n, d := l.Value(), r.Value();
    var bitsL := Bits256(l);
    var bitsR := Bits256(r);
    var diffBits: uint32 := (bitsL as int - bitsR as int) % 0x1_0000_0000;
    if Gt256(r, l) {
      QuotRemUnique(n, d, 0, n);
      Copy256(retMod, l);
      Clear256(retDiv);
      assert retMod.Value() == n;
    } else {
      BitLengthMonotone(d, n);
      var resDiv, resMod := DivideCopy(l, r, diffBits);
      Copy256(retDiv, resDiv);
      assert resMod.Value() == Rem(n, d);
      Copy256(retMod, resMod);
      assert retDiv.Value() == Quot(n, d);
    }
  }

  // The same at half the width

  lemma ShiftsByOne(n: nat, inPlace: bool)
    ensures ShiftedRight128(n, 1, inPlace) == Shr(n, 1)
  {
    hide Shr;
  }

  method SubtractShifted128(r: Uint128, copyD: Uint128, adder: Uint128, resDiv: Uint128, resMod: Uint128,
                            ghost l: nat, ghost start: int)
    requires r.Value() != 0
    requires r !in {copyD, adder, resDiv, resMod} && copyD !in {adder, resDiv, resMod} && adder !in {resDiv, resMod}
    requires resDiv != resMod
    requires DivisionState(l, r.Value(), resDiv.Value(), resMod.Value(), start, copyD.Value(), adder.Value())
    modifies copyD, adder, resDiv, resMod
    ensures resDiv.Value() == Quot(l, r.Value()) && resMod.Value() == Rem(l, r.Value())
  {
    hide Pow, Or, Wrap, Join, Shl, Shr, Quot, Rem, BitLength, Uint128.Value, DivisionState, ShiftedRight128;
    ghost var k, d := start, r.Value();
    while Gte128(resMod, r)
      invariant r.Value() == d
      invariant DivisionState(l, d, resDiv.Value(), resMod.Value(), k, copyD.Value(), adder.Value())
      decreases k
    {
      DivisionEnds(l, d, resDiv.Value(), resMod.Value(), k, copyD.Value(), adder.Value());
      if Gte128(resMod, copyD) {
        DivisionSubtracts(l, d, resDiv.Value(), resMod.Value(), k, copyD.Value(), adder.Value());
        WrapFits(resMod.Value() - copyD.Value(), 128);
        Minus128(resMod, copyD, resMod);
        Or128(resDiv, adder, resDiv);
      } else {
        DivisionSkips(l, d, resDiv.Value(), resMod.Value(), k, copyD.Value(), adder.Value());
      }
      HalveBoth(copyD, adder);
      k := k - 1;
    }
    DivisionDone(l, d, resDiv.Value(), resMod.Value(), k, copyD.Value(), adder.Value());
  }

  method HalveBoth(copyD: Uint128, adder: Uint128)
    requires copyD != adder
    modifies copyD, adder
    ensures copyD.Value() == Shr(old(copyD.Value()), 1) && adder.Value() == Shr(old(adder.Value()), 1)
  {
    hide Shr, Uint128.Value, ShiftedRight128;
    ShiftsByOne(copyD.Value(), true);
    ShiftsByOne(adder.Value(), true);
    ShiftRight128(copyD, 1, copyD);
    ShiftRight128(adder, 1, adder);
  }

  /** Division of 128-bit numbers for every nonzero divisor; the results may overwrite the operands. */
  method DivMod128(l: Uint128, r: Uint128, retDiv: Uint128, retMod: Uint128)
    requires r.Value() != 0 && retDiv != retMod
    modifies retDiv, retMod
    ensures retDiv.Value() == Quot(old(l.Value()), old(r.Value()))
    ensures retMod.Value() == Rem(old(l.Value()), old(r.Value()))
  {
    hide Pow, Or, Wrap, Join, Shl, Shr, Quot, Rem, BitLength, Uint128.Value, DivisionState;
    ghost var n, d := l.Value(), r.Value();
    var bitsL := Bits128(l);
    var bitsR := Bits128(r);
    var diffBits: uint32 := (bitsL as int - bitsR as int) % 0x1_0000_0000;
    if Gt128(r, l) {
      QuotRemUnique(n, d, 0, n);
      Copy128(retMod, l);
      Clear128(retDiv);
    } else {
      BitLengthMonotone(d, n);
      var resDiv, resMod := DivideCopy128(l, r, diffBits);
      Copy128(retDiv, resDiv);
      Copy128(retMod, resMod);
    }
  }

  method DivideCopy128(l: Uint128, r: Uint128, diffBits: uint32) returns (resDiv: Uint128, resMod: Uint128)
    requires 0 < r.Value() <= l.Value() && diffBits == BitLength(l.Value()) - BitLength(r.Value())
    ensures fresh(resDiv) && fresh(resMod)
    ensures resDiv.Value() == Quot(l.Value(), r.Value()) && resMod.Value() == Rem(l.Value(), r.Value())
  {
    hide Pow, Or, Wrap, Join, Shl, Shr, Quot, Rem, BitLength, Uint128.Value, DivisionState;
    ghost var n, d := l.Value(), r.Value();
    var one := new Uint128.Of(1);
    var copyD := new Uint128();
    var adder := new Uint128();
    resDiv := new Uint128();
    resMod := new Uint128();
    Clear128(resDiv);
    Copy128(resMod, l);
    ghost var k: int := DivisionStart(n, d, 128);
    WrapFits(Shl(d, k), 128);
    WrapFits(Shl(1, k), 128);
    ShiftLeft128(r, diffBits, copyD);
    ShiftLeft128(one, diffBits, adder);
    if Gt128(copyD, resMod) {
      DivisionSkips(n, d, 0, n, k, copyD.Value(), adder.Value());
      HalveBoth(copyD, adder);
      k := k - 1;
    }
    SubtractShifted128(r, copyD, adder, resDiv, resMod, n, k);
  }
}
