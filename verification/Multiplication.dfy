/** `mul128` and `mul256` of src/uint256.c. */
module Multiplication {
  import opened Words
  import opened ShiftLaws
  import opened Schoolbook
  import opened Uint256

  lemma RemOfMultiple(x: int, k: int, d: nat)
    requires d != 0
    ensures Rem(x + k * d, d) == Rem(x, d)
  {
    hide *;
    QuotRem(x, d);
    MulSum(Quot(x, d), k, d);
    QuotRemUnique(x + k * d, d, Quot(x, d) + k, Rem(x, d));
  }

  /** A number of `4 * bits` bits as four digits of `bits` bits. */
  lemma FourDigits(u: nat, l: nat, bits: nat)
    ensures Join(u, l, 2 * bits)
         == Poly(Wrap(l, bits), Shr(l, bits), Wrap(u, bits), Shr(u, bits), Pow(2, bits))
  {
    hide Pow, Quot, Rem, Poly;
    var b := Pow(2, bits);
    PowAdd(2, bits, bits);
    QuotRem(u, b);
    QuotRem(l, b);
    var l1: nat, l0, u1: nat, u0 := Quot(l, b), Rem(l, b), Quot(u, b), Rem(u, b);
    PolyIsSum(l0, l1, u0, u1, b);
    ShlTimes(u, 2 * bits, b * b);
    MulSum(u1 * b, u0, b * b);
    MulAssoc(u1, b, b * b);
  }

  lemma FourthIsPow(bits: nat)
    ensures Fourth(Pow(2, bits)) == Pow(2, 4 * bits)
  {
    hide Pow;
    PowAdd(2, bits, bits);
    PowAdd(2, bits, 2 * bits);
    PowAdd(2, bits, 3 * bits);
  }

  lemma DigitsFit(u: nat, l: nat, bits: nat)
    requires u < Pow(2, 2 * bits) && l < Pow(2, 2 * bits)
    ensures Shr(u, bits) < Pow(2, bits) && Shr(l, bits) < Pow(2, bits)
  {
    hide Pow, Quot, Rem;
    PowAdd(2, bits, bits);
    HighDigitFits(u, Pow(2, bits));
    HighDigitFits(l, Pow(2, bits));
  }

  lemma HighDigitFits(x: nat, b: nat)
    requires 0 < b && x < b * b
    ensures Quot(x, b) < b
  {
    hide *;
    QuotRem(x, b);
    if Quot(x, b) >= b {
      MulMonotone(b, Quot(x, b), b);
    }
  }

  lemma ProductFits(x: nat, y: nat, bits: nat)
    requires x < Pow(2, bits) && y < Pow(2, bits)
    ensures x * y < Pow(2, 2 * bits)
    ensures Quot(x * y, Pow(2, bits)) < Pow(2, bits)
  {
    hide Pow, Quot, Rem;
    var b := Pow(2, bits);
    PowAdd(2, bits, bits);
    MulMonotone(x, b, y);
    MulStrict(y, b, b);
    HighDigitFits(x * y, b);
  }

  method Products32(top: array<uint64>, bottom: array<uint64>) returns (products: array2<uint64>)
    requires top.Length == 4 && bottom.Length == 4
    requires forall i :: 0 <= i < 4 ==> top[i] < W32 && bottom[i] < W32
    ensures fresh(products) && products.Length0 == 4 && products.Length1 == 4
    ensures forall i, j :: 0 <= i < 4 && 0 <= j < 4 ==> products[i, j] == Times(top[3 - i], bottom[j])
  {
    hide Times;
    products := new uint64[4, 4];
    var y := 3;
    while y > -1
      invariant -1 <= y <= 3
      invariant forall i, j :: 0 <= i < 4 && y < j < 4 ==> products[i, j] == Times(top[3 - i], bottom[j])
    {
      var x := 3;
      while x > -1
        invariant -1 <= x <= 3
        invariant forall i, j :: 0 <= i < 4 && y < j < 4 ==> products[i, j] == Times(top[3 - i], bottom[j])
        invariant forall i :: 0 <= i < 3 - x ==> products[i, y] == Times(top[3 - i], bottom[y])
      {
        TimesFits32(top[x], bottom[y]);
        products[3 - x, y] := Times(top[x], bottom[y]);
        x := x - 1;
      }
      y := y - 1;
    }
  }

  lemma TimesFits32(x: nat, y: nat)
    requires x < W32 && y < W32
    ensures Times(x, y) < W64
  {
    WordSizes();
    ProductFits(x, y, 32);
  }

  /** The columns put in their places and added up, for the 32-bit columns of `mul128`. */
  lemma Assembled128(f4: nat, t3: nat, s2: nat, f1: nat)
    requires f4 < W64 && t3 < W64 && s2 < W64 && f1 < W64
    ensures var upper := Join(Wrap(Shl(f1, 32), 64), 0, 64);
            var lower := Join(Shr(t3, 32), Wrap(Shl(t3, 32), 64), 64);
            Wrap(Join(0, f4, 64) + Wrap(Join(s2, 0, 64) + Wrap(upper + lower, 128), 128), 128)
              == Wrap(Poly(f4, t3, s2, f1, Pow(2, 32)), 128)
  {
    WordSizes();
    hide Pow, Quot, Rem, Wrap, Shr, Poly, Shl, Join;
    ShiftLeftBeyond(0, f1, 96, 64);
    ShiftLeftWithin(0, t3, 32, 64);
    JoinNoUpper(f1, 64);
    JoinNoUpper(t3, 64);
    JoinNoUpper(f4, 64);
    ShlZero(32);
    WrapFits(0, 64);
    var x1, x2, x3 := Shl(f1, 96), Shl(t3, 32), Shl(s2, 64);
    JoinIsShl(s2, 64);
    PolyIsShifts(f4, t3, s2, f1, 32);
    WrapAgain(x1, Wrap(x2, 128), 128);
    WrapAgain(x2, x1, 128);
    WrapAgain(x1 + x2, x3, 128);
    WrapAgain(x1 + x2 + x3, f4, 128);
  }

  lemma ShlZero(n: nat)
    ensures Shl(0, n) == 0
  {
  }

  lemma JoinIsShl(upper: nat, bits: nat)
    ensures Join(upper, 0, bits) == Shl(upper, bits)
  {
  }

  lemma PolyIsShifts(c0: nat, c1: nat, c2: nat, c3: nat, bits: nat)
    ensures Poly(c0, c1, c2, c3, Pow(2, bits)) == c0 + Shl(c1, bits) + Shl(c2, 2 * bits) + Shl(c3, 3 * bits)
  {
    hide Pow, Poly, Shl;
    var b := Pow(2, bits);
    PowAdd(2, bits, bits);
    PowAdd(2, bits, 2 * bits);
    ShlTimes(c1, bits, b);
    ShlTimes(c2, 2 * bits, b * b);
    ShlTimes(c3, 3 * bits, b * (b * b));
    PolyIsSum(c0, c1, c2, c3, b);
  }

  lemma ShlTimes(x: nat, n: nat, p: nat)
    requires p == Pow(2, n)
    ensures Shl(x, n) == x * p
  {
  }

  lemma PolyIsSum(c0: nat, c1: nat, c2: nat, c3: nat, b: nat)
    ensures Poly(c0, c1, c2, c3, b) == c0 + c1 * b + c2 * (b * b) + c3 * (b * (b * b))
  {
    var x3 := b * c3;
    assert b * (c2 + x3) == b * c2 + b * x3 by { MulSum(c2, x3, b); }
    assert b * (c1 + (b * c2 + b * x3)) == b * c1 + (b * (b * c2) + b * (b * x3)) by {
      MulSum(c1, b * c2 + b * x3, b);
      MulSum(b * c2, b * x3, b);
    }
    MulAssoc(b, b, c2);
    MulAssoc(b, b, x3);
    MulAssoc(b, b * b, c3);
    MulAssoc(b * b, b, c3);
  }

  lemma Digits32(number: Uint128)
    ensures number.Value() == Poly(Wrap(number.lower, 32), Shr(number.lower, 32),
                                   Wrap(number.upper, 32), Shr(number.upper, 32), Pow(2, 32))
    ensures Shr(number.lower, 32) < W32 && Shr(number.upper, 32) < W32
    ensures Wrap(number.lower, 32) < W32 && Wrap(number.upper, 32) < W32
  {
    WordSizes();
    hide Pow, Wrap, Shr, Poly, Join;
    FourDigits(number.upper, number.lower, 32);
    DigitsFit(number.upper, number.lower, 32);
  }

  method Mul128(number1: Uint128, number2: Uint128, target: Uint128)
    modifies target
    ensures target.Value() == Wrap(old(number1.Value()) * old(number2.Value()), 128)
  {
    WordSizes();
    hide Pow, Wrap, Shl, Shr, Join, Poly, Fourth, Times, Quot, Rem, Uint128.Value;
    hide Column0, Column1, Column2, Column3;
    Digits32(number1);
    Digits32(number2);
    ghost var m, n := number1.Value(), number2.Value();
    var top := new uint64[4] [Shr(number1.upper, 32), Wrap(number1.upper, 32),
                              Shr(number1.lower, 32), Wrap(number1.lower, 32)];
    var bottom := new uint64[4] [Shr(number2.upper, 32), Wrap(number2.upper, 32),
                                 Shr(number2.lower, 32), Wrap(number2.lower, 32)];
    var products := Products32(top, bottom);
    ghost var a0, a1, a2, a3 := top[3], top[2], top[1], top[0];
    ghost var b0, b1, b2, b3 := bottom[3], bottom[2], bottom[1], bottom[0];
    var fourth32, third32, second32, first32 := Columns32(products, a0, a1, a2, a3, b0, b1, b2, b3);
    Place128(fourth32, third32, second32, first32, target);
    ghost var out := ColumnsOfProduct(a0, a1, a2, a3, b0, b1, b2, b3, Pow(2, 32));
    FourthIsPow(32);
    WrapOfMultiple(Poly(fourth32, third32, second32, first32, Pow(2, 32)), out, 128);
  }

  /** The columns put in their places, the end of `mul128`. */
  method Place128(fourth32: uint64, third32: uint64, second32: uint64, first32: uint64, target: Uint128)
    modifies target
    ensures target.Value() == Wrap(Poly(fourth32, third32, second32, first32, Pow(2, 32)), 128)
  {
    WordSizes();
    hide Pow, Wrap, Shl, Shr, Join, Poly, Uint128.Value;
    DigitsFit(third32, third32, 32);
    var tmp := new Uint128.Pair(Wrap(Shl(first32, 32), 64), 0);
    var tmp2 := new Uint128.Pair(Shr(third32, 32), Wrap(Shl(third32, 32), 64));
    Add128(tmp, tmp2, target);
    tmp.Set(second32, 0);
    Add128(tmp, target, tmp2);
    tmp.Set(0, fourth32);
    Add128(tmp, tmp2, target);
    Assembled128(fourth32, third32, second32, first32);
  }

  lemma WrapOfMultiple(x: int, k: nat, bits: nat)
    ensures Wrap(x + k * Pow(2, bits), bits) == Wrap(x, bits)
  {
    RemOfMultiple(x, k, Pow(2, bits));
  }

  /** The sums of `mul128`; none of them wraps. */
  method Columns32(products: array2<uint64>, ghost a0: nat, ghost a1: nat, ghost a2: nat, ghost a3: nat,
                   ghost b0: nat, ghost b1: nat, ghost b2: nat, ghost b3: nat)
    returns (fourth32: uint64, third32: uint64, second32: uint64, first32: uint64)
    requires products.Length0 == 4 && products.Length1 == 4
    requires products[0, 3] == Times(a0, b0) && products[0, 2] == Times(a0, b1)
    requires products[0, 1] == Times(a0, b2) && products[0, 0] == Times(a0, b3)
    requires products[1, 3] == Times(a1, b0) && products[1, 2] == Times(a1, b1) && products[1, 1] == Times(a1, b2)
    requires products[2, 3] == Times(a2, b0) && products[2, 2] == Times(a2, b1)
    requires products[3, 3] == Times(a3, b0)
    ensures var b := Pow(2, 32);
            fourth32 == Column0(a0, b0, b)
            && third32 == Column1(a0, a1, b0, b1, b)
            && second32 == Column2(a0, a1, a2, b0, b1, b2, b)
            && first32 == Column3(a0, a1, a2, a3, b0, b1, b2, b3, b)
  {
    WordSizes();
    hide Pow, Quot, Rem;
    forall p: uint64
      ensures Shr(p, 32) < W32 && Wrap(p, 32) < W32
    {
      DigitsFit(p, p, 32);
    }
    fourth32 := Wrap(products[0, 3], 32);
    third32 := Wrap(products[0, 2], 32) + Shr(products[0, 3], 32);
    second32 := Wrap(products[0, 1], 32) + Shr(products[0, 2], 32);
    first32 := Wrap(products[0, 0], 32) + Shr(products[0, 1], 32);
    third32 := third32 + Wrap(products[1, 3], 32);
    second32 := second32 + Wrap(products[1, 2], 32) + Shr(products[1, 3], 32);
    first32 := first32 + Wrap(products[1, 1], 32) + Shr(products[1, 2], 32);
    second32 := second32 + Wrap(products[2, 3], 32);
    first32 := first32 + Wrap(products[2, 2], 32) + Shr(products[2, 3], 32);
    first32 := first32 + Wrap(products[3, 3], 32);
  }

  // mul256

  /** What the sums of the third column carry out of their 64 bits. */
  function Misplaced(a: nat, b: nat): nat {
    WordSizes();
    var w := Pow(2, 64);
    var a0, a1, b0, b1 := Rem(a, w), Rem(Quot(a, w), w), Rem(b, w), Rem(Quot(b, w), w);
    Quot(Column1(a0, a1, b0, b1, w), w)
  }

  /** The number `mul256` leaves in its target: the carry out of the third column lands at weight `2^192`
      although it belongs at weight `2^128`. */
  function Product256(a: nat, b: nat): nat {
    Wrap(a * b + (Shl(Misplaced(a, b), 192) - Shl(Misplaced(a, b), 128)), 256)
  }

  /** One of the sixteen products. */
  method ExactProduct(a: Uint128, b: Uint128) returns (product: Uint128)
    requires a.Value() < Pow(2, 64) && b.Value() < Pow(2, 64)
    ensures fresh(product) && product.Value() == Times(a.Value(), b.Value())
  {
    hide Times, Wrap, Pow, Join, Uint128.Value;
    TimesExact(a.Value(), b.Value());
    product := new Uint128();
    Mul128(a, b, product);
  }

  method Products64(top: array<Uint128>, bottom: array<Uint128>, ghost a: seq<nat>, ghost b: seq<nat>)
    returns (products: array2<Uint128>)
    requires top.Length == 4 && bottom.Length == 4 && |a| == 4 && |b| == 4
    requires forall i :: 0 <= i < 4 ==> a[i] < Pow(2, 64) && b[i] < Pow(2, 64)
    requires forall i :: 0 <= i < 4 ==> top[i].Value() == a[3 - i] && bottom[i].Value() == b[3 - i]
    ensures fresh(products) && products.Length0 == 4 && products.Length1 == 4
    ensures forall i, j :: 0 <= i < 4 && 0 <= j < 4 ==> products[i, j].Value() == Times(a[i], b[3 - j])
  {
    hide Times, Wrap, Pow, Join, Uint128.Value;
    var blank := new Uint128();
    products := new Uint128[4, 4]((i, j) => blank);
    var y := 3;
    while y > -1
      invariant -1 <= y <= 3
      invariant forall i, j :: 0 <= i < 4 && y < j < 4 ==> products[i, j].Value() == Times(a[i], b[3 - j])
    {
      var x := 3;
      while x > -1
        invariant -1 <= x <= 3
        invariant forall i, j :: 0 <= i < 4 && y < j < 4 ==> products[i, j].Value() == Times(a[i], b[3 - j])
        invariant forall i :: 0 <= i < 3 - x ==> products[i, y].Value() == Times(a[i], b[3 - y])
      {
        var product := ExactProduct(top[x], bottom[y]);
        products[3 - x, y] := product;
        x := x - 1;
      }
      y := y - 1;
    }
  }

  lemma TimesExact(x: nat, y: nat)
    requires x < Pow(2, 64) && y < Pow(2, 64)
    ensures Wrap(x * y, 128) == Times(x, y)
  {
    hide Pow;
    ProductFits(x, y, 64);
    WrapFits(x * y, 128);
  }

  /** `acc += word` through a temporary, as the column sums of `mul256` are written. */
  method AddWord(acc: Uint128, word: uint64)
    requires acc.Value() + word < Pow(2, 128)
    modifies acc
    ensures acc.Value() == old(acc.Value()) + word
  {
    hide Pow, Wrap, Join, Uint128.Value;
    WrapFits(word + acc.Value(), 128);
    JoinNoUpper(word, 64);
    var tmp := new Uint128.Pair(0, word);
    var tmp2 := new Uint128();
    Add128(tmp, acc, tmp2);
    Copy128(acc, tmp2);
  }

  lemma CellWords(cell: Uint128, product: nat)
    requires cell.Value() == product
    ensures cell.lower == Rem(product, Pow(2, 64)) && cell.upper == Quot(product, Pow(2, 64))
  {
    WordSizes();
    hide Pow, Quot, Rem;
    QuotRemUnique(product, Pow(2, 64), cell.upper, cell.lower);
  }

  /** The column sums of `mul256`; none of them wraps. */
  method Columns64(products: array2<Uint128>, ghost a: seq<nat>, ghost b: seq<nat>)
    returns (fourth64: Uint128, third64: Uint128, second64: Uint128, first64: Uint128)
    requires products.Length0 == 4 && products.Length1 == 4 && |a| == 4 && |b| == 4
    requires forall i, j :: 0 <= i < 4 && 0 <= j < 4 ==> products[i, j].Value() == Times(a[i], b[3 - j])
    ensures fresh(fourth64) && fresh(third64) && fresh(second64) && fresh(first64)
    ensures fourth64.Value() == Column0(a[0], b[0], Pow(2, 64))
    ensures third64.Value() == Column1(a[0], a[1], b[0], b[1], Pow(2, 64))
    ensures second64.Value() == Column2(a[0], a[1], a[2], b[0], b[1], b[2], Pow(2, 64))
    ensures first64.Value() == Column3(a[0], a[1], a[2], a[3], b[0], b[1], b[2], b[3], Pow(2, 64))
  {
    WordSizes();
    hide Pow, Wrap, Join, Quot, Rem, Uint128.Value;
    CellWords(products[0, 0], a[0] * b[3]);
    CellWords(products[0, 1], a[0] * b[2]);
    CellWords(products[0, 2], a[0] * b[1]);
    CellWords(products[0, 3], a[0] * b[0]);
    CellWords(products[1, 1], a[1] * b[2]);
    CellWords(products[1, 2], a[1] * b[1]);
    CellWords(products[1, 3], a[1] * b[0]);
    CellWords(products[2, 2], a[2] * b[1]);
    CellWords(products[2, 3], a[2] * b[0]);
    CellWords(products[3, 3], a[3] * b[0]);
    fourth64 := new Uint128.Of(products[0, 3].lower);
    third64 := new Uint128.Of(products[0, 2].lower);
    AddWord(third64, products[0, 3].upper);
    AddWord(third64, products[1, 3].lower);
    second64 := new Uint128.Of(products[0, 1].lower);
    AddWord(second64, products[0, 2].upper);
    AddWord(second64, products[1, 2].lower);
    AddWord(second64, products[1, 3].upper);
    AddWord(second64, products[2, 3].lower);
    first64 := new Uint128.Of(products[0, 0].lower);
    AddWord(first64, products[0, 1].upper);
    AddWord(first64, products[1, 1].lower);
    AddWord(first64, products[1, 2].upper);
    AddWord(first64, products[2, 2].lower);
    AddWord(first64, products[2, 3].upper);
    AddWord(first64, products[3, 3].lower);
  }

  lemma ShlParts(c: nat, t0: nat, m: nat, n: nat)
    ensures Shl(Shl(c, m), n) == Shl(c, m + n)
    ensures Shl(Join(c, t0, m), n) == Shl(c, m + n) + Shl(t0, n)
  {
    hide Pow;
    PowAdd(2, m, n);
    MulAssoc(c, Pow(2, m), Pow(2, n));
    MulSum(c * Pow(2, m), t0, Pow(2, n));
  }

  /** The second summand of `mul256`: the third column moved up by 64, its carry 64 places too far. */
  lemma ThirdColumn(t3: nat, c: nat, t0: nat)
    requires t3 == Join(c, t0, 64) && c < W64 && t0 < W64
    ensures Join(Join(c, 0, 64), Wrap(Shl(t3, 64), 128), 128) == Shl(t3, 64) + Shl(c, 192) - Shl(c, 128)
  {
    WordSizes();
    hide Pow, Wrap, Shl, Join;
    ShiftLeftBeyond(c, t0, 64, 64);
    ShiftNone(t0);
    WrapFits(t0, 64);
    JoinIsShl(t0, 64);
    JoinIsShl(c, 64);
    JoinAsSum(Shl(c, 64), Shl(t0, 64), 128);
    ShlParts(c, t0, 64, 128);
    ShlParts(c, t0, 64, 64);
  }

  lemma JoinAsSum(upper: nat, lower: nat, bits: nat)
    ensures Join(upper, lower, bits) == Shl(upper, bits) + lower
  {
  }

  lemma Assembled256(f4: nat, t3: nat, s2: nat, f1: nat, x1: nat, x2: int, x3: nat, lifted: int, sum: nat)
    requires f1 < Pow(2, 128) && x1 == Join(Wrap(Shl(f1, 64), 128), 0, 128)
    requires x2 == Shl(t3, 64) + lifted && x3 == Join(s2, 0, 128)
    requires sum == Wrap(Join(0, f4, 128) + Wrap(x3 + Wrap(x1 + x2, 256), 256), 256)
    ensures sum == Wrap(Poly(f4, t3, s2, f1, Pow(2, 64)) + lifted, 256)
  {
    WordSizes();
    hide Pow, Wrap, Shl, Poly, Join;
    ShiftLeftBeyond(0, f1, 192, 128);
    JoinNoUpper(f1, 128);
    JoinNoUpper(f4, 128);
    JoinIsShl(s2, 128);
    PolyIsShifts(f4, t3, s2, f1, 64);
    WrapAgain(Shl(f1, 192), x2, 256);
    WrapAgain(Shl(f1, 192) + x2, x3, 256);
    WrapAgain(Shl(f1, 192) + x2 + x3, f4, 256);
  }

  /** The first and third columns of `mul256` put in their places. */
  method PlaceFirstAndThird(third64: Uint128, first64: Uint128, target: Uint256)
    requires target.Valid() && third64 !in {target.upper, target.lower} && first64 !in {target.upper, target.lower}
    modifies target.upper, target.lower
    ensures var f1, t3 := old(first64.Value()), old(third64.Value());
            var c := Quot(t3, Pow(2, 64));
            target.Value()
            == Wrap(Join(Wrap(Shl(f1, 64), 128), 0, 128) + (Shl(t3, 64) + Shl(c, 192) - Shl(c, 128)), 256)
  {
    hide Pow, Wrap, Shl, Join, Quot, Rem, Uint128.Value;
    ghost var c, t0 := third64.upper, third64.lower;
    CellWords(third64, third64.Value());
    ThirdAsWords(third64);
    ThirdColumn(third64.Value(), c, t0);
    var target1 := new Uint256();
    var target2 := new Uint256();
    Clear256(target1);
    ShiftLeft128(first64, 64, target1.upper);
    Clear256(target2);
    target2.upper.Set(third64.upper, 0);
    ShiftLeft128(third64, 64, target2.lower);
    Add256(target1, target2, target);
  }

  /** The columns put in their places, the end of `mul256`. */
  method Place256(fourth64: Uint128, third64: Uint128, second64: Uint128, first64: Uint128, target: Uint256)
    requires target.Valid()
    requires fourth64 !in {target.upper, target.lower} && third64 !in {target.upper, target.lower}
    requires second64 !in {target.upper, target.lower} && first64 !in {target.upper, target.lower}
    modifies target.upper, target.lower
    ensures var t3 := old(third64.Value()); var c := Quot(t3, Pow(2, 64));
            target.Value()
            == Wrap(Poly(old(fourth64.Value()), t3, old(second64.Value()), old(first64.Value()), Pow(2, 64))
                    + (Shl(c, 192) - Shl(c, 128)), 256)
  {
    hide Pow, Wrap, Shl, Join, Poly, Quot, Rem, Uint128.Value, Uint256.Value;
    ghost var f4, t3, s2, f1 := fourth64.Value(), third64.Value(), second64.Value(), first64.Value();
    ghost var lifted := Shl(Quot(t3, Pow(2, 64)), 192) - Shl(Quot(t3, Pow(2, 64)), 128);
    PlaceFirstAndThird(third64, first64, target);
    var target2 := new Uint256();
    AddUpper(second64, target, target2);
    AddLower(fourth64, target2, target);
    Assembled256(f4, t3, s2, f1, Join(Wrap(Shl(f1, 64), 128), 0, 128), Shl(t3, 64) + lifted, Join(s2, 0, 128), lifted,
                 target.Value());
  }

  /** `cell` in the upper half, plus `number`. */
  method AddUpper(cell: Uint128, number: Uint256, sum: Uint256)
    requires number.Valid() && sum.Valid() && SameOrApart(number, sum)
    modifies sum.upper, sum.lower
    ensures sum.Value() == Wrap(Join(old(cell.Value()), 0, 128) + old(number.Value()), 256)
  {
    hide Pow, Wrap, Join, Uint128.Value;
    var target1 := new Uint256();
    Clear256(target1);
    Copy128(target1.upper, cell);
    Add256(target1, number, sum);
  }

  /** `cell` in the lower half, plus `number`. */
  method AddLower(cell: Uint128, number: Uint256, sum: Uint256)
    requires number.Valid() && sum.Valid() && SameOrApart(number, sum)
    modifies sum.upper, sum.lower
    ensures sum.Value() == Wrap(Join(0, old(cell.Value()), 128) + old(number.Value()), 256)
  {
    hide Pow, Wrap, Join, Uint128.Value;
    var target1 := new Uint256();
    Clear256(target1);
    Copy128(target1.lower, cell);
    Add256(target1, number, sum);
  }

  lemma ThirdAsWords(cell: Uint128)
    ensures cell.Value() == Join(cell.upper, cell.lower, 64)
  {
  }

  lemma CellDigits(cell: Uint128)
    ensures cell.lower == Wrap(cell.Value(), 64) && cell.upper == Shr(cell.Value(), 64)
  {
    hide Pow, Quot, Rem, Uint128.Value;
    CellWords(cell, cell.Value());
  }

  /** The four 64-bit digits of a 256-bit number, the least significant first. */
  lemma Digits64(number: Uint256)
    ensures number.Value()
            == Poly(number.lower.lower, number.lower.upper, number.upper.lower, number.upper.upper, Pow(2, 64))
    ensures number.lower.lower == Rem(number.Value(), Pow(2, 64))
    ensures number.lower.upper == Rem(Quot(number.Value(), Pow(2, 64)), Pow(2, 64))
  {
    CellDigits(number.lower);
    CellDigits(number.upper);
    FourDigits(number.upper.Value(), number.lower.Value(), 64);
    WordSizes();
    LowDigits(number.lower.lower, number.lower.upper, number.upper.lower, number.upper.upper, Pow(2, 64));
  }

  lemma LowDigits(c0: nat, c1: nat, c2: nat, c3: nat, b: nat)
    requires c0 < b && c1 < b
    ensures Rem(Poly(c0, c1, c2, c3, b), b) == c0 && Rem(Quot(Poly(c0, c1, c2, c3, b), b), b) == c1
  {
    var n := c1 + b * (c2 + b * c3);
    assert Poly(c0, c1, c2, c3, b) == n * b + c0;
    hide Poly, Quot, Rem;
    QuotRemUnique(n * b + c0, b, n, c0);
    QuotRemUnique(n, b, c2 + b * c3, c1);
  }

  /** The product with its misplaced carry, whatever the target is. */
  method Mul256(number1: Uint256, number2: Uint256, target: Uint256)
    requires number1.Valid() && number2.Valid() && target.Valid()
    modifies target.upper, target.lower
    ensures target.Value() == Product256(old(number1.Value()), old(number2.Value()))
  {
    WordSizes();
    hide Pow, Wrap, Shl, Shr, Join, Poly, Fourth, Times, Quot, Rem, Uint128.Value;
    hide Column0, Column1, Column2, Column3;
    ghost var m, n := number1.Value(), number2.Value();
    Digits64(number1);
    Digits64(number2);
    var top, a := Limbs(number1);
    var bottom, b := Limbs(number2);
    var products := Products64(top, bottom, a, b);
    var fourth64, third64, second64, first64 := Columns64(products, a, b);
    ghost var f4, t3, s2, f1 := fourth64.Value(), third64.Value(), second64.Value(), first64.Value();
    Place256(fourth64, third64, second64, first64, target);
    ghost var out := ColumnsOfProduct(a[0], a[1], a[2], a[3], b[0], b[1], b[2], b[3], Pow(2, 64));
    FourthIsPow(64);
    ghost var carry := Quot(t3, Pow(2, 64));
    WrapOfMultiple(Poly(f4, t3, s2, f1, Pow(2, 64)) + (Shl(carry, 192) - Shl(carry, 128)), out, 256);
  }

  method Limbs(number: Uint256) returns (limbs: array<Uint128>, ghost digits: seq<nat>)
    ensures fresh(limbs) && limbs.Length == 4
    ensures digits == [number.lower.lower, number.lower.upper, number.upper.lower, number.upper.upper]
    ensures forall i :: 0 <= i < 4 ==> fresh(limbs[i]) && limbs[i].Value() == digits[3 - i]
  {
    hide Pow, Join, Uint128.Value;
    var l0 := new Uint128.Of(number.upper.upper);
    var l1 := new Uint128.Of(number.upper.lower);
    var l2 := new Uint128.Of(number.lower.upper);
    var l3 := new Uint128.Of(number.lower.lower);
    limbs := new Uint128[4] [l0, l1, l2, l3];
    digits := [number.lower.lower, number.lower.upper, number.upper.lower, number.upper.upper];
  }

  // When the product of `mul256` is the right one

  lemma MisplacedAtMostTwo(a: nat, b: nat)
    ensures Misplaced(a, b) <= 2
  {
    WordSizes();
    hide Pow, Quot, Rem;
    var w := Pow(2, 64);
    var a0, a1, b0, b1 := Rem(a, w), Rem(Quot(a, w), w), Rem(b, w), Rem(Quot(b, w), w);
    ProductFits(a0, b0, 64);
    var column := Column1(a0, a1, b0, b1, w);
    QuotRem(column, w);
    MulCancel(Quot(column, w), 3, w);
  }

  /** The product is right modulo `2^256` exactly when the third column's sum fits its 64 bits. */
  lemma ProductExactWhen(a: nat, b: nat)
    ensures Product256(a, b) == Wrap(a * b, 256) <==> Misplaced(a, b) == 0
  {
    hide Pow, Quot, Rem, Misplaced, Shl;
    MisplacedAtMostTwo(a, b);
    var c, product := Misplaced(a, b), a * b;
    ShiftedDifference(c);
    SameRemainder(product, Shl(c, 192) - Shl(c, 128), Pow(2, 256));
  }

  lemma ShiftedDifference(c: nat)
    requires c <= 2
    ensures 0 <= Shl(c, 192) - Shl(c, 128) < Pow(2, 256)
    ensures Shl(c, 192) == Shl(c, 128) <==> c == 0
  {
    PowAdd(2, 128, 64);
    WordSizes();
  }

  lemma SameRemainder(x: nat, delta: nat, d: nat)
    requires delta < d
    ensures Rem(x + delta, d) == Rem(x, d) <==> delta == 0
  {
    hide *;
    QuotRem(x, d);
    QuotRem(x + delta, d);
    if Rem(x + delta, d) == Rem(x, d) {
      var q, q' := Quot(x, d), Quot(x + delta, d);
      if q < q' {
        MulStrict(q, q', d);
      } else {
        MulMonotone(q', q, d);
      }
    }
  }

  /** Every product below `2^128`, so in particular every printable fee, is computed exactly. */
  lemma SmallProductExact(a: nat, b: nat)
    requires a * b < Pow(2, 128)
    ensures Product256(a, b) == a * b
  {
    WordSizes();
    var w := Pow(2, 64);
    var a0, a1, b0, b1 := Rem(a, w), Rem(Quot(a, w), w), Rem(b, w), Rem(Quot(b, w), w);
    var column := Column1(a0, a1, b0, b1, w);
    assert Misplaced(a, b) == Quot(column, w);
    LowProduct(a, b, w);
    hide Pow, Quot, Rem, Misplaced, Column1;
    PowAdd(2, 64, 64);
    MulCancel(column, w, w);
    QuotRem(column, w);
    MulCancel(Quot(column, w), 1, w);
    ProductExactWhen(a, b);
    WrapFits(a * b, 256);
  }

  /** The second column is part of the product. */
  lemma LowProduct(a: nat, b: nat, w: nat)
    requires w != 0
    ensures Column1(Rem(a, w), Rem(Quot(a, w), w), Rem(b, w), Rem(Quot(b, w), w), w) * w <= a * b
  {
    hide Quot, Rem;
    var a0, x, b0, y := Rem(a, w), Quot(a, w), Rem(b, w), Quot(b, w);
    QuotRem(a, w);
    QuotRem(b, w);
    QuotRem(a0 * b0, w);
    ColumnAtMost(a0, x, b0, y, w);
    hide Column1;
    var q := Quot(a0 * b0, w);
    MulMonotone(Column1(a0, Rem(x, w), b0, Rem(y, w), w), a0 * y + x * b0 + q, w);
    MulSum(a0 * y + x * b0, q, w);
    LowProductEquation(x, a0, y, b0, w);
  }

  lemma ColumnAtMost(a0: nat, x: nat, b0: nat, y: nat, w: nat)
    requires w != 0
    ensures Column1(a0, Rem(x, w), b0, Rem(y, w), w) <= a0 * y + x * b0 + Quot(a0 * b0, w)
  {
    hide Quot, Rem;
    var a1, b1 := Rem(x, w), Rem(y, w);
    QuotRemAtMost(x, w);
    QuotRemAtMost(y, w);
    QuotRemAtMost(a0 * b1, w);
    QuotRemAtMost(a1 * b0, w);
    MulMonotone(b1, y, a0);
    MulMonotone(a1, x, b0);
  }

  lemma QuotRemAtMost(n: nat, d: nat)
    requires d != 0
    ensures Rem(n, d) <= n
  {
    hide *;
    QuotRem(n, d);
    MulMonotone(0, Quot(n, d), d);
  }

  lemma LowProductEquation(x: nat, a0: nat, y: nat, b0: nat, w: nat)
    ensures (a0 * y + x * b0) * w + a0 * b0 <= (x * w + a0) * (y * w + b0)
  {
    MulSum(x * w, a0, y * w + b0);
    MulSum(y * w, b0, x * w);
    MulSum(y * w, b0, a0);
    MulAssoc(a0, y, w);
    MulAssoc(x, w, b0);
    MulSum(a0 * y, x * b0, w);
    MulAssoc(x, b0, w);
    MulMonotone(0, (x * w), y * w);
  }

  /** `(2^127 + 2^63) * (2^64 + 1)` is computed wrongly. */
  lemma ProductWrongExample()
    ensures Product256(0x8000_0000_0000_0000_8000_0000_0000_0000, 0x1_0000_0000_0000_0001)
         != Wrap(0x8000_0000_0000_0000_8000_0000_0000_0000 * 0x1_0000_0000_0000_0001, 256)
  {
    WordSizes();
    hide Pow, Quot, Rem;
    var a, b, half := 0x8000_0000_0000_0000_8000_0000_0000_0000, 0x1_0000_0000_0000_0001, 0x8000_0000_0000_0000;
    QuotRemUnique(a, W64, half, half);
    QuotRemUnique(half, W64, 0, half);
    QuotRemUnique(b, W64, 1, 1);
    QuotRemUnique(1, W64, 0, 1);
    QuotRemUnique(W64, W64, 1, 0);
    assert Misplaced(a, b) == 1;
    hide Misplaced;
    ProductExactWhen(a, b);
  }
}
