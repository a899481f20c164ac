/** The 256-bit integers of src/uint256.c.

    A `uint128_t` is a cell of two 64-bit words and a `uint256_t` is a cell of two 128-bit cells, so that an
    operation writes through its `target` word by word as the C code does, and `target` may be one of the
    operands.  The contracts speak of the numbers the cells hold.
 */
module Uint256 {
  import opened Words
  import opened ShiftLaws

  class Uint128 {
    var upper: uint64
    var lower: uint64

    constructor ()
    {
      upper, lower := 0, 0;
    }

    constructor Pair(u: uint64, l: uint64)
      ensures Value() == Join(u, l, 64) && upper == u && lower == l
    {
      upper, lower := u, l;
    }

    method Set(u: uint64, l: uint64)
      modifies this
      ensures Value() == Join(u, l, 64) && upper == u && lower == l
    {
      upper, lower := u, l;
    }

    constructor Of(word: uint64)
      ensures Value() == word
    {
      upper, lower := 0, word;
    }

    function Value(): (n: nat)
      reads this
      ensures n < Pow(2, 128)
    {
      WordSizes();
      JoinFits(upper, lower, 64);
      Join(upper, lower, 64)
    }
  }

  class Uint256 {
    const upper: Uint128
    const lower: Uint128

    constructor ()
      ensures fresh(upper) && fresh(lower) && Valid()
    {
      upper := new Uint128();
      lower := new Uint128();
    }

    constructor Of(word: uint64)
      ensures fresh(upper) && fresh(lower) && Valid() && Value() == word
    {
      upper := new Uint128.Of(0);
      lower := new Uint128.Of(word);
    }

    ghost predicate Valid() {
      upper != lower
    }

    function Value(): (n: nat)
      reads upper, lower
      ensures n < Pow(2, 256)
    {
      JoinFits(upper.Value(), lower.Value(), 128);
      Join(upper.Value(), lower.Value(), 128)
    }
  }

  /** Two C objects are the same object or do not overlap. */
  ghost predicate SameOrApart(a: Uint256, b: Uint256) {
    a == b || Apart(a, b)
  }

  ghost predicate Apart(a: Uint256, b: Uint256) {
    {a.upper, a.lower} !! {b.upper, b.lower}
  }

  function IsZero128(number: Uint128): (r: bool)
    reads number
    ensures r <==> number.Value() == 0
  {
    JoinIsZero(number.upper, number.lower, 64);
    number.lower == 0 && number.upper == 0
  }

  predicate IsZero256(number: Uint256)
    reads number.upper, number.lower
  {
    IsZero128(number.lower) && IsZero128(number.upper)
  }

  lemma IsZero256Exact(number: Uint256)
    ensures IsZero256(number) <==> number.Value() == 0
  {
    hide Join, Pow, Uint128.Value;
    JoinIsZero(number.upper.Value(), number.lower.Value(), 128);
  }

  method Copy128(target: Uint128, number: Uint128)
    modifies target
    ensures target.Value() == old(number.Value())
  {
    target.upper := number.upper;
    target.lower := number.lower;
  }

  method Copy256(target: Uint256, number: Uint256)
    requires target.Valid() && SameOrApart(target, number)
    modifies target.upper, target.lower
    ensures target.Value() == old(number.Value())
  {
    Copy128(target.upper, number.upper);
    Copy128(target.lower, number.lower);
  }

  method Clear128(target: Uint128)
    modifies target
    ensures target.Value() == 0
  {
    target.upper := 0;
    target.lower := 0;
  }

  method Clear256(target: Uint256)
    requires target.Valid()
    modifies target.upper, target.lower
    ensures target.Value() == target.upper.Value() == target.lower.Value() == 0
  {
    Clear128(target.upper);
    Clear128(target.lower);
  }

  // Comparisons

  function Equal128(number1: Uint128, number2: Uint128): (r: bool)
    reads number1, number2
    ensures r <==> number1.Value() == number2.Value()
  {
    WordSizes();
    JoinOrder(number1.upper, number1.lower, number2.upper, number2.lower, 64);
    number1.upper == number2.upper && number1.lower == number2.lower
  }

  function Equal256(number1: Uint256, number2: Uint256): (r: bool)
    reads number1.upper, number1.lower, number2.upper, number2.lower
    ensures r <==> number1.Value() == number2.Value()
  {
    JoinOrder(number1.upper.Value(), number1.lower.Value(), number2.upper.Value(), number2.lower.Value(), 128);
    Equal128(number1.upper, number2.upper) && Equal128(number1.lower, number2.lower)
  }

  function Gt128(number1: Uint128, number2: Uint128): (r: bool)
    reads number1, number2
    ensures r <==> number1.Value() > number2.Value()
  {
    WordSizes();
    JoinOrder(number2.upper, number2.lower, number1.upper, number1.lower, 64);
    if number1.upper == number2.upper then number1.lower > number2.lower
    else number1.upper > number2.upper
  }

  function Gt256(number1: Uint256, number2: Uint256): (r: bool)
    reads number1.upper, number1.lower, number2.upper, number2.lower
    ensures r <==> number1.Value() > number2.Value()
  {
    JoinOrder(number2.upper.Value(), number2.lower.Value(), number1.upper.Value(), number1.lower.Value(), 128);
    if Equal128(number1.upper, number2.upper) then Gt128(number1.lower, number2.lower)
    else Gt128(number1.upper, number2.upper)
  }

  function Gte128(number1: Uint128, number2: Uint128): (r: bool)
    reads number1, number2
    ensures r <==> number1.Value() >= number2.Value()
  {
    Gt128(number1, number2) || Equal128(number1, number2)
  }

  function Gte256(number1: Uint256, number2: Uint256): (r: bool)
    reads number1.upper, number1.lower, number2.upper, number2.lower
    ensures r <==> number1.Value() >= number2.Value()
  {
    Gt256(number1, number2) || Equal256(number1, number2)
  }

  // Addition and subtraction, wrapping at the width

  method Add128(number1: Uint128, number2: Uint128, target: Uint128)
    modifies target
    ensures target.Value() == Wrap(old(number1.Value()) + old(number2.Value()), 128)
  {
    hide Pow, Wrap, Join;
    WordSizes();
    AddWords(number1.upper, number1.lower, number2.upper, number2.lower, 64);
    target.upper := Wrap(number1.upper + number2.upper
                         + if Wrap(number1.lower + number2.lower, 64) < number1.lower then 1 else 0, 64);
    target.lower := Wrap(number1.lower + number2.lower, 64);
  }

  method Add256(number1: Uint256, number2: Uint256, target: Uint256)
    requires number1.Valid() && number2.Valid() && target.Valid()
    requires SameOrApart(number1, target) && SameOrApart(number2, target)
    modifies target.upper, target.lower
    ensures target.Value() == Wrap(old(number1.Value()) + old(number2.Value()), 256)
  {
    hide Pow, Wrap, Join, Uint128.Value;
    ghost var u1, l1 := number1.upper.Value(), number1.lower.Value();
    ghost var u2, l2 := number2.upper.Value(), number2.lower.Value();
    AddWords(u1, l1, u2, l2, 128);
    WrapAgain(u1 + u2, 1, 128);
    var tmp := new Uint128();
    Add128(number1.upper, number2.upper, target.upper);
    Add128(number1.lower, number2.lower, tmp);
    if Gt128(number1.lower, tmp) {
      var one := new Uint128.Of(1);
      Add128(target.upper, one, target.upper);
    }
    Add128(number1.lower, number2.lower, target.lower);
  }

  method Minus128(number1: Uint128, number2: Uint128, target: Uint128)
    modifies target
    ensures target.Value() == Wrap(old(number1.Value()) - old(number2.Value()), 128)
  {
    hide Pow, Wrap, Join;
    WordSizes();
    SubtractWords(number1.upper, number1.lower, number2.upper, number2.lower, 64);
    target.upper := Wrap(number1.upper - number2.upper
                         - if Wrap(number1.lower - number2.lower, 64) > number1.lower then 1 else 0, 64);
    target.lower := Wrap(number1.lower - number2.lower, 64);
  }

  method Minus256(number1: Uint256, number2: Uint256, target: Uint256)
    requires number1.Valid() && number2.Valid() && target.Valid()
    requires SameOrApart(number1, target) && SameOrApart(number2, target)
    modifies target.upper, target.lower
    ensures target.Value() == Wrap(old(number1.Value()) - old(number2.Value()), 256)
  {
    hide Pow, Wrap, Join, Uint128.Value;
    ghost var u1, l1 := number1.upper.Value(), number1.lower.Value();
    ghost var u2, l2 := number2.upper.Value(), number2.lower.Value();
    SubtractWords(u1, l1, u2, l2, 128);
    WrapAgain(u1 as int - u2, -1, 128);
    var tmp := new Uint128();
    Minus128(number1.upper, number2.upper, target.upper);
    Minus128(number1.lower, number2.lower, tmp);
    if Gt128(tmp, number1.lower) {
      var one := new Uint128.Of(1);
      Minus128(target.upper, one, target.upper);
    }
    Minus128(number1.lower, number2.lower, target.lower);
  }

  // Bitwise or

  method Or128(number1: Uint128, number2: Uint128, target: Uint128)
    modifies target
    ensures target.Value() == Or(old(number1.Value()), old(number2.Value()))
  {
    hide Pow, Or, Join;
    WordSizes();
    OrJoins(number1.upper, number1.lower, number2.upper, number2.lower, 64);
    OrJoins(0, number1.upper, 0, number2.upper, 64);
    target.upper := Or(number1.upper, number2.upper);
    target.lower := Or(number1.lower, number2.lower);
  }

  method Or256(number1: Uint256, number2: Uint256, target: Uint256)
    requires number1.Valid() && number2.Valid() && target.Valid()
    requires SameOrApart(number1, target) && SameOrApart(number2, target)
    modifies target.upper, target.lower
    ensures target.Value() == Or(old(number1.Value()), old(number2.Value()))
  {
    hide Pow, Or, Join, Uint128.Value;
    OrJoins(number1.upper.Value(), number1.lower.Value(), number2.upper.Value(), number2.lower.Value(), 128);
    Or128(number1.upper, number2.upper, target.upper);
    Or128(number1.lower, number2.lower, target.lower);
  }

  // Shifts

  method ShiftLeft128(number: Uint128, value: uint32, target: Uint128)
    modifies target
    ensures target.Value() == Wrap(Shl(old(number.Value()), value), 128)
  {
    hide Pow, Wrap, Join, Shl, Shr;
    WordSizes();
    ShiftNone(number.Value());
    ShiftNone(number.lower);
    WrapFits(number.Value(), 128);
    WrapFits(number.lower, 64);
    if value >= 128 {
      ShiftLeftOut(number.Value(), value, 128);
      Clear128(target);
    } else if value == 64 {
      ShiftLeftBeyond(number.upper, number.lower, value, 64);
      target.upper := number.lower;
      target.lower := 0;
    } else if value == 0 {
      Copy128(target, number);
    } else if value < 64 {
      ShiftLeftWithin(number.upper, number.lower, value, 64);
      target.upper := Wrap(Shl(number.upper, value), 64) + Shr(number.lower, 64 - value);
      target.lower := Wrap(Shl(number.lower, value), 64);
    } else {
      ShiftLeftBeyond(number.upper, number.lower, value, 64);
      target.upper := Wrap(Shl(number.lower, value - 64), 64);
      target.lower := 0;
    }
  }

  /** Shifting in place by exactly 64 clears the upper word before it is moved down, so everything is lost.
      Every other call, in place or not, shifts exactly. */
  function ShiftedRight128(n: nat, value: uint32, inPlace: bool): nat
  {
    if inPlace && value == 64 then 0 else Shr(n, value)
  }

  lemma ShiftRight128ExactWhen(n: nat, value: uint32, inPlace: bool)
    ensures ShiftedRight128(n, value, inPlace) == Shr(n, value) <==> !inPlace || value != 64 || n < W64
  {
    WordSizes();
    hide Pow, Quot, Rem;
    QuotRem(n, W64);
    if n < W64 {
      QuotRemUnique(n, W64, 0, n);
    }
  }

  lemma ShiftRight128WrongExample()
    ensures ShiftedRight128(W64, 64, true) == 0 && Shr(W64, 64) == 1
  {
    WordSizes();
    hide Pow, Quot, Rem;
    QuotRemUnique(W64, W64, 1, 0);
  }

  method ShiftRight128(number: Uint128, value: uint32, target: Uint128)
    modifies target
    ensures target.Value() == ShiftedRight128(old(number.Value()), value, number == target)
  {
    hide Pow, Wrap, Join, Shl, Shr;
    WordSizes();
    ShiftNone(number.Value());
    ShiftNone(number.upper);
    if value >= 128 {
      ShiftRightOut(number.Value(), value, 128);
      Clear128(target);
    } else if value == 64 {
      ShiftRightBeyond(number.upper, number.lower, value, 64);
      JoinIsZero(0, 0, 64);
      target.upper := 0;
      target.lower := number.upper;
    } else if value == 0 {
      Copy128(target, number);
    } else if value < 64 {
      ShiftRightWithin(number.upper, number.lower, value, 64);
      var result := new Uint128();
      result.upper := Shr(number.upper, value);
      result.lower := Wrap(Shl(number.upper, 64 - value), 64) + Shr(number.lower, value);
      Copy128(target, result);
    } else {
      ShiftRightBeyond(number.upper, number.lower, value, 64);
      target.lower := Shr(number.upper, value - 64);
      target.upper := 0;
    }
  }

  method ShiftLeft256(number: Uint256, value: uint32, target: Uint256)
    requires number.Valid() && target.Valid() && SameOrApart(number, target)
    modifies target.upper, target.lower
    ensures target.Value() == Wrap(Shl(old(number.Value()), value), 256)
  {
    hide Pow, Wrap, Join, Shl, Shr, Uint128.Value;
    ghost var u, l := number.upper.Value(), number.lower.Value();
    ShiftNone(number.Value());
    ShiftNone(l);
    WrapFits(number.Value(), 256);
    WrapFits(l, 128);
    if value >= 256 {
      ShiftLeftOut(number.Value(), value, 256);
      Clear256(target);
    } else if value == 128 {
      ShiftLeftBeyond(u, l, value, 128);
      Copy128(target.upper, number.lower);
      Clear128(target.lower);
    } else if value == 0 {
      Copy256(target, number);
    } else if value < 128 {
      ShiftLeftWithin(u, l, value, 128);
      WrapFits(Wrap(Shl(u, value), 128) + Shr(l, 128 - value), 128);
      var tmp1 := new Uint128();
      var tmp2 := new Uint128();
      var result := new Uint256();
      ShiftLeft128(number.upper, value, tmp1);
      ShiftRight128(number.lower, 128 - value, tmp2);
      Add128(tmp1, tmp2, result.upper);
      ShiftLeft128(number.lower, value, result.lower);
      Copy256(target, result);
    } else {
      ShiftLeftBeyond(u, l, value, 128);
      ShiftLeft128(number.lower, value - 128, target.upper);
      Clear128(target.lower);
    }
  }

  method ShiftRight256(number: Uint256, value: uint32, target: Uint256)
    requires number.Valid() && target.Valid() && SameOrApart(number, target)
    modifies target.upper, target.lower
    ensures target.Value() == Shr(old(number.Value()), value)
  {
    hide Pow, Wrap, Join, Shl, Shr, Uint128.Value;
    ghost var u, l := number.upper.Value(), number.lower.Value();
    ShiftNone(number.Value());
    ShiftNone(u);
    if value >= 256 {
      ShiftRightOut(number.Value(), value, 256);
      Clear256(target);
    } else if value == 128 {
      ShiftRightBeyond(u, l, value, 128);
      Copy128(target.lower, number.upper);
      Clear128(target.upper);
    } else if value == 0 {
      Copy256(target, number);
    } else if value < 128 {
      ShiftRightWithin(u, l, value, 128);
      WrapFits(Shr(l, value) + Wrap(Shl(u, 128 - value), 128), 128);
      var tmp1 := new Uint128();
      var tmp2 := new Uint128();
      var result := new Uint256();
      ShiftRight128(number.upper, value, result.upper);
      ShiftRight128(number.lower, value, tmp1);
      ShiftLeft128(number.upper, 128 - value, tmp2);
      Add128(tmp1, tmp2, result.lower);
      Copy256(target, result);
    } else {
      ShiftRightBeyond(u, l, value, 128);
      ShiftRight128(number.upper, value - 128, target.lower);
      Clear128(target.upper);
    }
  }
}
