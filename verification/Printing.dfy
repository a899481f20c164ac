/** Conversion of 256-bit integers from big-endian bytes and to numerals, src/uint256.c. */
module Printing {
  import opened Words
  import opened Numerals
  import opened Errors
  import opened Uint256
  import opened Division

  // Big-endian bytes

  /** `|` of a shifted word and the shifted `m`-bit word that comes after it. */
  lemma OrAppends(v: nat, x: nat, m: nat, n: nat)
    requires x < Pow(2, m)
    ensures Or(Shl(v, m + n), Shl(x, n)) == Shl(v * Pow(2, m) + x, n)
  {
    PowAdd(2, m, n);
    MulAssoc(v, Pow(2, m), Pow(2, n));
    MulSum(v * Pow(2, m), x, Pow(2, n));
    hide Pow, Or;
    MulStrict(x, Pow(2, m), Pow(2, n));
    OrIsSum(v, x * Pow(2, n), m + n);
  }

  function ReadUint64BE(b: seq<uint8>): nat
    requires |b| == 8
  {
    Or(Or(Or(Or(Or(Or(Or(Shl(b[0], 56), Shl(b[1], 48)), Shl(b[2], 40)), Shl(b[3], 32)), Shl(b[4], 24)),
             Shl(b[5], 16)), Shl(b[6], 8)), b[7])
  }

  lemma {:induction false} AppendByte(v: nat, x: uint8, n: nat)
    ensures Or(Shl(v, 8 + n), Shl(x, n)) == Shl(v * 256 + x, n)
  {
    WordSizes();
    hide Pow, Or, Shl;
    OrAppends(v, x, 8, n);
  }

  lemma ShlNone(n: nat)
    ensures Shl(n, 0) == n
  {
  }

  lemma ReadUint64IsEval(b: seq<uint8>)
    requires |b| == 8
    ensures ReadUint64BE(b) == Eval(256, b) < W64
  {
    WordSizes();
    hide Pow, Or, Shl, Eval;
    EvalPrefixes(b);
    AppendByte(Eval(256, b[..1]), b[1], 48);
    AppendByte(Eval(256, b[..2]), b[2], 40);
    AppendByte(Eval(256, b[..3]), b[3], 32);
    AppendByte(Eval(256, b[..4]), b[4], 24);
    AppendByte(Eval(256, b[..5]), b[5], 16);
    AppendByte(Eval(256, b[..6]), b[6], 8);
    AppendByte(Eval(256, b[..7]), b[7], 0);
    ShlNone(b[7]);
    ShlNone(Eval(256, b));
    BytesBound(b);
  }

  lemma {:induction false} Pow256(n: nat)
    ensures Pow(256, n) == Pow(2, 8 * n)
  {
    WordSizes();
    if n != 0 {
      Pow256(n - 1);
      PowAdd(2, 8, 8 * (n - 1));
    }
  }

  lemma BytesBound(b: seq<uint8>)
    ensures Eval(256, b) < Pow(2, 8 * |b|)
  {
    EvalBound(256, b);
    Pow256(|b|);
  }

  lemma EvalPrefixes(b: seq<uint8>)
    requires |b| == 8
    ensures Eval(256, b[..1]) == b[0] && Eval(256, b[..2]) == Eval(256, b[..1]) * 256 + b[1]
    ensures Eval(256, b[..3]) == Eval(256, b[..2]) * 256 + b[2] && Eval(256, b[..4]) == Eval(256, b[..3]) * 256 + b[3]
    ensures Eval(256, b[..5]) == Eval(256, b[..4]) * 256 + b[4] && Eval(256, b[..6]) == Eval(256, b[..5]) * 256 + b[5]
    ensures Eval(256, b[..7]) == Eval(256, b[..6]) * 256 + b[6] && Eval(256, b) == Eval(256, b[..7]) * 256 + b[7]
  {
    forall k: nat | k < 8
      ensures Eval(256, b[..k + 1]) == Eval(256, b[..k]) * 256 + b[k]
    {
      assert b[..k + 1] == b[..k] + [b[k]];
      EvalSnoc(256, b[..k], b[k]);
    }
    assert b[..0] == [] && b[..8] == b;
  }

  method ReadUint128BE(target: Uint128, buffer: array<uint8>, at: nat)
    requires at + 16 <= buffer.Length
    modifies target
    ensures target.Value() == Eval(256, buffer[at..at + 16])
  {
    hide Pow, Or, Shl, Eval, ReadUint64BE;
    ReadUint64IsEval(buffer[at..at + 8]);
    ReadUint64IsEval(buffer[at + 8..at + 16]);
    assert buffer[at..at + 16] == buffer[at..at + 8] + buffer[at + 8..at + 16];
    EvalConcat(256, buffer[at..at + 8], buffer[at + 8..at + 16]);
    Pow256(8);
    target.upper := ReadUint64BE(buffer[at..at + 8]);
    target.lower := ReadUint64BE(buffer[at + 8..at + 16]);
  }

  /** The first 32 bytes are read; a shorter buffer throws. */
  method ReadUint256BE(target: Uint256, buffer: array<uint8>, length: nat) returns (r: Result<()>)
    requires length <= buffer.Length && target.Valid()
    modifies target.upper, target.lower
    ensures r == if length >= 32 then Ok(()) else Throws(ErrAssert)
    ensures if r.Ok? then target.Value() == Eval(256, buffer[..32]) else target.Value() == old(target.Value())
  {
    hide Pow, Eval, Uint128.Value;
    if length < 32 {
      return Throws(ErrAssert);
    }
    assert buffer[..32] == buffer[0..16] + buffer[16..32];
    EvalConcat(256, buffer[0..16], buffer[16..32]);
    Pow256(16);
    ReadUint128BE(target.upper, buffer, 0);
    ReadUint128BE(target.lower, buffer, 16);
    r := Ok(());
  }

  /** At most 32 bytes are padded on the left and read; a longer value throws. */
  method Uint256ConvertBE(out: Uint256, data: array<uint8>, length: nat) returns (r: Result<()>)
    requires out.Valid() && length <= data.Length
    modifies out.upper, out.lower
    ensures r == if length <= 32 then Ok(()) else Throws(ErrAssert)
    ensures r.Ok? ==> out.Value() == Eval(256, data[..length])
  {
    hide Pow, Eval, Join, Uint128.Value, Uint256.Value;
    if length > 32 {
      return Throws(ErrAssert);
    }
    var tmp := new uint8[32](_ => 0);
    forall i | 0 <= i < length {
      tmp[32 - length + i] := data[i];
    }
    assert tmp[..] == Zeros(32 - length) + data[..length];
    assert tmp[..32] == tmp[..];
    r := ReadUint256BE(out, tmp, 32);
    EvalConcat(256, Zeros(32 - length), data[..length]);
    EvalZeros(256, 32 - length);
  }

  // Numerals

  const HEXDIGITS: string := "0123456789abcdef"

  /** The text of `n`: at least one digit, most significant first. */
  function Numeral(n: nat, base: nat): (s: string)
    requires 2 <= base <= 16
    ensures s != []
    decreases n
  {
    if n < base then [HEXDIGITS[n]]
    else
      QuotSmaller(n, base);
      Numeral(Quot(n, base), base) + [HEXDIGITS[Rem(n, base)]]
  }

  function Reversed(s: string): string {
    if s == [] then [] else Reversed(s[1..]) + [s[0]]
  }

  lemma {:induction false} ReversedAt(s: string)
    ensures |Reversed(s)| == |s|
    ensures forall k :: 0 <= k < |s| ==> Reversed(s)[k] == s[|s| - 1 - k]
  {
    if s != [] {
      ReversedAt(s[1..]);
    }
  }

  lemma ReversedSnoc(s: string, c: char)
    ensures Reversed(s + [c]) == [c] + Reversed(s)
  {
    ReversedAt(s);
    ReversedAt(s + [c]);
  }

  method StringReverse(str: array<char>, length: nat)
    requires 1 <= length <= str.Length
    modifies str
    ensures str[..length] == Reversed(old(str[..length]))
    ensures str[length..] == old(str[length..])
  {
    ghost var was := str[..length];
    ReversedAt(was);
    var i, j := 0, length - 1;
    while i < j
      invariant 0 <= i <= length && i + j == length - 1
      invariant i <= j + 1
      invariant forall k :: 0 <= k < i ==> str[k] == was[length - 1 - k] && str[length - 1 - k] == was[k]
      invariant forall k :: i <= k <= j ==> str[k] == was[k]
      invariant str[length..] == old(str[length..])
    {
      var c := str[i];
      str[i] := str[j];
      str[j] := c;
      i, j := i + 1, j - 1;
    }
  }

  lemma NumeralStep(n: nat, base: nat)
    requires 2 <= base <= 16
    ensures Quot(n, base) == 0 <==> n < base
    ensures n != 0 ==> Quot(n, base) < n
    ensures Numeral(n, base) ==
              (if Quot(n, base) == 0 then [] else Numeral(Quot(n, base), base)) + [HEXDIGITS[Rem(n, base)]]
  {
    hide Quot, Rem;
    QuotRem(n, base);
    if n < base {
      QuotRemUnique(n, base, 0, n);
    }
    if n != 0 {
      QuotSmaller(n, base);
    }
  }

  /** One digit of the printing loop: the quotient is what remains to be printed in front. */
  lemma DigitPrinted(n: nat, base: nat, text: string, printed: string)
    requires 2 <= base <= 16
    requires text == Numeral(n, base) + Reversed(printed)
    ensures var next := printed + [HEXDIGITS[Rem(n, base)]];
            text == (if Quot(n, base) == 0 then [] else Numeral(Quot(n, base), base)) + Reversed(next)
  {
    NumeralStep(n, base);
    ReversedSnoc(printed, HEXDIGITS[Rem(n, base)]);
    hide Quot, Rem, Numeral, Reversed;
    var front: string := if Quot(n, base) == 0 then [] else Numeral(Quot(n, base), base);
    ConcatAssoc(front, [HEXDIGITS[Rem(n, base)]], Reversed(printed));
  }

  lemma ConcatAssoc(a: string, b: string, c: string)
    ensures (a + b) + c == a + (b + c)
  {
  }

  /** The body of the printing loop. */
  method PrintDigit(rDiv: Uint256, rMod: Uint256, base: Uint256, out: array<char>, offset: nat)
    requires rDiv.Valid() && rMod.Valid() && base.Valid()
    requires Apart(rDiv, rMod) && Apart(rDiv, base) && Apart(rMod, base)
    requires 2 <= base.Value() <= 16 && offset < out.Length
    modifies rDiv.upper, rDiv.lower, rMod.upper, rMod.lower, out
    ensures base.Value() == old(base.Value())
    ensures rDiv.Value() == Quot(old(rDiv.Value()), base.Value())
    ensures out[..] == old(out[..])[offset := HEXDIGITS[Rem(old(rDiv.Value()), base.Value())]]
  {
    hide Pow, Join, Quot, Rem, Uint128.Value, Uint256.Value;
    DivMod256(rDiv, base, rDiv, rMod);
    LowWord(rMod);
    out[offset] := HEXDIGITS[rMod.lower.lower];
  }

  /** The printing loop: the digits last to first, as far as `outLength` allows. */
  method PrintBackwards(number: Uint256, baseParam: uint32, out: array<char>, outLength: nat)
    returns (complete: bool, offset: nat)
    requires number.Valid() && 2 <= baseParam <= 16 && 1 <= outLength <= out.Length
    modifies out
    ensures offset <= outLength && complete == (|Numeral(number.Value(), baseParam)| <= outLength)
    ensures complete ==> 0 < offset && Numeral(number.Value(), baseParam) == Reversed(out[..offset])
  {
    hide Pow, Join, Quot, Rem, Numeral, Reversed, IsZero256, Uint128.Value, Uint256.Value;
    ghost var text := Numeral(number.Value(), baseParam);
    var rDiv := new Uint256();
    Copy256(rDiv, number);
    var rMod := new Uint256();
    var base := new Uint256.Of(baseParam);
    offset := 0;
    var more := true;
    ReversedAt(out[..0]);
    while more
      invariant offset <= outLength
      invariant base.Value() == baseParam
      invariant text == (if more then Numeral(rDiv.Value(), baseParam) else []) + Reversed(out[..offset])
      invariant !more ==> 0 < offset
      decreases more, rDiv.Value()
    {
      ReversedAt(out[..offset]);
      if offset > outLength - 1 {
        return false, offset;
      }
      ghost var rest, printed := rDiv.Value(), out[..offset];
      NumeralStep(rest, baseParam);
      DigitPrinted(rest, baseParam, text, printed);
      PrintDigit(rDiv, rMod, base, out, offset);
      offset := offset + 1;
      assert out[..offset] == printed + [HEXDIGITS[Rem(rest, baseParam)]];
      IsZero256Exact(rDiv);
      more := !IsZero256(rDiv);
    }
    ReversedAt(out[..offset]);
    complete := true;
  }

  /** The text is written with its terminator and its length returned; 0 is returned exactly when the digits
      outnumber `outLength`.  Space is checked for the digits but not for the terminator, so `out` needs one
      slot beyond `outLength` when the digits fill it. */
  method Uint256ToString(number: Uint256, baseParam: uint32, out: array<char>, outLength: nat)
    returns (r: Result<nat>)
    requires number.Valid() && 1 <= outLength <= out.Length
    requires 2 <= baseParam <= 16 && |Numeral(number.Value(), baseParam)| == outLength ==> outLength < out.Length
    modifies out
    ensures !(2 <= baseParam <= 16) ==> r == Throws(ErrAssert)
    ensures 2 <= baseParam <= 16 ==>
              var text := Numeral(number.Value(), baseParam);
              r == Ok(if |text| <= outLength then |text| else 0)
              && (|text| <= outLength ==> out[..|text|] == text && out[|text|] == '\0')
  {
    hide Numeral, Reversed, Uint256.Value;
    if !(2 <= baseParam <= 16) {
      return Throws(ErrAssert);
    }
    var complete, offset := PrintBackwards(number, baseParam, out, outLength);
    if !complete {
      return Ok(0);
    }
    ReversedAt(out[..offset]);
    out[offset] := '\0';
    StringReverse(out, offset);
    return Ok(offset);
  }

  /** A number below 16 is its lowest word; the code casts that word to `uint8_t`. */
  lemma LowWord(number: Uint256)
    requires number.Value() < 16
    ensures number.lower.lower == number.Value()
  {
    WordSizes();
    hide Pow, Uint128.Value;
    var w := number.lower;
    assert Join(number.upper.Value(), w.Value(), 128) < Join(1, 0, 128);
    JoinOrder(number.upper.Value(), w.Value(), 1, 0, 128);
    LowHalf(w);
  }

  lemma LowHalf(number: Uint128)
    requires number.Value() < 16
    ensures number.lower == number.Value()
  {
    WordSizes();
    hide Pow;
    JoinOrder(number.upper, number.lower, 1, 0, 64);
  }

  // Reading a numeral back

  function DigitValue(c: char): nat {
    if '0' <= c <= '9' then c as nat - '0' as nat
    else if 'a' <= c <= 'f' then c as nat - 'a' as nat + 10
    else 16
  }

  function DigitValues(text: string): seq<nat> {
    seq(|text|, i requires 0 <= i < |text| => DigitValue(text[i]))
  }

  ghost predicate IsNumeral(text: string, base: nat) {
    text != [] && (forall i :: 0 <= i < |text| ==> DigitValue(text[i]) < base)
    && (text[0] == '0' ==> |text| == 1)
  }

  lemma HexDigitValue(d: nat)
    requires d < 16
    ensures DigitValue(HEXDIGITS[d]) == d
  {
  }

  lemma DigitValuesSnoc(text: string, c: char)
    ensures DigitValues(text + [c]) == DigitValues(text) + [DigitValue(c)]
  {
  }

  lemma {:induction false} NumeralDigits(n: nat, base: nat)
    requires 2 <= base <= 16
    ensures DigitValues(Numeral(n, base)) == if n == 0 then [0] else Digits(base, n)
    decreases n
  {
    NumeralStep(n, base);
    var q, r := Quot(n, base), Rem(n, base);
    HexDigitValue(r);
    if q == 0 {
      QuotRemUnique(n, base, 0, n);
      HexDigitValue(n);
      assert Digits(base, 0) == [];
    } else {
      NumeralDigits(q, base);
      DigitValuesSnoc(Numeral(q, base), HEXDIGITS[r]);
    }
  }

  /** The printed text is a numeral without leading zeros that denotes the number. */
  lemma NumeralReadsBack(n: nat, base: nat)
    requires 2 <= base <= 16
    ensures IsNumeral(Numeral(n, base), base) && Eval(base, DigitValues(Numeral(n, base))) == n
  {
    hide Numeral, Digits, Eval, DigitValues;
    NumeralDigits(n, base);
    DigitsCanonical(base, n);
    if n == 0 {
      ZeroDenotes(base);
    }
    DigitsOfNumeral(Numeral(n, base), base);
  }

  lemma ZeroDenotes(base: nat)
    ensures Eval(base, [0]) == 0
  {
    EvalSnoc(base, [], 0);
    assert [] + [0] == [0];
    EvalNone(base);
  }

  lemma DigitsOfNumeral(text: string, base: nat)
    requires text != [] && Below(base, DigitValues(text))
    requires |DigitValues(text)| == 1 || DigitValues(text)[0] != 0
    ensures IsNumeral(text, base)
  {
    var ds := DigitValues(text);
    assert forall i :: 0 <= i < |text| ==> ds[i] == DigitValue(text[i]);
  }

  /** Every numeral without leading zeros is the printed text of the number it denotes. */
  lemma NumeralIsPrinted(text: string, base: nat)
    requires 2 <= base <= 16 && IsNumeral(text, base)
    requires forall c :: c in text ==> c in HEXDIGITS
    ensures Numeral(Eval(base, DigitValues(text)), base) == text
  {
    var ds := DigitValues(text);
    var n := Eval(base, ds);
    NumeralDigits(n, base);
    if text == "0" {
      EvalSnoc(base, [], 0);
      assert ds == [] + [0];
      EvalNone(base);
    } else {
      assert ds[0] == DigitValue(text[0]) != 0;
      DigitsUnique(base, ds);
      DigitsCanonical(base, n);
    }
    var printed := Numeral(n, base);
    NumeralReadsBack(n, base);
    NumeralChars(n, base);
    assert DigitValues(printed) == ds;
    forall i | 0 <= i < |text|
      ensures printed[i] == text[i]
    {
      assert DigitValues(printed)[i] == ds[i];
      SameChar(printed[i], text[i]);
    }
  }

  lemma {:induction false} NumeralChars(n: nat, base: nat)
    requires 2 <= base <= 16
    ensures forall c :: c in Numeral(n, base) ==> c in HEXDIGITS
    decreases n
  {
    NumeralStep(n, base);
    if Quot(n, base) != 0 {
      NumeralChars(Quot(n, base), base);
    }
  }

  lemma SameChar(c: char, d: char)
    requires c in HEXDIGITS && d in HEXDIGITS && DigitValue(c) == DigitValue(d)
    ensures c == d
  {
  }

  /** The text has at most `k` characters exactly when the number is below `base^k`. */
  lemma NumeralLength(n: nat, base: nat, k: nat)
    requires 2 <= base <= 16 && 1 <= k
    ensures |Numeral(n, base)| <= k <==> n < Pow(base, k)
  {
    NumeralDigits(n, base);
    assert |DigitValues(Numeral(n, base))| == |Numeral(n, base)|;
    hide Numeral, Pow;
    if n != 0 {
      DigitCount(base, n, k);
    }
  }
}
