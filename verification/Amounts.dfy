/** The amount and the fee as they are shown, src/transaction.c. */
module Amounts {
  import opened Words
  import opened Numerals
  import opened Errors
  import opened Uint256
  import opened Multiplication
  import opened Printing
  import opened Decimals

  /** A bounded byte field of a transaction: `tx_int256_t`, `tx_address_t` and `tx_v_t`. */
  class Slot {
    const value: array<uint8>
    var length: uint8

    constructor (size: nat)
      ensures fresh(value) && value.Length == size && length == 0
      ensures forall i :: 0 <= i < size ==> value[i] == 0
    {
      value := new uint8[size](_ => 0);
      length := 0;
    }

    /** The number the field holds, read big-endian. */
    function Number(): nat
      requires length <= value.Length
      reads this, value
    {
      Eval(256, value[..length])
    }
  }

  const MAX_BUFFER_SIZE := 1024
  const WEI_TO_FTM_DECIMALS: uint8 := 18
  const AMOUNT_BUFFER_SIZE := 40

  /** The text for the number `n`: up to 40 digits are printed and the pointed text must fit its buffer. */
  function AmountText(n: nat, decimals: nat, room: nat): Result<string> {
    var s := Numeral(n, 10);
    if |s| <= 40 && HasRoom(s, decimals, room) then Ok(Adjusted(s, decimals)) else Throws(ErrInvalidData)
  }

  /** What is left in the buffer, up to the terminator, is the text. */
  ghost predicate Written(r: Result<nat>, text: Result<string>, out: array<char>)
    reads out
  {
    match text
    case Ok(s) => |s| < out.Length && r == Ok(|s|) && out[..|s|] == s && out[|s|] == '\0'
    case Throws(e) => r == Throws(e)
    case Reset => r.Reset?
  }

  /** The digits of `number` and then its text in `out`; the digit buffer has 40 slots and one for the
      terminator of a 40-digit number. */
  method ShowNumber(number: Uint256, decimals: uint8, out: array<char>, outSize: nat) returns (r: Result<nat>)
    requires number.Valid() && outSize <= out.Length
    modifies out
    ensures Written(r, AmountText(number.Value(), decimals, outSize), out)
  {
    hide Numeral, Adjusted, Uint256.Value;
    var tmp := new char[41];
    var length := Uint256ToString(number, 10, tmp, 40);
    if length.value == 0 {
      return Throws(ErrInvalidData);
    }
    r := AdjustDecimals(tmp, length.value, decimals, out, outSize);
  }

  method FormattedAmount(value: Slot, decimals: uint8, out: array<char>, outSize: nat) returns (r: Result<nat>)
    requires value.length <= value.value.Length && outSize <= out.Length
    modifies out
    ensures Written(r, if outSize >= 1024 then Reset
                       else if value.length > 32 then Throws(ErrAssert)
                       else AmountText(value.Number(), decimals, outSize), out)
  {
    hide AmountText, Eval, Uint256.Value;
    if outSize >= MAX_BUFFER_SIZE {
      return Reset;
    }
    var tmpValue := new Uint256();
    var converted := Uint256ConvertBE(tmpValue, value.value, value.length);
    if !converted.Ok? {
      return Throws(ErrAssert);
    }
    r := ShowNumber(tmpValue, decimals, out, outSize);
  }

  method FormattedFee(txGasPrice: Slot, txStartGas: Slot, decimals: uint8, out: array<char>, outSize: nat)
    returns (r: Result<nat>)
    requires txGasPrice.length <= txGasPrice.value.Length && txStartGas.length <= txStartGas.value.Length
    requires outSize <= out.Length
    modifies out
    ensures Written(r, if outSize >= 1024 then Reset
                       else if txGasPrice.length > 32 || txStartGas.length > 32 then Throws(ErrAssert)
                       else AmountText(Product256(txGasPrice.Number(), txStartGas.Number()), decimals, outSize), out)
  {
    hide AmountText, Eval, Product256, Uint256.Value;
    if outSize >= MAX_BUFFER_SIZE {
      return Reset;
    }
    var gasPrice := new Uint256();
    var gasVolume := new Uint256();
    var fee := new Uint256();
    var converted := Uint256ConvertBE(gasPrice, txGasPrice.value, txGasPrice.length);
    if !converted.Ok? {
      return Throws(ErrAssert);
    }
    converted := Uint256ConvertBE(gasVolume, txStartGas.value, txStartGas.length);
    if !converted.Ok? {
      return Throws(ErrAssert);
    }
    Mul256(gasPrice, gasVolume, fee);
    r := ShowNumber(fee, decimals, out, outSize);
  }

  /** A number is written when it has at most 40 digits and there is room for them, for a zero and a point in front,
      and for two slots more. */
  lemma AmountTextWhen(n: nat, decimals: nat, room: nat)
    ensures AmountText(n, decimals, room)
            == if n < Pow(10, 40) && room >= 3 && (n == 0 || (room >= |Numeral(n, 10)| + 3 && room >= decimals + 4))
               then Ok(Adjusted(Numeral(n, 10), decimals)) else Throws(ErrInvalidData)
  {
    NumeralLength(n, 10, 40);
    RoomWhen(Numeral(n, 10), decimals, room);
    ZeroIsZero(n);
    hide Numeral, Adjusted, HasRoom, Pow;
  }

  lemma ZeroIsZero(n: nat)
    ensures Numeral(n, 10) == "0" <==> n == 0
  {
    NumeralReadsBack(n, 10);
    NumeralReadsBack(0, 10);
    hide Numeral, IsNumeral;
    if n == 0 {
      NumeralOfZero();
    } else if Numeral(n, 10) == "0" {
      NumeralOfZero();
    }
  }

  lemma NumeralOfZero()
    ensures Numeral(0, 10) == "0"
  {
  }

  // The texts on the screens

  function AmountShown(n: nat): Result<string> {
    AmountText(n, WEI_TO_FTM_DECIMALS, AMOUNT_BUFFER_SIZE)
  }

  function FeeShown(gasPrice: nat, startGas: nat): Result<string> {
    AmountText(Product256(gasPrice, startGas), WEI_TO_FTM_DECIMALS, AMOUNT_BUFFER_SIZE)
  }

  /** Amounts below `10^37` are shown, larger ones are refused. */
  lemma AmountShownWhen(n: nat)
    ensures AmountShown(n) == if n < Pow(10, 37) then Ok(Adjusted(Numeral(n, 10), 18)) else Throws(ErrInvalidData)
  {
    NumeralLength(n, 10, 37);
    hide Pow, Numeral, Adjusted;
  }

  /** What is shown is exactly the amount, in canonical form. */
  lemma AmountShownExact(n: nat)
    requires AmountShown(n).Ok?
    ensures Denotes(AmountShown(n).value, n, 18) && CanonicalText(AmountShown(n).value)
  {
    AdjustedExact(n, 18);
  }

  /** Two amounts never share a text. */
  lemma AmountsDistinct(m: nat, n: nat)
    requires AmountShown(m).Ok? && AmountShown(m) == AmountShown(n)
    ensures m == n
  {
    AdjustedDistinct(m, n, 18);
  }

  lemma TenTo37()
    ensures Pow(10, 37) < Pow(2, 128)
  {
    WordSizes();
    assert Pow(10, 4) == 10000;
    PowAdd(10, 4, 4);
    PowAdd(10, 8, 8);
    PowAdd(10, 16, 16);
    PowAdd(10, 32, 4);
    assert Pow(10, 37) == 10 * Pow(10, 36);
  }

  /** A fee below `10^37` is shown and is exactly the product of price and limit. */
  lemma FeeShownExact(gasPrice: nat, startGas: nat)
    requires gasPrice * startGas < Pow(10, 37)
    ensures FeeShown(gasPrice, startGas) == AmountShown(gasPrice * startGas)
    ensures FeeShown(gasPrice, startGas).Ok?
    ensures Denotes(FeeShown(gasPrice, startGas).value, gasPrice * startGas, 18)
    ensures CanonicalText(FeeShown(gasPrice, startGas).value)
  {
    hide Pow, Product256, AmountText, Denotes, CanonicalText;
    TenTo37();
    SmallProductExact(gasPrice, startGas);
    var fee := gasPrice * startGas;
    AmountShownWhen(fee);
    AmountShownExact(fee);
  }

  /** A fee that is shown is the right one exactly when the true fee is below `10^37`; a larger one is either
      refused or, when the 256-bit product wraps or carries wrongly into the printable range, shown wrongly. */
  lemma FeeShownCorrectWhen(gasPrice: nat, startGas: nat, fee: nat)
    requires FeeShown(gasPrice, startGas).Ok? && fee == gasPrice * startGas
    ensures Denotes(FeeShown(gasPrice, startGas).value, fee, 18) <==> fee < Pow(10, 37)
  {
    hide Pow, Product256, AmountText, Denotes;
    var shown := Product256(gasPrice, startGas);
    AmountShownWhen(shown);
    AmountShownExact(shown);
    if Denotes(AmountShown(shown).value, fee, 18) {
      DenotesUnique(AmountShown(shown).value, shown, fee, 18);
    }
    if fee < Pow(10, 37) {
      FeeShownExact(gasPrice, startGas);
    }
  }

  /** A gas price of `2^255` and a limit of 2 are shown as a fee of `0`. */
  lemma FeeShownWrongExample()
    ensures FeeShown(Pow(2, 255), 2) == Ok("0")
    ensures Pow(2, 255) * 2 > 0
  {
    WrappedFee();
    assert Numeral(0, 10) == "0";
    hide Product256, Pow;
  }

  lemma PowersOfHalf()
    ensures Pow(2, 256) == 2 * Pow(2, 255) && Pow(2, 255) == Pow(2, 64) * Pow(2, 191)
    ensures Pow(2, 191) == Pow(2, 64) * Pow(2, 127)
  {
    PowAdd(2, 64, 191);
    PowAdd(2, 64, 127);
    PowAdd(2, 1, 255);
    assert Pow(2, 1) == 2 * Pow(2, 0);
  }

  lemma WrappedFee()
    ensures Product256(Pow(2, 255), 2) == 0
  {
    hide Pow, Quot, Rem, Misplaced;
    PowersOfHalf();
    NoLowDigits(Pow(2, 255), Pow(2, 127), 2);
    QuotRemUnique(2 * Pow(2, 255), Pow(2, 256), 1, 0);
    ShlZero(192);
    ShlZero(128);
  }

  lemma NoLowDigits(a: nat, high: nat, b: nat)
    requires a == Pow(2, 64) * (Pow(2, 64) * high)
    ensures Misplaced(a, b) == 0
  {
    WordSizes();
    hide Pow, Quot, Rem;
    var w := Pow(2, 64);
    QuotRemUnique(a, w, w * high, 0);
    QuotRemUnique(w * high, w, high, 0);
    QuotRemUnique(0, w, 0, 0);
  }
}
