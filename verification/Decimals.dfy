/** Placing the decimal point, `adjustDecimals` of src/transaction.c. */
module Decimals {
  import opened Words
  import opened Numerals
  import opened Errors
  import opened Printing

  function Padding(n: nat): string {
    seq(n, _ => '0')
  }

  /** The digits `s` with the point `decimals` places from the right. */
  function Pointed(s: string, decimals: nat): string {
    if |s| <= decimals then "0." + Padding(decimals - |s|) + s
    else if decimals == 0 then s
    else s[..|s| - decimals] + "." + s[|s| - decimals..]
  }

  /** Where the digits start that may be trimmed. */
  function FractionStart(length: nat, decimals: nat): nat {
    if length <= decimals then 2 + (decimals - length)
    else if decimals == 0 then length
    else length - decimals + 1
  }

  /** The end of `text[..end]` without the zeros that close it, not going below `start`. */
  function TrimEnd(text: string, start: nat, end: nat): (e: nat)
    requires start <= end <= |text|
    ensures start <= e <= end
    decreases end
  {
    if start < end && text[end - 1] == '0' then TrimEnd(text, start, end - 1) else end
  }

  function Trimmed(text: string, start: nat): string
    requires 1 <= start <= |text|
  {
    var e := TrimEnd(text, start, |text|);
    if e < |text| && text[e - 1] == '.' then text[..e - 1] else text[..e]
  }

  lemma PointedLength(s: string, decimals: nat)
    requires s != []
    ensures 1 <= FractionStart(|s|, decimals) <= |Pointed(s, decimals)|
    ensures |Pointed(s, decimals)| == if |s| <= decimals then decimals + 2 else if decimals == 0 then |s| else |s| + 1
  {
  }

  /** The text shown for the digits `s`. */
  function Adjusted(s: string, decimals: nat): string
    requires s != []
  {
    PointedLength(s, decimals);
    if s == "0" then "0" else Trimmed(Pointed(s, decimals), FractionStart(|s|, decimals))
  }

  /** The space checks of `adjustDecimals`. */
  predicate HasRoom(s: string, decimals: nat, room: nat) {
    room > 2 &&
    (s == "0" || if |s| <= decimals then room > |s| + 1 + 2 + (decimals - |s|) else room > |s| + 1 + 1)
  }

  /** There must be room for the digits and for the decimals with a zero and a point, and for two slots more. */
  lemma RoomWhen(s: string, decimals: nat, room: nat)
    ensures HasRoom(s, decimals, room) <==> room >= 3 && (s == "0" || (room >= |s| + 3 && room >= decimals + 4))
  {
  }

  /** A text that has room leaves a slot for its terminator. */
  lemma AdjustedLength(s: string, decimals: nat, room: nat)
    requires s != [] && HasRoom(s, decimals, room)
    ensures |Adjusted(s, decimals)| < room
  {
    PointedLength(s, decimals);
  }

  lemma PointedBelowOne(s: string, decimals: nat)
    requires s != [] && |s| <= decimals
    ensures var text, delta := Pointed(s, decimals), decimals - |s|;
            |text| == 2 + delta + |s| && text[0] == '0' && text[1] == '.'
            && (forall i :: 2 <= i < 2 + delta ==> text[i] == '0')
            && (forall i :: 2 + delta <= i < |text| ==> text[i] == s[i - (2 + delta)])
  {
  }

  lemma PointedAboveOne(s: string, decimals: nat)
    requires decimals < |s|
    ensures var text, delta, point := Pointed(s, decimals), |s| - decimals, if decimals == 0 then 0 else 1;
            |text| == |s| + point
            && (forall i :: 0 <= i < delta ==> text[i] == s[i])
            && (point == 1 ==> text[delta] == '.')
            && (forall i :: delta + point <= i < |text| ==> text[i] == s[i - point])
  {
  }

  /** The branch of `adjustDecimals` for a value below one. */
  method PointBelowOne(src: array<char>, srcLength: uint32, decimals: uint8, target: array<char>)
    returns (startOffset: nat, offset: nat)
    requires 1 <= srcLength <= src.Length && srcLength <= decimals && src != target && decimals + 2 < target.Length
    modifies target
    ensures offset < target.Length && target[..offset] == Pointed(src[..srcLength], decimals)
    ensures startOffset == FractionStart(srcLength, decimals)
  {
    ghost var s, text := src[..srcLength], Pointed(src[..srcLength], decimals);
    PointedBelowOne(s, decimals);
    hide Pointed;
    var delta := decimals - srcLength;
    target[0] := '0';
    target[1] := '.';
    offset := 2;
    for i := 0 to delta
      invariant offset == 2 + i
      invariant target[..offset] == text[..offset]
    {
      target[offset] := '0';
      offset := offset + 1;
    }
    startOffset := offset;
    for i := 0 to srcLength
      invariant offset == startOffset + i
      invariant target[..offset] == text[..offset]
    {
      target[offset] := src[i];
      offset := offset + 1;
    }
  }

  /** The branch of `adjustDecimals` for a value with a whole part. */
  method PointAboveOne(src: array<char>, srcLength: uint32, decimals: uint8, target: array<char>)
    returns (startOffset: nat, offset: nat)
    requires decimals < srcLength <= src.Length && src != target && srcLength + 1 < target.Length
    modifies target
    ensures offset < target.Length && target[..offset] == Pointed(src[..srcLength], decimals)
    ensures startOffset == FractionStart(srcLength, decimals)
  {
    ghost var s, text := src[..srcLength], Pointed(src[..srcLength], decimals);
    PointedAboveOne(s, decimals);
    hide Pointed;
    var sourceOffset := 0;
    var delta := srcLength - decimals;
    offset := 0;
    while offset < delta
      invariant offset == sourceOffset <= delta
      invariant target[..offset] == text[..offset]
    {
      target[offset] := src[sourceOffset];
      offset, sourceOffset := offset + 1, sourceOffset + 1;
    }
    if decimals != 0 {
      target[offset] := '.';
      offset := offset + 1;
    }
    startOffset := offset;
    while sourceOffset < srcLength
      invariant delta <= sourceOffset <= srcLength && offset == startOffset + (sourceOffset - delta)
      invariant target[..offset] == text[..offset]
    {
      target[offset] := src[sourceOffset];
      offset, sourceOffset := offset + 1, sourceOffset + 1;
    }
  }

  /** The trimmed text is written with its terminator, or the space check throws. */
  method AdjustDecimals(src: array<char>, srcLength: uint32, decimals: uint8, target: array<char>, targetLength: nat)
    returns (r: Result<nat>)
    requires 1 <= srcLength <= src.Length && src != target && targetLength <= target.Length
    modifies target
    ensures var s := src[..srcLength];
            if HasRoom(s, decimals, targetLength) then
              var text := Adjusted(s, decimals);
              r == Ok(|text|) && |text| < targetLength && target[..|text|] == text && target[|text|] == '\0'
            else r == Throws(ErrInvalidData)
  {
    ghost var s := src[..srcLength];
    if targetLength <= 2 {
      return Throws(ErrInvalidData);
    }
    if srcLength == 1 && src[0] == '0' {
      assert s == "0";
      target[0] := '0';
      target[1] := '\0';
      return Ok(1);
    }
    assert s != "0" by {
      assert srcLength == 1 ==> s[0] != '0';
    }
    PointedLength(s, decimals);
    hide Pointed;
    var startOffset, offset;
    if srcLength <= decimals {
      if targetLength <= srcLength + 1 + 2 + (decimals - srcLength) {
        return Throws(ErrInvalidData);
      }
      startOffset, offset := PointBelowOne(src, srcLength, decimals, target);
    } else {
      if targetLength <= srcLength + 1 + 1 {
        return Throws(ErrInvalidData);
      }
      startOffset, offset := PointAboveOne(src, srcLength, decimals, target);
    }
    assert offset == |Pointed(s, decimals)|;
    target[offset] := '\0';
    offset := TrimZeros(target, startOffset, offset, Pointed(s, decimals));
    r := Ok(offset);
  }

  /** The end of `adjustDecimals`: find the run of zeros that closes the text and cut it off. */
  method TrimZeros(target: array<char>, startOffset: nat, end: nat, ghost text: string) returns (offset: nat)
    requires 1 <= startOffset <= end == |text| < target.Length
    requires target[..end] == text && target[end] == '\0'
    modifies target
    ensures offset == |Trimmed(text, startOffset)| <= end
    ensures target[..offset] == Trimmed(text, startOffset) && target[offset] == '\0'
  {
    var lastZeroOffset := 0;
    for i := startOffset to end
      invariant TrimEnd(text, startOffset, i) == if lastZeroOffset == 0 then i else lastZeroOffset
      invariant lastZeroOffset == 0 || startOffset <= lastZeroOffset < i
    {
      assert target[i] == text[i];
      if target[i] == '0' {
        if lastZeroOffset == 0 {
          lastZeroOffset := i;
        }
      } else {
        lastZeroOffset := 0;
      }
    }
    offset := end;
    if lastZeroOffset != 0 {
      offset := lastZeroOffset;
      target[lastZeroOffset] := '\0';
      assert target[lastZeroOffset - 1] == text[lastZeroOffset - 1];
      if target[lastZeroOffset - 1] == '.' {
        target[lastZeroOffset - 1] := '\0';
        offset := lastZeroOffset - 1;
      }
    }
  }

  // What the text means

  /** The digits of a decimal text, without its point. */
  function DigitsShown(text: string): seq<nat> {
    if text == [] then []
    else
      var front, c := text[..|text| - 1], text[|text| - 1];
      if c == '.' then DigitsShown(front) else DigitsShown(front) + [DigitValue(c)]
  }

  /** The number of digits after the point. */
  function FractionLength(text: string): nat {
    if '.' !in text || text[|text| - 1] == '.' then 0 else 1 + FractionLength(text[..|text| - 1])
  }

  /** The text is exactly `n / 10^decimals`. */
  ghost predicate Denotes(text: string, n: nat, decimals: nat) {
    Eval(10, DigitsShown(text)) * Pow(10, decimals) == n * Pow(10, FractionLength(text))
  }

  /** No superfluous zero at either end and no dangling point. */
  ghost predicate CanonicalText(text: string) {
    text != [] && DigitValue(text[0]) < 10
    && (text[0] == '0' ==> |text| == 1 || text[1] == '.')
    && ('.' in text ==> text[|text| - 1] != '.' && text[|text| - 1] != '0')
  }

  lemma {:induction false} NoPoint(text: string)
    requires '.' !in text
    ensures DigitsShown(text) == DigitValues(text)
  {
    if text != [] {
      var front, c := text[..|text| - 1], text[|text| - 1];
      assert c in text;
      assert text == front + [c];
      NoPoint(front);
      DigitValuesSnoc(front, c);
    }
  }

  lemma {:induction false} WithPoint(whole: string, fraction: string)
    requires '.' !in whole && '.' !in fraction
    ensures DigitsShown(whole + "." + fraction) == DigitValues(whole) + DigitValues(fraction)
    ensures FractionLength(whole + "." + fraction) == |fraction|
  {
    var text := whole + "." + fraction;
    assert text[|whole|] == '.';
    if fraction == [] {
      assert text[..|text| - 1] == whole;
      NoPoint(whole);
    } else {
      var front, c := fraction[..|fraction| - 1], fraction[|fraction| - 1];
      assert c in fraction;
      assert text[..|text| - 1] == whole + "." + front;
      WithPoint(whole, front);
      assert fraction == front + [c];
      DigitValuesSnoc(front, c);
    }
  }

  lemma {:induction false} TrimEndSplits(text: string, start: nat, end: nat)
    requires start <= end <= |text|
    ensures var e := TrimEnd(text, start, end);
            text[e..end] == Padding(end - e) && (e == start || text[e - 1] != '0')
    decreases end
  {
    if start < end && text[end - 1] == '0' {
      TrimEndSplits(text, start, end - 1);
      var e := TrimEnd(text, start, end - 1);
      SliceSnoc(text, e, end - 1);
      assert Padding(end - e) == Padding(end - 1 - e) + ['0'];
    }
  }

  lemma SliceSnoc(text: string, e: nat, m: nat)
    requires e <= m < |text|
    ensures text[e..m + 1] == text[e..m] + [text[m]]
  {
  }

  lemma DigitValuesConcat(x: string, y: string)
    ensures DigitValues(x + y) == DigitValues(x) + DigitValues(y)
  {
  }

  lemma DigitValuesPadding(n: nat)
    ensures DigitValues(Padding(n)) == Zeros(n)
  {
  }

  /** Cutting `k` zeros off the fraction divides the mantissa by `10^k`. */
  lemma TrimmedDenotes(whole: string, fraction: string, k: nat, n: nat, decimals: nat)
    requires decimals == |fraction| + k
    requires Eval(10, DigitValues(whole) + DigitValues(fraction + Padding(k))) == n
    ensures Eval(10, DigitValues(whole) + DigitValues(fraction)) * Pow(10, decimals) == n * Pow(10, |fraction|)
  {
    var mantissa := DigitValues(whole) + DigitValues(fraction);
    DigitValuesConcat(fraction, Padding(k));
    DigitValuesPadding(k);
    assert DigitValues(whole) + (DigitValues(fraction) + Zeros(k)) == mantissa + Zeros(k);
    hide Pow, Eval;
    EvalConcat(10, mantissa, Zeros(k));
    EvalZeros(10, k);
    PowAdd(10, k, |fraction|);
    MulAssoc(Eval(10, mantissa), Pow(10, k), Pow(10, |fraction|));
  }

  /** `whole` and `fraction` are the parts of the pointed text of the numeral `s`. */
  ghost predicate Parts(s: string, decimals: nat, whole: string, fraction: string) {
    Pointed(s, decimals) == whole + "." + fraction && |fraction| == decimals
    && whole != [] && DigitValue(whole[0]) < 10 && (whole[0] == '0' ==> |whole| == 1)
    && '.' !in whole && '.' !in fraction
    && Eval(10, DigitValues(whole) + DigitValues(fraction)) == Eval(10, DigitValues(s))
    && |whole| + 1 <= FractionStart(|s|, decimals) <= |whole| + 1 + decimals
    && (|s| <= decimals ==>
          FractionStart(|s|, decimals) < |whole| + 1 + decimals
          && fraction[FractionStart(|s|, decimals) - |whole| - 1] != '0')
    && (decimals < |s| ==> FractionStart(|s|, decimals) == |whole| + 1)
  }

  lemma NumeralHasNoPoint(s: string)
    requires IsNumeral(s, 10)
    ensures '.' !in s
  {
    assert forall i :: 0 <= i < |s| ==> s[i] != '.';
  }

  lemma PaddedValue(s: string, n: nat)
    ensures Eval(10, DigitValues("0") + DigitValues(Padding(n) + s)) == Eval(10, DigitValues(s))
  {
    hide Eval;
    DigitValuesConcat(Padding(n), s);
    DigitValuesPadding(n);
    assert DigitValues("0") == Zeros(1);
    assert DigitValues("0") + (Zeros(n) + DigitValues(s)) == Zeros(1 + n) + DigitValues(s);
    LeadingZeros(1 + n, DigitValues(s));
  }

  lemma PartsBelowOne(s: string, decimals: nat) returns (whole: string, fraction: string)
    requires IsNumeral(s, 10) && s != "0" && |s| <= decimals
    ensures Parts(s, decimals, whole, fraction)
  {
    NumeralHasNoPoint(s);
    PaddedValue(s, decimals - |s|);
    whole, fraction := "0", Padding(decimals - |s|) + s;
    hide Eval, DigitValues;
    ConcatAssoc("0.", Padding(decimals - |s|), s);
    assert Pointed(s, decimals) == "0." + fraction;
    assert fraction[decimals - |s|] == s[0];
  }

  lemma PartsAboveOne(s: string, decimals: nat) returns (whole: string, fraction: string)
    requires IsNumeral(s, 10) && s != "0" && 0 < decimals < |s|
    ensures Parts(s, decimals, whole, fraction)
  {
    NumeralHasNoPoint(s);
    hide Eval;
    whole, fraction := s[..|s| - decimals], s[|s| - decimals..];
    assert s == whole + fraction;
    DigitValuesConcat(whole, fraction);
  }

  lemma LeadingZeros(k: nat, ds: seq<nat>)
    ensures Eval(10, Zeros(k) + ds) == Eval(10, ds)
  {
    hide Pow, Eval;
    EvalConcat(10, Zeros(k), ds);
    EvalZeros(10, k);
  }

  /** The shown text is exactly the value and canonical. */
  lemma AdjustedExact(n: nat, decimals: nat)
    ensures Denotes(Adjusted(Numeral(n, 10), decimals), n, decimals)
    ensures CanonicalText(Adjusted(Numeral(n, 10), decimals))
  {
    var s := Numeral(n, 10);
    NumeralReadsBack(n, 10);
    hide Numeral, Eval, Pow;
    assert '.' !in s by {
      assert forall i :: 0 <= i < |s| ==> s[i] != '.';
    }
    NoPoint(s);
    if s == "0" {
      ZeroDenoted(decimals);
    } else if decimals == 0 {
      assert Adjusted(s, 0) == s;
    } else {
      AdjustedFraction(s, n, decimals);
    }
  }

  lemma ZeroDenoted(decimals: nat)
    ensures Eval(10, DigitValues("0")) == 0
  {
    assert DigitValues("0") == [] + [0];
    EvalSnoc(10, [], 0);
  }

  /** The shown text is the pointed one without the zeros at its end, and without the point if none is left. */
  lemma AdjustedShape(s: string, decimals: nat, whole: string, fraction: string) returns (front: string, k: nat)
    requires s != [] && s != "0" && decimals != 0 && Parts(s, decimals, whole, fraction)
    ensures fraction == front + Padding(k)
    ensures Adjusted(s, decimals) == if front == [] then whole else whole + "." + front
    ensures front != [] ==> front[|front| - 1] != '0'
  {
    hide Eval, DigitValues, Pointed, FractionStart, Adjusted;
    var text, e := AdjustedEnd(s, decimals);
    front, k := fraction[..e - |whole| - 1], |text| - e;
    TextSplits(text, whole, fraction, e);
    TrimStops(s, decimals, whole, fraction, e);
  }

  lemma AdjustedEnd(s: string, decimals: nat) returns (text: string, e: nat)
    requires s != [] && s != "0"
    ensures text == Pointed(s, decimals) && 1 <= FractionStart(|s|, decimals) <= e <= |text|
    ensures text[e..] == Padding(|text| - e)
    ensures e == FractionStart(|s|, decimals) || text[e - 1] != '0'
    ensures Adjusted(s, decimals) == if e < |text| && text[e - 1] == '.' then text[..e - 1] else text[..e]
  {
    PointedLength(s, decimals);
    hide Pointed, FractionStart;
    text := Pointed(s, decimals);
    e := TrimEnd(text, FractionStart(|s|, decimals), |text|);
    TrimEndSplits(text, FractionStart(|s|, decimals), |text|);
    assert text[e..|text|] == text[e..];
  }

  lemma TextSplits(text: string, whole: string, fraction: string, e: nat)
    requires text == whole + "." + fraction && '.' !in fraction && |whole| + 1 <= e <= |text|
    requires text[e..] == Padding(|text| - e)
    ensures fraction[e - |whole| - 1..] == Padding(|text| - e)
    ensures fraction == fraction[..e - |whole| - 1] + Padding(|text| - e)
    ensures text[..e] == whole + "." + fraction[..e - |whole| - 1]
    ensures e == |whole| + 1 ==> text[e - 1] == '.' && text[..e - 1] == whole
    ensures e > |whole| + 1 ==> text[e - 1] == fraction[e - |whole| - 2] != '.'
  {
    assert fraction[e - |whole| - 1..] == text[e..];
    if e > |whole| + 1 {
      assert fraction[e - |whole| - 2] in fraction;
    }
  }

  lemma TrimStops(s: string, decimals: nat, whole: string, fraction: string, e: nat)
    requires s != [] && decimals != 0 && Parts(s, decimals, whole, fraction)
    requires FractionStart(|s|, decimals) <= e <= |whole| + 1 + decimals
    requires fraction[e - |whole| - 1..] == Padding(|whole| + 1 + decimals - e)
    ensures |s| <= decimals ==> FractionStart(|s|, decimals) < e
    ensures decimals < |s| && e == FractionStart(|s|, decimals) ==> e == |whole| + 1
  {
    var at := e - |whole| - 1;
    if at < |fraction| {
      assert fraction[at] == fraction[at..][0] == '0';
    }
  }

  lemma AdjustedFraction(s: string, n: nat, decimals: nat)
    requires IsNumeral(s, 10) && s != "0" && decimals != 0 && Eval(10, DigitValues(s)) == n
    ensures Denotes(Adjusted(s, decimals), n, decimals) && CanonicalText(Adjusted(s, decimals))
  {
    hide Eval, Pow, Adjusted, Pointed, FractionStart, DigitValues, DigitsShown, FractionLength;
    var whole, fraction;
    if |s| <= decimals {
      whole, fraction := PartsBelowOne(s, decimals);
    } else {
      whole, fraction := PartsAboveOne(s, decimals);
    }
    var front, k := AdjustedShape(s, decimals, whole, fraction);
    TrimmedDenotes(whole, front, k, n, decimals);
    if front == [] {
      WholeText(whole, n, decimals);
    } else {
      FractionText(whole, front, n, decimals);
    }
  }

  lemma WholeText(whole: string, n: nat, decimals: nat)
    requires whole != [] && DigitValue(whole[0]) < 10 && (whole[0] == '0' ==> |whole| == 1) && '.' !in whole
    requires Eval(10, DigitValues(whole) + DigitValues([])) * Pow(10, decimals) == n * Pow(10, 0)
    ensures Denotes(whole, n, decimals) && CanonicalText(whole)
  {
    hide Eval, Pow;
    NoPoint(whole);
    assert DigitValues(whole) + DigitValues([]) == DigitValues(whole);
  }

  lemma FractionText(whole: string, front: string, n: nat, decimals: nat)
    requires whole != [] && DigitValue(whole[0]) < 10 && (whole[0] == '0' ==> |whole| == 1) && '.' !in whole
    requires front != [] && '.' !in front && front[|front| - 1] != '0'
    requires Eval(10, DigitValues(whole) + DigitValues(front)) * Pow(10, decimals) == n * Pow(10, |front|)
    ensures Denotes(whole + "." + front, n, decimals) && CanonicalText(whole + "." + front)
  {
    WithPoint(whole, front);
    hide Eval, Pow, DigitsShown, FractionLength, DigitValues;
    var text := whole + "." + front;
    assert text[|whole|] == '.';
    assert text[0] == whole[0] && text[|text| - 1] == front[|front| - 1];
    assert front[|front| - 1] in front;
  }

  /** Different values are never shown by the same text. */
  lemma AdjustedDistinct(m: nat, n: nat, decimals: nat)
    requires Adjusted(Numeral(m, 10), decimals) == Adjusted(Numeral(n, 10), decimals)
    ensures m == n
  {
    AdjustedExact(m, decimals);
    AdjustedExact(n, decimals);
    DenotesUnique(Adjusted(Numeral(m, 10), decimals), m, n, decimals);
  }

  lemma DenotesUnique(text: string, m: nat, n: nat, decimals: nat)
    requires Denotes(text, m, decimals) && Denotes(text, n, decimals)
    ensures m == n
  {
    var p := Pow(10, FractionLength(text));
    hide Pow, Eval;
    if m < n {
      MulStrict(m, n, p);
    } else if n < m {
      MulStrict(n, m, p);
    }
  }
}
