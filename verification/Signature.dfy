/** The signature of a transaction, src/transaction.c: the chain id, and r and s taken from their DER encoding. */
module Signature {
  import opened Words
  import opened Numerals
  import opened Errors
  import opened Printing
  import opened Rlp
  import opened Amounts
  import opened RoundTrip

  const HASH_LENGTH := 32

  // The chain id

  function OrByte(v: nat, b: uint8): nat {
    Or(Wrap(Shl(v, 8), 32), b)
  }

  lemma OrByteAppends(v: nat, b: uint8)
    requires v < 0x100_0000
    ensures OrByte(v, b) == v * 256 + b < W32
  {
    WordSizes();
    WrapFits(Shl(v, 8), 32);
    hide Pow, Or, Wrap;
    OrIsSum(v, b, 8);
  }

  lemma ThreeBytes(b: bytes)
    requires |b| <= 3
    ensures Eval(256, b) < 0x100_0000
  {
    BytesBound(b);
    WordSizes();
    PowMonotone(2, 8 * |b|, 24);
  }

  /** `txGetV`: the V field as a 32-bit number; more than four bytes are refused. */
  method GetV(v: Slot) returns (r: Result<nat>)
    requires v.length <= v.value.Length
    ensures r == if v.length <= 4 then Ok(v.Number()) else Throws(ErrInvalidData)
    ensures r.Ok? ==> r.value < W32
  {
    hide Or, Wrap, Shl, Eval, OrByte;
    if v.length > 4 {
      return Throws(ErrInvalidData);
    }
    var n := 0;
    if v.length > 0 {
      n := v.value[0];
      assert v.value[..1] == [] + [v.value[0]];
      EvalSnoc(256, [], v.value[0]);
      EvalNone(256);
      var i := 1;
      while i < v.length
        invariant 1 <= i <= v.length
        invariant n == Eval(256, v.value[..i]) < W32
      {
        ThreeBytes(v.value[..i]);
        OrByteAppends(n, v.value[i]);
        assert v.value[..i + 1] == v.value[..i] + [v.value[i]];
        EvalSnoc(256, v.value[..i], v.value[i]);
        n := OrByte(n, v.value[i]);
        i := i + 1;
      }
    } else {
      assert v.value[..0] == [];
      EvalNone(256);
    }
    r := Ok(n);
  }

  // r and s

  /** `tx_signature_t`. */
  class SignatureCell {
    var v: uint8
    const r: array<uint8>
    const s: array<uint8>

    constructor ()
      ensures fresh(r) && fresh(s) && Valid()
      ensures v == 0 && r[..] == Zeros(32) && s[..] == Zeros(32)
    {
      v := 0;
      r := new uint8[32](_ => 0);
      s := new uint8[32](_ => 0);
    }

    ghost predicate Valid() {
      r.Length == 32 && s.Length == 32 && r != s
    }
  }

  const SIG_SIZE := 100

  /** Where the value behind a length byte starts and how many of its bytes are taken; a 33rd byte in front is
      sign padding. */
  function Part(sig: bytes, at: nat): (nat, nat)
    requires 1 <= at <= |sig|
  {
    if sig[at - 1] == 33 then (at + 1, 32) else (at, sig[at - 1])
  }

  /** The bytes taken for r and s from the first `length` bytes of the buffer. */
  function Extracted(sig: bytes, length: nat): Result<(bytes, bytes)>
    requires |sig| == SIG_SIZE && length <= SIG_SIZE
  {
    var r := Part(sig, 4);
    if r.1 > 32 || r.0 + r.1 >= length then Throws(ErrInvalidData)
    else
      var s := Part(sig, r.0 + r.1 + 2);
      if s.1 > 32 || s.0 + s.1 > length then Throws(ErrInvalidData)
      else Ok((sig[r.0..r.0 + r.1], sig[s.0..s.0 + s.1]))
  }

  /** A number stands behind its length byte, or behind the length 33 and a byte of padding, and goes up to `end`. */
  ghost predicate StandsAt(sig: bytes, at: nat, part: bytes, end: nat) {
    1 <= at <= end <= |sig|
    && if sig[at - 1] == 33 then end == at + 33 && part == sig[at + 1..end]
       else sig[at - 1] <= 32 && end == at + sig[at - 1] && part == sig[at..end]
  }

  /** Two numbers are taken exactly when the first stands behind the fourth byte and ends before the signature does,
      and the second stands two bytes behind it and ends with the signature at the latest; otherwise there is an
      error. */
  lemma ExtractedWhen(sig: bytes, length: nat, r: bytes, s: bytes)
    requires |sig| == 100 && length <= 100
    ensures Extracted(sig, length) == Ok((r, s)) <==>
              exists m: nat, at: nat, n: nat ::
                StandsAt(sig, 4, r, m) && m < length && StandsAt(sig, at, s, n) && at == m + 2 && n <= length
    ensures !Extracted(sig, length).Ok? ==> Extracted(sig, length) == Throws(ErrInvalidData)
  {
    if Extracted(sig, length) == Ok((r, s)) {
      var p := Part(sig, 4);
      var q := Part(sig, p.0 + p.1 + 2);
      assert StandsAt(sig, 4, r, p.0 + p.1) && StandsAt(sig, p.0 + p.1 + 2, s, q.0 + q.1);
    }
  }

  method FindPart(sig: array<uint8>, at: nat) returns (xOffset: nat, xLength: nat)
    requires 1 <= at <= sig.Length
    ensures (xOffset, xLength) == Part(sig[..], at)
  {
    xOffset := at;
    xLength := sig[xOffset - 1];
    if xLength == 33 {
      xLength := 32;
      xOffset := xOffset + 1;
    }
  }

  /** `part` was written over the end of a 32-byte field. */
  ghost predicate EndsWith(field: bytes, before: bytes, part: bytes) {
    |part| <= 32 && |before| == 32 && field == before[..32 - |part|] + part
  }

  /** `memmove` of the `length` bytes at `at` to the end of a 32-byte field. */
  method MoveToEnd(target: array<uint8>, sig: array<uint8>, at: nat, length: nat)
    requires target != sig && target.Length == 32 && length <= 32 && at + length <= sig.Length
    modifies target
    ensures EndsWith(target[..], old(target[..]), sig[..][at..at + length])
  {
    forall i | 0 <= i < length {
      target[32 - length + i] := sig[at + i];
    }
  }

  /** The tail of `txGetSignature`: the parity byte and both numbers, each written over the end of its field. */
  method StoreSignature(sig: array<uint8>, sigLength: nat, odd: bool, overflow: bool, signature: SignatureCell)
    returns (result: Result<()>)
    requires sig.Length == SIG_SIZE && sigLength <= SIG_SIZE && signature.Valid()
    requires sig != signature.r && sig != signature.s
    modifies signature, signature.r, signature.s
    ensures signature.v == 27 + (if odd then 1 else 0) + (if overflow then 2 else 0)
    ensures var taken := Extracted(sig[..], sigLength);
            if taken.Ok? then
              result == Ok(()) && EndsWith(signature.r[..], old(signature.r[..]), taken.value.0)
              && EndsWith(signature.s[..], old(signature.s[..]), taken.value.1)
            else result == Throws(ErrInvalidData)
  {
    signature.v := 27;
    if odd {
      signature.v := signature.v + 1;
    }
    if overflow {
      signature.v := signature.v + 2;
    }
    result := StoreNumbers(sig, sigLength, signature);
  }

  method StoreNumbers(sig: array<uint8>, sigLength: nat, signature: SignatureCell) returns (result: Result<()>)
    requires sig.Length == SIG_SIZE && sigLength <= SIG_SIZE && signature.Valid()
    requires sig != signature.r && sig != signature.s
    modifies signature.r, signature.s
    ensures var taken := Extracted(sig[..], sigLength);
            if taken.Ok? then
              result == Ok(()) && EndsWith(signature.r[..], old(signature.r[..]), taken.value.0)
              && EndsWith(signature.s[..], old(signature.s[..]), taken.value.1)
            else result == Throws(ErrInvalidData)
  {
    hide Part, EndsWith;
    var xOffset, xLength := FindPart(sig, 4);
    if !(xLength <= HASH_LENGTH && xOffset + xLength < sigLength) {
      return Throws(ErrInvalidData);
    }
    PartStart(sig[..], 4);
    MoveToEnd(signature.r, sig, xOffset, xLength);
    xOffset, xLength := FindPart(sig, xOffset + xLength + 2);
    if !(xLength <= HASH_LENGTH && xOffset + xLength <= sigLength) {
      return Throws(ErrInvalidData);
    }
    MoveToEnd(signature.s, sig, xOffset, xLength);
    result := Ok(());
  }

  lemma PartStart(sig: bytes, at: nat)
    requires 1 <= at <= |sig|
    ensures at <= Part(sig, at).0 <= at + 1
  {
  }

  // The encoding of section 2.2.3 of RFC 3279

  /** The content of a DER integer: shortest two's complement of a positive number. */
  function DerContent(n: nat): bytes
    requires n > 0
  {
    var b := BigEndian(n);
    if b[0] >= 0x80 then [0] + b else b
  }

  /** A sequence of two integers. */
  function TwoIntegers(a: bytes, b: bytes): bytes
    requires |a| <= 33 && |b| <= 33
  {
    [0x30, 4 + |a| + |b|, 2, |a|] + a + [2, |b|] + b
  }

  function Der(r: nat, s: nat): bytes
    requires 1 <= r < W256 && 1 <= s < W256
  {
    ContentFits(r);
    ContentFits(s);
    TwoIntegers(DerContent(r), DerContent(s))
  }

  lemma ContentFits(n: nat)
    requires 1 <= n < W256
    ensures |BigEndian(n)| <= 32 && 1 <= |DerContent(n)| <= 33
    ensures |DerContent(n)| == 33 ==> DerContent(n) == [0] + BigEndian(n) && |BigEndian(n)| == 32
  {
    DigitCount(256, n, 32);
    Pow256(32);
    WordSizes();
  }

  lemma ZerosInFront(p: bytes, part: bytes)
    ensures Eval(256, p + part) == Eval(256, part) <==> p == Zeros(|p|)
  {
    EvalConcat(256, p, part);
    EvalZeros(256, |p|);
    Pow256(|part|);
    hide Eval, Pow;
    if p != Zeros(|p|) {
      if Eval(256, p) == 0 {
        PadUnique(256, p, Zeros(|p|));
      }
      MulPositive(Eval(256, p), Pow(256, |part|));
    }
  }

  /** What is taken of the content of a DER integer: at most 32 bytes that denote the number. */
  function Significant(n: nat): bytes
    requires n > 0
  {
    if |DerContent(n)| == 33 then DerContent(n)[1..] else DerContent(n)
  }

  lemma SignificantDenotes(n: nat)
    requires 1 <= n < W256
    ensures 1 <= |Significant(n)| <= 32 && Eval(256, Significant(n)) == n
  {
    ContentFits(n);
    hide Eval, Digits, BigEndian;
    ZerosInFront([0], BigEndian(n));
    assert Zeros(1) == [0];
  }

  lemma PartOfDer(n: nat, sig: bytes, at: nat)
    requires 1 <= n < W256 && 1 <= at && at + |DerContent(n)| <= |sig|
    requires sig[at - 1] == |DerContent(n)| && sig[at..at + |DerContent(n)|] == DerContent(n)
    ensures var (from, length) := Part(sig, at);
            length == |Significant(n)| && from + length == at + |DerContent(n)|
            && sig[from..from + length] == Significant(n)
  {
    ContentFits(n);
    hide Eval, Digits, BigEndian;
    if |DerContent(n)| == 33 {
      assert sig[at + 1..at + 33] == sig[at..at + 33][1..];
    }
  }

  lemma TwoParts(sig: bytes, length: nat, rAt: nat, rLength: nat, sAt: nat, sLength: nat)
    requires |sig| == SIG_SIZE && length <= SIG_SIZE
    requires Part(sig, 4) == (rAt, rLength) && rLength <= 32 && rAt + rLength < length && rAt + rLength + 2 <= SIG_SIZE
    requires Part(sig, rAt + rLength + 2) == (sAt, sLength) && sLength <= 32 && sAt + sLength <= length
    ensures Extracted(sig, length) == Ok((sig[rAt..rAt + rLength], sig[sAt..sAt + sLength]))
  {
    hide Part;
  }

  lemma Layout(a: bytes, b: bytes, sig: bytes)
    requires |a| <= 33 && |b| <= 33 && TwoIntegers(a, b) <= sig
    ensures |TwoIntegers(a, b)| == 6 + |a| + |b| <= |sig|
    ensures sig[3] == |a| && sig[4..4 + |a|] == a && sig[5 + |a|] == |b| && sig[6 + |a|..6 + |a| + |b|] == b
  {
    var d := TwoIntegers(a, b);
    assert sig[..|d|] == d;
    assert d[4..4 + |a|] == a && d[6 + |a|..] == b;
  }

  /** From the DER encoding of any two numbers in [1, 2^256), followed by anything, exactly these numbers are taken. */
  lemma ExtractionInvertsDer(r: nat, s: nat, sig: bytes)
    requires 1 <= r < W256 && 1 <= s < W256 && Der(r, s) <= sig && |sig| == SIG_SIZE
    ensures Extracted(sig, |Der(r, s)|) == Ok((Significant(r), Significant(s)))
  {
    hide DerContent, BigEndian, Significant, Eval, Part, Extracted, TwoIntegers;
    ContentFits(r);
    ContentFits(s);
    var a, b := DerContent(r), DerContent(s);
    Layout(a, b, sig);
    PartOfDer(r, sig, 4);
    PartOfDer(s, sig, 6 + |a|);
    SignificantDenotes(r);
    SignificantDenotes(s);
    var (rAt, rLength) := Part(sig, 4);
    var (sAt, sLength) := Part(sig, 6 + |a|);
    TwoParts(sig, 6 + |a| + |b|, rAt, rLength, sAt, sLength);
  }

  lemma DerFits(r: nat, s: nat)
    requires 1 <= r < W256 && 1 <= s < W256
    ensures |Der(r, s)| <= 72
  {
    ContentFits(r);
    ContentFits(s);
    hide DerContent;
  }

  /** A field whose end was overwritten holds the number exactly when the bytes in front were zero, as they are
      after the context was cleared. */
  lemma FieldHoldsNumber(n: nat, before: bytes)
    requires 1 <= n < W256 && |before| == 32
    ensures var part := Significant(n);
            |part| <= 32
            && (Eval(256, before[..32 - |part|] + part) == n <==> before[..32 - |part|] == Zeros(32 - |part|))
  {
    SignificantDenotes(n);
    ZerosInFront(before[..32 - |Significant(n)|], Significant(n));
  }
}
