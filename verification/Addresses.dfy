/** The text of an address, src/address_utils.c. */
module Addresses {
  import opened Words
  import opened Rlp
  import opened Printing
  import opened World

  const HEX_UPPER: string := "0123456789ABCDEF"

  function Nibble(value: bytes, i: nat): nat
    requires i < 2 * |value|
  {
    if i % 2 == 0 then value[i / 2] / 16 else value[i / 2] % 16
  }

  /** The lower-case digits of the address, over the buffer's previous content where the address is shorter. */
  function LowerHex(address: bytes, length: nat, leftover: bytes): (b: bytes)
    requires |address| == 20 && length <= 20
    ensures |b| == 40
  {
    seq(40, i requires 0 <= i < 40 =>
      if i < 2 * length then HEXDIGITS[Nibble(address, i)] as int
      else if i < |leftover| then leftover[i] else 0)
  }

  /** `addressFormatStr`: all 20 bytes of storage are shown; the case of a letter is a bit of the checksum. */
  function AddressText(address: bytes, length: nat, w: World): (s: string)
    requires |address| == 20 && length <= 20
    ensures |s| == 42
  {
    var checksum := w.keccak(LowerHex(address, length, w.leftover));
    "0x" + seq(40, i requires 0 <= i < 40 =>
      var digit := Nibble(address, i);
      if digit >= 10 && Nibble(checksum, i) >= 8 then HEX_UPPER[digit] else HEXDIGITS[digit])
  }

  function HexValue(c: char): nat {
    if '0' <= c <= '9' then c as nat - '0' as nat
    else if 'a' <= c <= 'f' then c as nat - 'a' as nat + 10
    else if 'A' <= c <= 'F' then c as nat - 'A' as nat + 10
    else 16
  }

  /** Whatever the case of its letters, the text shows the nibbles of the address. */
  lemma AddressTextShows(address: bytes, length: nat, w: World, i: nat)
    requires |address| == 20 && length <= 20 && i < 40
    ensures HexValue(AddressText(address, length, w)[2 + i]) == Nibble(address, i)
  {
    var digit := Nibble(address, i);
    assert digit < 16 && HexValue(HEX_UPPER[digit]) == digit && HexValue(HEXDIGITS[digit]) == digit;
  }

  /** The 20 bytes that the digits of an address text stand for. */
  function ShownBytes(text: string): (b: seq<nat>)
    requires |text| == 42
    ensures |b| == 20
  {
    seq(20, k requires 0 <= k < 20 => 16 * HexValue(text[2 + 2 * k]) + HexValue(text[3 + 2 * k]))
  }

  /** Whatever the length, the digits are those of all 20 bytes of storage. */
  lemma AddressReadsBack(address: bytes, length: nat, w: World)
    requires |address| == 20 && length <= 20
    ensures ShownBytes(AddressText(address, length, w)) == address
  {
    var text := AddressText(address, length, w);
    forall k | 0 <= k < 20
      ensures ShownBytes(text)[k] == address[k]
    {
      AddressTextShows(address, length, w, 2 * k);
      AddressTextShows(address, length, w, 2 * k + 1);
      hide AddressText, HexValue;
      Halves(address, k);
    }
  }

  lemma Halves(address: bytes, k: nat)
    requires k < |address|
    ensures 16 * Nibble(address, 2 * k) + Nibble(address, 2 * k + 1) == address[k]
  {
  }

  // The checksum in the case of the letters

  /** The character code of a character, of a capital letter that of its small one. */
  function LowerCode(c: char): uint8 {
    if 'A' <= c <= 'Z' then c as nat + 32 else if c as nat < 256 then c as nat else 0
  }

  /** What the checksum is computed of: the digits behind the prefix, in lower case; of an address shorter than 20 bytes
      only its own digits, and what was in the buffer behind them. */
  function Hashed(text: string, length: nat, leftover: bytes): (b: bytes)
    requires |text| == 42
    ensures |b| == 40
  {
    seq(40, i requires 0 <= i < 40 =>
      if i < 2 * length then LowerCode(text[2 + i]) else if i < |leftover| then leftover[i] else 0)
  }

  /** The four bits of `b` that belong to digit `i`. */
  function HalfByte(b: bytes, i: nat): nat
    requires i < 2 * |b|
  {
    if i % 2 == 0 then b[i / 2] / 16 else b[i / 2] % 16
  }

  /** "0x" and the digits of the address, of which exactly those letters are capitals whose four bits of the checksum
      are at least 8. */
  ghost predicate ShowsChecksummed(text: string, address: bytes, length: nat, w: World)
    requires |address| == 20
  {
    |text| == 42 && text[..2] == "0x"
    && var checksum := w.keccak(Hashed(text, length, w.leftover));
       forall i :: 0 <= i < 40 ==>
         HexValue(text[2 + i]) == HalfByte(address, i)
         && (HexValue(text[2 + i]) >= 10 ==> ('A' <= text[2 + i] <= 'F' <==> HalfByte(checksum, i) >= 8))
  }

  lemma DigitIs(c: char, v: nat, capital: bool)
    requires v < 16
    ensures c == (if v >= 10 && capital then HEX_UPPER[v] else HEXDIGITS[v])
            <==> HexValue(c) == v && (v >= 10 ==> ('A' <= c <= 'F' <==> capital))
    ensures HexValue(c) == v ==> LowerCode(c) == HEXDIGITS[v] as nat
  {
  }

  lemma HashedIsLowerHex(text: string, address: bytes, length: nat, leftover: bytes)
    requires |text| == 42 && |address| == 20 && length <= 20
    requires forall i :: 0 <= i < 40 ==> HexValue(text[2 + i]) == HalfByte(address, i)
    ensures Hashed(text, length, leftover) == LowerHex(address, length, leftover)
  {
    forall i | 0 <= i < 40
      ensures Hashed(text, length, leftover)[i] == LowerHex(address, length, leftover)[i]
    {
      assert HexValue(text[2 + i]) == HalfByte(address, i) == Nibble(address, i);
      DigitIs(text[2 + i], Nibble(address, i), false);
    }
  }

  lemma TextOfDigits(address: bytes, length: nat, w: World)
    requires |address| == 20 && length <= 20
    ensures var text := AddressText(address, length, w);
            text[..2] == "0x" && forall i :: 0 <= i < 40 ==> HexValue(text[2 + i]) == HalfByte(address, i)
  {
    var text := AddressText(address, length, w);
    forall i | 0 <= i < 40
      ensures HexValue(text[2 + i]) == HalfByte(address, i)
    {
      AddressTextShows(address, length, w, i);
    }
  }

  lemma TextIsChecksummed(address: bytes, length: nat, w: World)
    requires |address| == 20 && length <= 20
    ensures ShowsChecksummed(AddressText(address, length, w), address, length, w)
  {
    var text := AddressText(address, length, w);
    TextOfDigits(address, length, w);
    HashedIsLowerHex(text, address, length, w.leftover);
    var checksum := w.keccak(LowerHex(address, length, w.leftover));
    forall i | 0 <= i < 40
      ensures HexValue(text[2 + i]) >= 10 ==> ('A' <= text[2 + i] <= 'F' <==> HalfByte(checksum, i) >= 8)
    {
      DigitIs(text[2 + i], Nibble(address, i), Nibble(checksum, i) >= 8);
    }
  }

  /** The text of an address is the only one that shows its digits with the checksum in the case of the letters. */
  lemma AddressTextIs(text: string, address: bytes, length: nat, w: World)
    requires |address| == 20 && length <= 20
    ensures text == AddressText(address, length, w) <==> ShowsChecksummed(text, address, length, w)
  {
    TextIsChecksummed(address, length, w);
    if ShowsChecksummed(text, address, length, w) {
      var shown := AddressText(address, length, w);
      HashedIsLowerHex(text, address, length, w.leftover);
      HashedIsLowerHex(shown, address, length, w.leftover);
      var checksum := w.keccak(LowerHex(address, length, w.leftover));
      hide AddressText, LowerHex, Hashed;
      forall k | 2 <= k < 42
        ensures text[k] == shown[k]
      {
        var i := k - 2;
        assert HalfByte(address, i) < 16 && text[2 + i] == text[k] && shown[2 + i] == shown[k];
        DigitIs(text[k], HalfByte(address, i), HalfByte(checksum, i) >= 8);
        DigitIs(shown[k], HalfByte(address, i), HalfByte(checksum, i) >= 8);
      }
      assert text == text[..2] + text[2..] && shown == shown[..2] + shown[2..];
      assert text[2..] == shown[2..];
    }
  }

  /** The codes of the characters behind the prefix, in lower case. */
  function LowerCodes(text: string): (b: bytes)
    requires |text| == 42
  {
    seq(40, i requires 0 <= i < 40 => LowerCode(text[2 + i]))
  }

  /** Of a full address, a letter is a capital exactly when its four bits of the hash of the lower-cased text are at
      least 8. */
  lemma CapitalsAreChecksum(address: bytes, w: World, i: nat)
    requires |address| == 20 && i < 40
    ensures var text := AddressText(address, 20, w);
            var hash, c := w.keccak(LowerCodes(text)), text[2 + i];
            'a' <= c <= 'z' || 'A' <= c <= 'Z' ==>
              ('A' <= c <= 'Z' <==> (if i % 2 == 0 then hash[i / 2] / 16 else hash[i / 2] % 16) >= 8)
  {
    var text := AddressText(address, 20, w);
    TextIsChecksummed(address, 20, w);
    assert Hashed(text, 20, w.leftover) == LowerCodes(text);
    hide AddressText, Hashed, LowerCodes;
    assert HexValue(text[2 + i]) == HalfByte(address, i) < 16;
  }

  /** Two addresses that share a text have the same 20 bytes. */
  lemma AddressTextsDiffer(a: bytes, b: bytes, m: nat, n: nat, w: World)
    requires |a| == |b| == 20 && m <= 20 && n <= 20
    requires AddressText(a, m, w) == AddressText(b, n, w)
    ensures a == b
  {
    AddressReadsBack(a, m, w);
    AddressReadsBack(b, n, w);
    hide AddressText, ShownBytes;
  }
}
