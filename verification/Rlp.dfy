/** RLP headers: the functions of src/rlp_utils.c and the header of Appendix B of the Ethereum Yellow Paper. */
module Rlp {
  import opened Words
  import opened Numerals
  import opened Errors

  type bytes = seq<uint8>

  const MAX_BUFFER_SIZE := 1024

  // The functions of src/rlp_utils.c

  datatype Probe = Incomplete | Invalid | Decodable

  /** `rlpCanDecode`: does the buffer already reveal a header?  (`false` is `Incomplete`, `true` comes with
      the validity flag.) */
  function CanDecode(buffer: bytes): Result<Probe> {
    if |buffer| == 0 || |buffer| >= MAX_BUFFER_SIZE then Throws(ErrInvalidData)
    else
      var lead := buffer[0];
      if 0xb8 <= lead <= 0xbf && |buffer| < 1 + (lead - 0xb7) then Ok(Incomplete)
      else if 0xb8 <= lead <= 0xbf && lead > 0xbb then Ok(Invalid)
      else if lead >= 0xf8 && |buffer| < 1 + (lead - 0xf7) then Ok(Incomplete)
      else if lead >= 0xf8 && lead > 0xfb then Ok(Invalid)
      else Ok(Decodable)
  }

  /** What `rlpDecodeLength` writes through its pointers when it returns `true`. */
  datatype Decoded = Decoded(fieldLength: uint32, offset: nat, isList: bool)

  /** The length bytes behind the lead byte, `None` where the code throws because they are not there. */
  function LengthBytes(buffer: bytes, count: nat): Result<uint32>
    requires 1 <= count <= 4
  {
    if |buffer| <= count then Throws(ErrInvalidData)
    else if count == 1 then Ok(buffer[1])
    else
      WordSizes();
      if count == 2 then Ok(Shl(buffer[1], 8) + buffer[2])
      else if count == 3 then Ok(Shl(buffer[1], 16) + Shl(buffer[2], 8) + buffer[3])
      else Ok(Shl(buffer[1], 24) + Shl(buffer[2], 16) + Shl(buffer[3], 8) + buffer[4])
  }

  /** `rlpDecodeLength`; `Ok(None)` is the return value `false`. */
  function DecodeLength(buffer: bytes): Result<Option<Decoded>> {
    if |buffer| == 0 then Throws(ErrInvalidData)
    else
      var lead := buffer[0];
      if lead <= 0x7f then Ok(Some(Decoded(1, 0, false)))
      else if lead <= 0xb7 then Ok(Some(Decoded(lead - 0x80, 1, false)))
      else if lead <= 0xbf then LongLength(buffer, lead - 0xb7, false)
      else if lead <= 0xf7 then Ok(Some(Decoded(lead - 0xc0, 1, true)))
      else LongLength(buffer, lead - 0xf7, true)
  }

  function LongLength(buffer: bytes, count: nat, isList: bool): Result<Option<Decoded>>
    requires 1 <= count
  {
    if count > 4 then Ok(None)
    else
      match LengthBytes(buffer, count)
      case Ok(length) => Ok(Some(Decoded(length, 1 + count, isList)))
      case Throws(e) => Throws(e)
      case Reset => Reset
  }

  // The header as the Yellow Paper defines it

  /** How many bytes behind the lead byte hold the length. */
  function LengthOfLength(lead: uint8): nat {
    if 0xb8 <= lead <= 0xbf then lead - 0xb7
    else if 0xf8 <= lead then lead - 0xf7
    else 0
  }

  /** The number of payload bytes an item announces; a byte below 0x80 is its own payload. */
  function Announced(header: bytes): nat
    requires header != []
  {
    var lead := header[0];
    if lead <= 0x7f then 1
    else if lead <= 0xb7 then lead - 0x80
    else if lead <= 0xbf then Eval(256, header[1..])
    else if lead <= 0xf7 then lead - 0xc0
    else Eval(256, header[1..])
  }

  predicate AnnouncesList(lead: uint8) {
    lead >= 0xc0
  }

  // How the two fit together

  lemma EvalFour(b: seq<nat>)
    requires |b| <= 4
    ensures |b| == 1 ==> Eval(256, b) == b[0]
    ensures |b| == 2 ==> Eval(256, b) == b[0] * 0x100 + b[1]
    ensures |b| == 3 ==> Eval(256, b) == b[0] * 0x1_0000 + b[1] * 0x100 + b[2]
    ensures |b| == 4 ==> Eval(256, b) == b[0] * 0x100_0000 + b[1] * 0x1_0000 + b[2] * 0x100 + b[3]
  {
    if |b| >= 1 {
      assert b[..1] == [] + [b[0]];
      EvalSnoc(256, [], b[0]);
    }
    if |b| >= 2 {
      assert b[..2] == b[..1] + [b[1]];
      EvalSnoc(256, b[..1], b[1]);
    }
    if |b| >= 3 {
      assert b[..3] == b[..2] + [b[2]];
      EvalSnoc(256, b[..2], b[2]);
    }
    if |b| >= 4 {
      assert b[..4] == b[..3] + [b[3]];
      EvalSnoc(256, b[..3], b[3]);
    }
    assert b[..|b|] == b;
  }

  /** Header detection is exact.  Given the bytes of an item one at a time, with the five-byte peek buffer of the
      parser, the probe never reports an invalid header; it first succeeds after exactly the header, and then the
      decoder succeeds with the length and kind the header announces.  Lengths of more than four bytes are not
      decodable within the peek buffer. */
  lemma HeaderDetection(buffer: bytes)
    requires 1 <= |buffer| <= 5
    ensures CanDecode(buffer) ==
              Ok(if LengthOfLength(buffer[0]) <= 4 && |buffer| >= 1 + LengthOfLength(buffer[0]) then Decodable
                 else Incomplete)
    ensures LengthOfLength(buffer[0]) <= 4 && |buffer| == 1 + LengthOfLength(buffer[0]) ==>
              var offset := if buffer[0] <= 0x7f then 0 else |buffer|;
              Announced(buffer) < W32
              && DecodeLength(buffer) == Ok(Some(Decoded(Announced(buffer), offset, AnnouncesList(buffer[0]))))
  {
    WordSizes();
    hide Eval, Pow;
    EvalFour(buffer[1..]);
  }
}
