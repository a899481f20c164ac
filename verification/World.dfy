/** What the application calls but does not contain: hashing, key derivation and signing of the device. */
module World {
  import opened Words
  import opened Numerals
  import opened Rlp
  import opened Signature
  import opened Bip44

  type Hash = b: bytes | |b| == 32 witness Zeros(32)
  type Address = b: bytes | |b| == 20 witness Zeros(20)
  type Scalar = n: nat | 1 <= n < W256 witness 1

  /** An ECDSA signature and the two bits the device reports about it. */
  datatype Ecdsa = Ecdsa(r: Scalar, s: Scalar, odd: bool, overflow: bool)

  /** Keccak-256, the address of a derivation path and the signature of a hash under its key; `leftover` is what
      an uninitialised text buffer happens to hold. */
  datatype World = World(
    keccak: bytes -> Hash,
    address: Indexes -> Address,
    sign: (Indexes, Hash) -> Ecdsa,
    leftover: bytes)

  // The signature that is sent

  /** A number in 32 bytes, most significant first. */
  function Bytes32(n: Scalar): (b: bytes)
    ensures |b| == 32 && Eval(256, b) == n
  {
    SignificantDenotes(n);
    var part := Significant(n);
    ZerosInFront(Zeros(32 - |part|), part);
    Zeros(32 - |part|) + part
  }

  /** The parity byte: 27 plus the two bits. */
  function ParityOf(e: Ecdsa): uint8 {
    27 + (if e.odd then 1 else 0) + (if e.overflow then 2 else 0)
  }

  /** v, r and s as they are sent. */
  function SignatureBytes(e: Ecdsa): (b: bytes)
    ensures |b| == 65
  {
    [ParityOf(e)] + Bytes32(e.r) + Bytes32(e.s)
  }

  /** A field after the taken bytes of `n` were written over its end. */
  function Overwritten(before: Hash, n: Scalar): Hash {
    SignificantDenotes(n);
    before[..32 - |Significant(n)|] + Significant(n)
  }

  lemma OverwrittenCleared(n: Scalar)
    ensures Overwritten(Zeros(32), n) == Bytes32(n)
  {
    SignificantDenotes(n);
    hide Significant, Eval;
    assert Zeros(32)[..32 - |Significant(n)|] == Zeros(32 - |Significant(n)|);
  }
}
