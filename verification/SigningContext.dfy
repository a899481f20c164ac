/** The context of a signing session, `ins_sign_tx_context_t` of src/get_tx_sign.h, and what is done with its parts. */
module SigningContext {
  import opened Words
  import opened Numerals
  import opened Errors
  import opened StreamModel
  import opened TxStream
  import opened Amounts
  import opened Signature
  import opened Bip44
  import opened World
  import opened Session

  class SignContext {
    var stage: Stage
    var responseReady: nat
    var uiStep: UiStep
    const path: Path
    const tx: Transaction
    var stream: Stream?
    const signature: SignatureCell

    /** A cleared context; clearing is a context of its own here. */
    constructor ()
      ensures Valid() && fresh(Repr()) && Model() == CLEARED_CONTEXT && tx.Contents() == EMPTY_RECORD
    {
      stage, responseReady, uiStep, stream := StageNone, 0, NoStep, null;
      path := new Path();
      tx := new Transaction();
      signature := new SignatureCell();
      new;
      assert tx.sender.value[..] == Zeros(20);
    }

    ghost function OwnCells(): set<object> {
      {this, path, path.path, signature, signature.r, signature.s, tx.sender, tx.sender.value}
    }

    ghost function Repr(): set<object>
      reads this
    {
      OwnCells() + tx.Cells() + if stream == null then {} else {stream, stream.rlpBuffer}
    }

    ghost predicate Valid()
      reads this, path, stream
    {
      path.Valid() && tx.Valid() && signature.Valid()
      && OwnCells() !! tx.Cells()
      && {this, path, path.path} !! {signature, signature.r, signature.s, tx.sender, tx.sender.value}
      && {signature, signature.r, signature.s} !! {tx.sender, tx.sender.value}
      && (stream != null ==>
            stream.tx == tx && stream.Valid() && stream !in OwnCells() && stream.rlpBuffer !in OwnCells())
    }

    ghost function Model(): Context
      requires Valid()
      reads this, path, stream, Repr()
    {
      Context(stage, responseReady, uiStep, path.Value(), if stream == null then None else Some(stream.Model()),
              tx.sender.value[..], tx.sender.length, signature.v, signature.r[..], signature.s[..])
    }

    /** `txStreamInit`. */
    method InitStream()
      requires Valid() && tx.Contents() == EMPTY_RECORD
      modifies `stream
      ensures Valid() && stream != null && fresh(stream) && fresh(stream.rlpBuffer)
      ensures Model() == old(Model()).(stream := Some(INITIAL))
    {
      hide Transaction.Cells, Transaction.Contents, Transaction.Valid;
      stream := new Stream(tx);
    }
  
    lemma Parts()
      requires Valid()
      ensures Model().stage == stage && Model().responseReady == responseReady && Model().uiStep == uiStep
      ensures Model().stream == if stream == null then None else Some(stream.Model())
      ensures Model().path == path.Value() && Model().sender == tx.sender.value[..]
      ensures Model().senderLength == tx.sender.length && Model().sigV == signature.v
      ensures Model().sigR == signature.r[..] && Model().sigS == signature.s[..]
    {
    }

    /** The fields the screens look at. */
    lemma TransactionParts()
      requires Valid() && stream != null
      ensures var kept := stream.Model().tx;
              kept.recipient == Store(tx.recipient.value[..], tx.recipient.length)
              && kept.value.length == tx.value.length && kept.gasPrice.length == tx.gasPrice.length
              && kept.startGas.length == tx.startGas.length && kept.isContractCall == tx.isContractCall
    {
    }

    function SenderOf(): (a: Address)
      requires Valid()
      reads this, path, stream, Repr()
      ensures a == Model().sender
    {
      tx.sender.value[..]
    }

    method SetStage(stage: Stage)
      requires Valid()
      modifies `stage
      ensures Valid() && Model() == old(Model()).(stage := stage)
    {
      hide Transaction.Valid, Path.Value;
      this.stage := stage;
    }

    method SetResponseReady(tag: nat)
      requires Valid()
      modifies `responseReady
      ensures Valid() && Model() == old(Model()).(responseReady := tag)
    {
      hide Transaction.Valid, Path.Value;
      responseReady := tag;
    }

    method SetUiStep(uiStep: UiStep)
      requires Valid()
      modifies `uiStep
      ensures Valid() && Model() == old(Model()).(uiStep := uiStep)
    {
      hide Transaction.Valid, Path.Value;
      this.uiStep := uiStep;
    }

    /** `bip44_parseFromWire` into the context. */
    method ParsePath(data: array<uint8>, size: nat) returns (r: Result<nat>)
      requires Valid() && size <= data.Length
      modifies path, path.path
      ensures Valid()
      ensures var parsed := Parsed(data[..size]);
              if parsed.Ok? then r == Ok(parsed.value.1) && Model() == old(Model()).(path := parsed.value.0)
              else r == Throws(ErrInvalidData) && Model() == old(Model())
    {
      hide Transaction.Valid, Parsed, Path.Value;
      r := ParseFromWire(path, data, size);
    }

    /** What `handleSignTxInit` prepares: the stage, the stream and the path. */
    method Open(data: array<uint8>, size: nat) returns (r: Result<nat>)
      requires Valid() && size <= data.Length && data !in Repr() && tx.Contents() == EMPTY_RECORD
      modifies this, path, path.path
      ensures Valid() && fresh(Repr() - old(Repr())) && data !in Repr()
      ensures var parsed, begun := Parsed(data[..size]),
                                   old(Model()).(stage := StageInit, responseReady := 0, stream := Some(INITIAL));
              if parsed.Ok? then r == Ok(parsed.value.1) && Model() == begun.(path := parsed.value.0)
              else r == Throws(ErrInvalidData) && Model() == begun
    {
      hide SignContext.Model, Parsed;
      SetStage(StageInit);
      SetResponseReady(0);
      InitStream();
      r := ParsePath(data, size);
    }

    /** `txStreamProcess` on the stream of the context. */
    method Process(data: array<uint8>, size: nat) returns (status: Status)
      requires Valid() && stream != null && Waiting(stream.Model()) && size <= data.Length && data !in Repr()
      modifies stream.Repr()
      ensures Valid() && stream == old(stream)
      ensures var r := ProcessChunk(old(stream.Model()), data[..size], false);
              status == r.1 && Model() == old(Model()).(stream := Some(r.0))
      ensures status != Fault ==> Waiting(stream.Model())
    {
      hide Transaction.Cells, Transaction.Contents, Transaction.Valid, Stream.Valid, Stream.Model, ProcessChunk,
           Path.Value;
      status := stream.Process(data, size, 0);
    }

    /** `txGetV`. */
    method GetChainId() returns (r: Result<nat>)
      requires Valid() && stream != null && Waiting(stream.Model())
      ensures (r == Ok(EXPECTED_CHAIN_ID)) == IsExpectedChain(stream.Model().tx.v)
    {
      hide Eval;
      r := GetV(tx.v);
    }

    /** `txGetFormattedAmount` with the 40-byte buffer of the screen. */
    method FormatAmount() returns (r: Result<string>)
      requires Valid() && stream != null && Waiting(stream.Model())
      ensures r == AmountShown(NumberOf(stream.Model().tx.value))
    {
      hide Eval, AmountText;
      var valueStr := new char[AMOUNT_BUFFER_SIZE];
      var length := FormattedAmount(tx.value, WEI_TO_FTM_DECIMALS, valueStr, AMOUNT_BUFFER_SIZE);
      r := AsString(length, valueStr);
    }

    /** `txGetFormattedFee` with the 40-byte buffer of the screen. */
    method FormatFee() returns (r: Result<string>)
      requires Valid() && stream != null && Waiting(stream.Model())
      ensures r == FeeShown(NumberOf(stream.Model().tx.gasPrice), NumberOf(stream.Model().tx.startGas))
    {
      hide Eval, AmountText;
      var valueStr := new char[AMOUNT_BUFFER_SIZE];
      var length := FormattedFee(tx.gasPrice, tx.startGas, WEI_TO_FTM_DECIMALS, valueStr, AMOUNT_BUFFER_SIZE);
      r := AsString(length, valueStr);
    }

    /** `txGetSignature`: the sender of the path, and v, r and s from the DER encoding the device delivers. */
    method GetSignature(hash: Hash, w: World) returns (r: Result<()>)
      requires Valid()
      modifies tx.sender, tx.sender.value, signature, signature.r, signature.s
      ensures Valid() && r == KeyDerivation(old(Model()).path)
      ensures Model() == if r == Ok(()) then WithSignature(old(Model()), w.sign(old(Model()).path, hash), w)
                         else old(Model())
    {
      hide SignContext.Model, SignContext.Valid, Overwritten;
      r := KeyDerivation(PathOf());
      if r != Ok(()) {
        return r;
      }
      var address, e := w.address(PathOf()), w.sign(PathOf(), hash);
      SetSender(address);
      KeepSignature(e);
    }

    function PathOf(): (p: Indexes)
      requires Valid()
      reads this, path, stream, Repr()
      ensures p == Model().path
    {
      path.Value()
    }

    method SetSender(address: Address)
      requires Valid()
      modifies tx.sender, tx.sender.value
      ensures Valid() && Model() == old(Model()).(sender := address, senderLength := 20)
    {
      forall i | 0 <= i < 20 {
        tx.sender.value[i] := address[i];
      }
      tx.sender.length := 20;
      assert tx.sender.value[..] == address;
    }

    method KeepSignature(e: Ecdsa)
      requires Valid()
      modifies signature, signature.r, signature.s
      ensures Valid()
      ensures Model() == old(Model()).(sigV := ParityOf(e), sigR := Overwritten(old(Model()).sigR, e.r),
                                       sigS := Overwritten(old(Model()).sigS, e.s))
    {
      hide Transaction.Valid, Overwritten;
      StoreDer(e);
    }

    /** The DER encoding stands in a buffer with arbitrary content behind it. */
    method StoreDer(e: Ecdsa)
      requires Valid()
      modifies signature, signature.r, signature.s
      ensures signature.Valid() && signature.v == ParityOf(e)
      ensures signature.r[..] == Overwritten(old(signature.r[..]), e.r)
      ensures signature.s[..] == Overwritten(old(signature.s[..]), e.s)
    {
      hide Transaction.Cells, Transaction.Contents, Transaction.Valid, Stream.Valid, Der, Extracted, Significant, Eval;
      var sig := new uint8[SIG_SIZE];
      var der := Der(e.r, e.s);
      DerFits(e.r, e.s);
      forall i | 0 <= i < |der| {
        sig[i] := der[i];
      }
      assert sig[..|der|] == der;
      ExtractionInvertsDer(e.r, e.s, sig[..]);
      SignificantDenotes(e.r);
      SignificantDenotes(e.s);
      var result := StoreSignature(sig, |der|, e.odd, e.overflow, signature);
    }
  }

  /** The text that was written, as a string. */
  method AsString(length: Result<nat>, out: array<char>) returns (r: Result<string>)
    requires length.Ok? ==> length.value <= out.Length
    ensures length.Ok? ==> r == Ok(out[..length.value])
    ensures length.Throws? ==> r == Throws(length.error)
    ensures length.Reset? ==> r == Reset
  {
    match length {
      case Ok(n) => r := Ok(out[..n]);
      case Throws(e) => r := Throws(e);
      case Reset => r := Reset;
    }
  }
}
