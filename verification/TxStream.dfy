/** The streaming transaction parser of src/tx_stream.c, working on one chunk at a time. */
module TxStream {
  import opened Words
  import opened Errors
  import opened Rlp
  import opened StreamModel
  import opened FieldEntry
  import opened Amounts

  method Memcpy(target: array<uint8>, at: nat, source: array<uint8>, from: nat, length: nat)
    requires at + length <= target.Length && from + length <= source.Length && target != source
    modifies target
    ensures target[..] == Splice(old(target[..]), at, source[from..from + length])
  {
    forall i | 0 <= i < length {
      target[at + i] := source[from + i];
    }
  }

  /** `transaction_t`.  The V field has 32 bytes of storage here. */
  class Transaction {
    const gasPrice: Slot
    const startGas: Slot
    const value: Slot
    const recipient: Slot
    const sender: Slot
    const v: Slot
    var isContractCall: bool

    constructor ()
      ensures Valid() && fresh(Cells()) && Contents() == EMPTY_RECORD
      ensures fresh(sender) && fresh(sender.value) && sender.length == 0
      ensures forall i :: 0 <= i < sender.value.Length ==> sender.value[i] == 0
    {
      gasPrice := new Slot(32);
      startGas := new Slot(32);
      value := new Slot(32);
      recipient := new Slot(20);
      sender := new Slot(20);
      v := new Slot(32);
      isContractCall := false;
    }

    /** What the stream fills; the sender is not among it. */
    ghost function Cells(): set<object> {
      {this, gasPrice, gasPrice.value, startGas, startGas.value, recipient, recipient.value, value, value.value,
       v, v.value}
    }

    ghost predicate Valid() {
      gasPrice.value.Length == 32 && startGas.value.Length == 32 && value.value.Length == 32
      && recipient.value.Length == 20 && v.value.Length == 32 && sender.value.Length == 20
      && Apart(gasPrice, startGas) && Apart(gasPrice, recipient) && Apart(gasPrice, value) && Apart(gasPrice, v)
      && Apart(startGas, recipient) && Apart(startGas, value) && Apart(startGas, v)
      && Apart(recipient, value) && Apart(recipient, v) && Apart(value, v)
      && sender !in Cells() && sender.value !in Cells()
    }

    static ghost predicate Apart(a: Slot, b: Slot) {
      a != b && a.value != b.value
    }

    /** The fields the stream fills. */
    ghost function Contents(): Record
      reads Cells()
    {
      Record(Store(gasPrice.value[..], gasPrice.length), Store(startGas.value[..], startGas.length),
             Store(recipient.value[..], recipient.length), Store(value.value[..], value.length),
             Store(v.value[..], v.length), isContractCall)
    }

    /** Where a field is kept, if it is. */
    function SlotFor(f: Field): Slot? {
      match f
      case TxGasPrice => gasPrice
      case TxStartGas => startGas
      case TxRecipient => recipient
      case TxValue => value
      case TxV => v
      case _ => null
    }

    lemma SlotIsCell(f: Field)
      ensures this in Cells()
      ensures SlotFor(f) != null ==> SlotFor(f) in Cells() && SlotFor(f).value in Cells()
    {
    }

    lemma SlotHolds(f: Field, length: nat)
      requires Valid() && f.Admits(length)
      ensures SlotFor(f) != null ==> length <= SlotFor(f).value.Length
    {
    }

    /** `memcpy` into the storage of a field. */
    method Keep(slot: Slot, ghost f: Field, at: nat, source: array<uint8>, from: nat, length: nat)
      requires Valid() && slot == SlotFor(f) && source !in Cells()
      requires at + length <= slot.value.Length && from + length <= source.Length
      modifies slot.value
      ensures Contents() == Stored(old(Contents()), f, at, source[from..from + length])
    {
      hide Splice;
      Memcpy(slot.value, at, source, from, length);
    }

    method SetLength(slot: Slot, ghost f: Field, length: uint32)
      requires Valid() && slot == SlotFor(f) && f.Admits(length)
      modifies slot
      ensures Contents() == Completed(old(Contents()), f, length)
    {
      slot.length := length;
    }
  }

  lemma NotKept(tx: Record, f: Field, at: nat, data: bytes)
    requires !f.IsKept()
    ensures Stored(tx, f, at, data) == tx
  {
  }

  class Stream {
    var currentField: Field
    var currentFieldLength: uint32
    var currentFieldPos: nat
    var isCurrentFieldList: bool
    var isProcessingField: bool
    var isFieldSingleByte: bool
    var dataLength: uint32
    const rlpBuffer: array<uint8>
    var rlpBufferOffset: nat
    var workBuffer: array<uint8>
    var workPosition: nat
    var workBufferLength: nat
    var processingFlags: uint32
    const tx: Transaction
    /** What the SHA3 context has absorbed since it was initialised. */
    var absorbed: bytes

    /** `txStreamInit` on cleared memory. */
    constructor (tx: Transaction)
      requires tx.Valid() && tx.Contents() == EMPTY_RECORD
      ensures this.tx == tx && Valid() && Model() == INITIAL && Rest() == []
      ensures fresh(Repr() - tx.Cells()) && fresh(workBuffer)
    {
      this.tx := tx;
      rlpBuffer := new uint8[5](_ => 0);
      rlpBufferOffset := 0;
      workBuffer := new uint8[0];
      workPosition, workBufferLength, processingFlags := 0, 0, 0;
      absorbed := [];
      currentFieldLength, currentFieldPos, dataLength, isCurrentFieldList := 0, 0, 0, false;
      currentField := TxEnvelope;
      isProcessingField, isFieldSingleByte := false, false;
    }

    ghost function Repr(): set<object> {
      {this, rlpBuffer} + tx.Cells()
    }

    ghost predicate Valid()
      reads this
    {
      tx.Valid() && rlpBuffer.Length == 5 && rlpBufferOffset <= 5
      && rlpBuffer !in tx.Cells() && this !in tx.Cells()
      && workPosition + workBufferLength <= workBuffer.Length
      && workBuffer !in Repr()
    }

    /** The state that lasts from one chunk to the next. */
    ghost function Model(): Machine
      requires Valid()
      reads Repr()
    {
      Machine(currentField, currentFieldLength, currentFieldPos, isCurrentFieldList, isProcessingField,
              isFieldSingleByte, dataLength, rlpBuffer[..rlpBufferOffset], tx.Contents(), absorbed)
    }

    /** The bytes of the current chunk that are still unread. */
    ghost function Rest(): bytes
      requires Valid()
      reads Repr(), workBuffer
    {
      workBuffer[workPosition..workPosition + workBufferLength]
    }

    /** The chunk is the same and only more of it may have been read. */
    twostate predicate SameChunk()
      reads this
    {
      workBuffer == old(workBuffer) && processingFlags == old(processingFlags)
      && workPosition + workBufferLength == old(workPosition + workBufferLength)
    }

    predicate Typed()
      reads this
    {
      processingFlags % 2 == 1
    }

    /** One byte of a header; outside a field it is hashed, whatever it turns out to be. */
    method ReadByte() returns (data: uint8)
      requires Valid() && 1 <= workBufferLength
      modifies this
      ensures Valid() && SameChunk()
      ensures workPosition == old(workPosition) + 1 && rlpBufferOffset == old(rlpBufferOffset)
      ensures data == old(Rest())[0] && Rest() == old(Rest())[1..]
      ensures Model() == old(Model()).(
                pos := if old(isProcessingField) then old(currentFieldPos) + 1 else old(currentFieldPos),
                absorbed := if old(isProcessingField && isFieldSingleByte) then old(absorbed)
                            else old(absorbed) + [data])
    {
      hide Transaction.Cells, Transaction.Contents, Transaction.Valid;
      data := workBuffer[workPosition];
      workPosition := workPosition + 1;
      workBufferLength := workBufferLength - 1;
      if isProcessingField {
        currentFieldPos := currentFieldPos + 1;
      }
      if !(isProcessingField && isFieldSingleByte) {
        absorbed := absorbed + [data];
      }
    }

    /** Hash `length` bytes, unless the byte was hashed when it was read as a header, and move past them. */
    method HashAndAdvance(length: nat)
      requires Valid() && isProcessingField && length <= workBufferLength
      modifies this
      ensures Valid() && SameChunk()
      ensures Rest() == old(Rest())[length..]
      ensures Model() == old(Model()).(
                absorbed := if old(isFieldSingleByte) then old(absorbed) else old(absorbed) + old(Rest())[..length],
                pos := old(currentFieldPos) + length)
    {
      hide Transaction.Cells, Transaction.Contents, Transaction.Valid;
      ghost var data := Rest()[..length];
      assert data == workBuffer[workPosition..workPosition + length];
      if !(isProcessingField && isFieldSingleByte) {
        absorbed := absorbed + workBuffer[workPosition..workPosition + length];
      }
      workPosition := workPosition + length;
      workBufferLength := workBufferLength - length;
      currentFieldPos := currentFieldPos + length;
    }

    /** `txStreamCopyData`: copy to the field, if it is kept, hash and advance. */
    method CopyData(slot: Slot?, length: nat)
      requires Valid() && isProcessingField && length <= workBufferLength && slot == tx.SlotFor(currentField)
      requires slot != null ==> currentFieldPos + length <= slot.value.Length
      modifies this, tx.Cells()
      ensures Valid() && SameChunk()
      ensures Rest() == old(Rest())[length..]
      ensures var data := old(Rest())[..length];
              Model() == old(Model()).(
                tx := Stored(old(Model()).tx, old(currentField), old(currentFieldPos), data),
                absorbed := if old(isFieldSingleByte) then old(absorbed) else old(absorbed) + data,
                pos := old(currentFieldPos) + length)
    {
      hide Splice, Stored, Transaction.Cells, Transaction.Contents, Transaction.Valid;
      tx.SlotIsCell(currentField);
      ghost var data := Rest()[..length];
      assert data == workBuffer[workPosition..workPosition + length];
      if slot != null {
        tx.Keep(slot, currentField, currentFieldPos, workBuffer, workPosition, length);
      } else {
        NotKept(tx.Contents(), currentField, currentFieldPos, data);
      }
      HashAndAdvance(length);
    }

    /** The four field processors; `slot` is where the field is kept, if it is.  A failed `VALIDATE` is caught
        by `txStreamProcess` and reported as a fault. */
    method ProcessStringField(slot: Slot?) returns (status: Status)
      requires Valid() && isProcessingField && slot == tx.SlotFor(currentField)
      requires currentFieldPos <= currentFieldLength
      modifies this, tx.Cells()
      ensures Valid() && SameChunk()
      ensures (Model(), status) == StringField(old(Model()), old(Rest()))
      ensures status != Fault ==> Rest() == old(Rest())[Taken(old(Model()), old(Rest()))..]
    {
      hide Splice, Stored, Completed, Transaction.Cells, Transaction.Contents, Transaction.Valid;
      if isCurrentFieldList || !currentField.Admits(currentFieldLength) {
        return Fault;
      }
      ghost var m, rest := Model(), Rest();
      tx.SlotHolds(currentField, currentFieldLength);
      var toCopy := 0;
      if currentFieldPos < currentFieldLength {
        toCopy := currentFieldLength - currentFieldPos;
        if workBufferLength < toCopy {
          toCopy := workBufferLength;
        }
      }
      CopyData(slot, toCopy);
      if currentFieldPos == currentFieldLength {
        FinishField(slot);
      }
      status := Processing;
    }

    /** The field is complete: remember its length and go on to the next. */
    method FinishField(slot: Slot?)
      requires Valid() && slot == tx.SlotFor(currentField) && currentField.Admits(currentFieldLength)
      modifies this, tx.Cells()
      ensures Valid() && SameChunk()
      ensures Rest() == old(Rest())
      ensures Model() == old(Model()).(tx := Completed(old(Model()).tx, old(currentField), old(currentFieldLength)),
                                       field := old(currentField).Next(), processing := false, single := false)
    {
      hide Completed, Transaction.Cells, Transaction.Contents, Transaction.Valid;
      tx.SlotIsCell(currentField);
      if slot != null {
        tx.SetLength(slot, currentField, currentFieldLength);
      } else {
        NotMeasured(tx.Contents(), currentField, currentFieldLength);
      }
      currentField := currentField.Next();
      isProcessingField := false;
      isFieldSingleByte := false;
    }

    /** The envelope must be a list; the type field is only expected when the flags say so. */
    method ProcessEnvelope() returns (status: Status)
      requires Valid() && currentField == TxEnvelope
      modifies this
      ensures Valid() && SameChunk()
      ensures Rest() == old(Rest()) && (Model(), status) == Proxy(old(Model()), old(Rest()), Typed())
    {
      hide Transaction.Cells, Transaction.Contents, Transaction.Valid;
      if !isCurrentFieldList {
        return Fault;
      }
      dataLength := currentFieldLength;
      currentField := currentField.Next();
      isProcessingField := false;
      if processingFlags % 2 == 0 {
        currentField := currentField.Next();
      }
      status := Processing;
    }

    method ParseFieldProxy() returns (status: Status)
      requires Valid() && isProcessingField && currentFieldPos <= currentFieldLength
      modifies this, tx.Cells()
      ensures Valid() && SameChunk()
      ensures (Model(), status) == Proxy(old(Model()), old(Rest()), Typed())
      ensures status != Fault ==>
                Rest() == if old(currentField) == TxEnvelope then old(Rest())
                          else old(Rest())[Taken(old(Model()), old(Rest()))..]
    {
      hide StringField, Transaction.Cells, Transaction.Contents, Transaction.Valid;
      match currentField {
        case TxEnvelope => status := ProcessEnvelope();
        case TxType => status := ProcessStringField(null);
        case TxNonce => status := ProcessStringField(null);
        case TxGasPrice => status := ProcessStringField(tx.gasPrice);
        case TxStartGas => status := ProcessStringField(tx.startGas);
        case TxValue => status := ProcessStringField(tx.value);
        case TxRecipient => status := ProcessStringField(tx.recipient);
        case TxData =>
          tx.SlotIsCell(TxData);
          DetectContractCall();
          status := ProcessStringField(null);
        case TxV => status := ProcessStringField(tx.v);
        case TxR => status := ProcessStringField(null);
        case TxS => status := ProcessStringField(null);
        case NoField => status := Fault;
        case TxDone => status := Fault;
      }
    }

    method DetectContractCall()
      requires Valid() && currentField == TxData
      modifies tx
      ensures Valid() && Rest() == old(Rest()) && Model() == Flagged(old(Model()))
    {
      if currentFieldPos == 0 {
        tx.isContractCall := currentFieldLength >= 4 && (currentFieldLength - 4) % 32 == 0;
      }
    }

    /** One round of header detection: read a byte into the peek buffer. */
    method PeekByte()
      requires Valid() && 1 <= workBufferLength && !isProcessingField && rlpBufferOffset < 5
      modifies this, rlpBuffer
      ensures Valid() && SameChunk()
      ensures workPosition == old(workPosition) + 1 && workBuffer[workPosition - 1] == old(Rest())[0]
      ensures Rest() == old(Rest())[1..]
      ensures var b := workBuffer[workPosition - 1];
              Model() == old(Model()).(header := old(Model()).header + [b], absorbed := old(Model()).absorbed + [b])
    {
      hide Transaction.Cells, Transaction.Contents, Transaction.Valid;
      ghost var header := rlpBuffer[..rlpBufferOffset];
      var data := ReadByte();
      rlpBuffer[rlpBufferOffset] := data;
      rlpBufferOffset := rlpBufferOffset + 1;
      assert rlpBuffer[..rlpBufferOffset] == header + [data];
    }

    /** Feed the peek buffer until it reveals a header or the chunk ends. */
    method DetectField() returns (status: Status, canDecode: bool)
      requires Valid() && Waiting(Model()) && !isProcessingField && currentField != TxDone
      modifies this, rlpBuffer
      ensures Valid() && SameChunk()
      ensures status != Finished
      ensures status == Fault ==> Feed(old(Model()), old(Rest()), Typed()) == (Model(), Fault)
      ensures status == Processing && !canDecode ==>
                Rest() == [] && Waiting(Model()) && Feed(old(Model()), old(Rest()), Typed()) == (Model(), Processing)
      ensures status == Processing && canDecode ==>
                old(workPosition) < workPosition && currentField == old(currentField)
                && HeaderRead(Model(), workBuffer[workPosition - 1])
                && Feed(old(Model()), old(Rest()), Typed())
                   == Continued(Enter(Model(), workBuffer[workPosition - 1], Typed()), Rest(), Typed())
    {
      hide Step, Enter, Proxy, Feed, Transaction.Cells, Transaction.Contents, Transaction.Valid;
      canDecode := false;
      while workBufferLength != 0
        invariant Valid() && SameChunk()
        invariant Waiting(Model()) && !isProcessingField && currentField != TxDone && !canDecode
        invariant old(workPosition) <= workPosition && currentField == old(currentField)
        invariant Feed(Model(), Rest(), Typed()) == Feed(old(Model()), old(Rest()), Typed())
        decreases workBufferLength
      {
        ghost var m, rest := Model(), Rest();
        FeedHeaderByte(m, rest, Typed());
        if rlpBufferOffset == 5 {
          return Fault, false;
        }
        PeekByte();
        match CanDecode(rlpBuffer[..rlpBufferOffset]) {
          case Ok(Incomplete) =>
          case Ok(Decodable) =>
            return Processing, true;
          case _ =>
            return Fault, false;
        }
      }
      FeedNothing(Model(), Typed());
      status := Processing;
    }

    /** The byte read last is unread; it lies inside the chunk because it was read from it. */
    method PushBack()
      requires Valid() && 0 < workPosition
      modifies this
      ensures Valid() && SameChunk() && Model() == old(Model())
      ensures Rest() == [old(workBuffer[workPosition - 1])] + old(Rest())
      ensures workBufferLength == old(workBufferLength) + 1
    {
      hide Transaction.Cells, Transaction.Contents, Transaction.Valid;
      workPosition := workPosition - 1;
      workBufferLength := workBufferLength + 1;
    }

    /** Decode the header and start its field.  A self-encoded byte is its own payload: it is pushed back to be
        copied by the field processor. */
    method BeginField(ghost b: uint8, ghost d: Decoded) returns (ok: bool)
      requires Valid() && 0 < workPosition && b == workBuffer[workPosition - 1] && HeaderRead(Model(), b)
      requires DecodeLength(Model().header) == Ok(Some(d))
      modifies this
      ensures Valid() && SameChunk() && ok && Model() == Begin(old(Model()), d)
      ensures Rest() == ReadAgain(d, b) + old(Rest())
      ensures workBufferLength == old(workBufferLength) + if isFieldSingleByte then 1 else 0
    {
      hide DecodeLength, LengthOfLength, Transaction.Cells, Transaction.Contents, Transaction.Valid;
      var decoded := DecodeLength(rlpBuffer[..rlpBufferOffset]).value;
      if decoded.None? {
        return false;
      }
      Announce(decoded.value);
      if decoded.value.offset == 0 {
        PushBack();
      }
      StartProcessing();
      ok := true;
    }

    /** What the header says; a self-encoded byte marks its field. */
    method Announce(d: Decoded)
      requires Valid()
      modifies this
      ensures Valid() && SameChunk() && Rest() == old(Rest()) && workPosition == old(workPosition)
      ensures Model() == old(Model()).(length := d.fieldLength, isList := d.isList,
                                       single := old(isFieldSingleByte) || d.offset == 0)
    {
      hide Transaction.Cells, Transaction.Contents, Transaction.Valid;
      currentFieldLength := d.fieldLength;
      isCurrentFieldList := d.isList;
      if d.offset == 0 {
        isFieldSingleByte := true;
      }
    }

    /** The peek buffer is reset; from now on bytes belong to the field. */
    method StartProcessing()
      requires Valid()
      modifies this
      ensures Valid() && SameChunk() && Rest() == old(Rest()) && workBufferLength == old(workBufferLength)
      ensures Model() == old(Model()).(header := [], pos := 0, processing := true)
    {
      hide Transaction.Cells, Transaction.Contents, Transaction.Valid;
      rlpBufferOffset := 0;
      currentFieldPos := 0;
      isProcessingField := true;
    }

    /** `txStreamParse`: the fields still to come and then the unread bytes bound the loop. */
    method Parse() returns (status: Status)
      requires Valid() && Waiting(Model())
      modifies Repr()
      ensures Valid() && SameChunk()
      ensures (Model(), status) == Feed(old(Model()), old(Rest()), Typed())
    {
      hide Proxy, Enter, Begin, Step, Feed, StringField, Transaction.Cells, Transaction.Contents, Transaction.Valid;
      while true
        invariant Valid() && SameChunk()
        invariant Waiting(Model())
        invariant Feed(Model(), Rest(), Typed()) == Feed(old(Model()), old(Rest()), Typed())
        decreases currentField.Left(), workBufferLength
      {
        FeedEnds(Model(), Rest(), Typed());
        if currentField == TxDone {
          return Finished;
        }
        if workBufferLength == 0 {
          return Processing;
        }
        if !isProcessingField {
          var canDecode;
          status, canDecode := DetectField();
          if status == Fault {
            return Fault;
          }
          if !canDecode {
            return Processing;
          }
          status := EnterField();
          if status == Fault {
            return Fault;
          }
        } else {
          ghost var m, rest := Model(), Rest();
          BlockIsBytes(m, rest, Typed());
          BodyProgress(m, rest, Typed());
          status := ParseFieldProxy();
        }
      }
    }

    /** Begin a field and take what the chunk holds of it. */
    method EnterField() returns (status: Status)
      requires Valid() && 0 < workPosition && HeaderRead(Model(), workBuffer[workPosition - 1])
      modifies this, tx.Cells()
      ensures Valid() && SameChunk()
      ensures var r := Continued(Enter(old(Model()), old(workBuffer[workPosition - 1]), Typed()), old(Rest()), Typed());
              if status == Fault then r == (Model(), Fault)
              else Waiting(Model()) && r == Feed(Model(), Rest(), Typed())
      ensures status != Fault ==>
                currentField.Left() < old(currentField).Left()
                || (currentField == old(currentField) && workBufferLength <= old(workBufferLength))
    {
      hide Proxy, Enter, Step, Feed, StringField, Transaction.Cells, Transaction.Contents, Transaction.Valid;
      ghost var m, b, rest := Model(), workBuffer[workPosition - 1], Rest();
      HeaderDecoded(m.header);
      ghost var d := DecodeLength(m.header).value.value;
      EnterIsProxy(m, b, d, rest, Typed());
      var ok := BeginField(b, d);
      status := ParseFieldProxy();
    }

    /** `txStreamProcess`: one chunk of the transaction. */
    method Process(buffer: array<uint8>, length: nat, flags: uint32) returns (status: Status)
      requires Valid() && Waiting(Model()) && length <= buffer.Length && buffer !in Repr()
      modifies Repr()
      ensures Valid()
      ensures (Model(), status) == ProcessChunk(old(Model()), buffer[..length], flags % 2 == 1)
      ensures status != Fault ==> Waiting(Model())
    {
      hide Feed, Transaction.Cells, Transaction.Contents, Transaction.Valid;
      if length == 0 || currentField == NoField || currentField == TxDone {
        return Fault;
      }
      ghost var m, chunk := Model(), buffer[..length];
      FeedKeepsWaiting(m, chunk, flags % 2 == 1);
      workBuffer := buffer;
      workPosition, workBufferLength := 0, length;
      processingFlags := flags;
      assert Rest() == chunk && Model() == m;
      status := Parse();
    }
  }

  lemma NotMeasured(tx: Record, f: Field, length: nat)
    requires !f.IsKept()
    ensures Completed(tx, f, length) == tx
  {
  }
}
