/** The transaction stream of src/tx_stream.c, one byte at a time.

    A `Machine` holds what the stream context keeps between two chunks.  `Step` consumes a single byte and
    `Feed` a byte string; the class in TxStream.dfy, which works on whole chunks, is proved to do the same.
 */
module StreamModel {
  import opened Words
  import opened Errors
  import opened Rlp

  // The fields in the order in which they are expected

  datatype Field =
    | NoField
    | TxEnvelope
    | TxType
    | TxNonce
    | TxGasPrice
    | TxStartGas
    | TxRecipient
    | TxValue
    | TxData
    | TxV
    | TxR
    | TxS
    | TxDone
  {
    function Next(): Field {
      match this
      case NoField => TxEnvelope
      case TxEnvelope => TxType
      case TxType => TxNonce
      case TxNonce => TxGasPrice
      case TxGasPrice => TxStartGas
      case TxStartGas => TxRecipient
      case TxRecipient => TxValue
      case TxValue => TxData
      case TxData => TxV
      case TxV => TxR
      case TxR => TxS
      case _ => TxDone
    }

    /** How many fields are still to come. */
    function Left(): nat {
      match this
      case NoField => 12
      case TxEnvelope => 11
      case TxType => 10
      case TxNonce => 9
      case TxGasPrice => 8
      case TxStartGas => 7
      case TxRecipient => 6
      case TxValue => 5
      case TxData => 4
      case TxV => 3
      case TxR => 2
      case TxS => 1
      case TxDone => 0
    }

    predicate IsString() {
      !NoField? && !TxEnvelope? && !TxDone?
    }

    predicate IsKept() {
      TxGasPrice? || TxStartGas? || TxRecipient? || TxValue? || TxV?
    }

    /** Data, R and S may have any length. */
    predicate Admits(length: nat) {
      if TxData? || TxR? || TxS? then true
      else if TxRecipient? then length <= 20
      else length <= 32
    }
  }

  /** The bytes of a kept field and the length that counts; the V field has 32 bytes of storage here. */
  datatype Store = Store(value: bytes, length: uint8)
  {
    ghost predicate Sized(size: nat) {
      |value| == size && length <= size
    }
  }

  datatype Record = Record(gasPrice: Store, startGas: Store, recipient: Store, value: Store, v: Store,
                           isContractCall: bool)
  {
    function Get(f: Field): Store
      requires f.IsKept()
    {
      match f
      case TxGasPrice => gasPrice
      case TxStartGas => startGas
      case TxRecipient => recipient
      case TxValue => value
      case TxV => v
    }

    function Put(f: Field, store: Store): Record
      requires f.IsKept()
    {
      match f
      case TxGasPrice => this.(gasPrice := store)
      case TxStartGas => this.(startGas := store)
      case TxRecipient => this.(recipient := store)
      case TxValue => this.(value := store)
      case TxV => this.(v := store)
    }

    ghost predicate Sized() {
      gasPrice.Sized(32) && startGas.Sized(32) && recipient.Sized(20) && value.Sized(32) && v.Sized(32)
    }
  }

  function Cleared(size: nat): Store {
    Store(seq(size, _ => 0), 0)
  }

  const EMPTY_RECORD := Record(Cleared(32), Cleared(32), Cleared(20), Cleared(32), Cleared(32), false)

  datatype Machine = Machine(
    field: Field,
    length: uint32,
    pos: nat,
    isList: bool,
    processing: bool,
    single: bool,
    dataLength: uint32,
    header: bytes,
    tx: Record,
    absorbed: bytes)

  datatype Status = Processing | Finished | Fault

  const INITIAL := Machine(TxEnvelope, 0, 0, false, false, false, 0, [], EMPTY_RECORD, [])

  // Field processing

  function Splice(value: bytes, at: nat, data: bytes): bytes {
    if at + |data| <= |value| then value[..at] + data + value[at + |data|..] else value
  }

  /** How much of the field the available bytes bring. */
  function Taken(m: Machine, avail: bytes): nat {
    if m.pos < m.length then Min(m.length - m.pos, |avail|) else 0
  }

  function Stored(tx: Record, f: Field, at: nat, data: bytes): Record {
    if f.IsKept() then tx.Put(f, tx.Get(f).(value := Splice(tx.Get(f).value, at, data))) else tx
  }

  function Completed(tx: Record, f: Field, length: nat): Record {
    if f.IsKept() && length < 256 then tx.Put(f, tx.Get(f).(length := length)) else tx
  }

  /** The four field processors; they differ in their storage and in their bound on the length. */
  function StringField(m: Machine, avail: bytes): (Machine, Status) {
    if m.isList || !m.field.Admits(m.length) then (m, Fault)
    else
      var data := avail[..Taken(m, avail)];
      var m' := m.(tx := Stored(m.tx, m.field, m.pos, data),
                   absorbed := if m.single then m.absorbed else m.absorbed + data,
                   pos := m.pos + |data|);
      if m'.pos == m'.length then
        (m'.(tx := Completed(m'.tx, m.field, m.length), field := m.field.Next(), processing := false, single := false),
         Processing)
      else (m', Processing)
  }

  function IsContractCall(length: nat): bool {
    length >= 4 && (length - 4) % 32 == 0
  }

  function Proxy(m: Machine, avail: bytes, typed: bool): (Machine, Status) {
    match m.field
    case TxEnvelope =>
      if !m.isList then (m, Fault)
      else (m.(dataLength := m.length, field := if typed then TxType else TxNonce, processing := false), Processing)
    case TxData =>
      StringField(if m.pos == 0 then m.(tx := m.tx.(isContractCall := IsContractCall(m.length))) else m, avail)
    case _ =>
      if m.field.IsString() then StringField(m, avail) else (m, Fault)
  }

  // Header detection

  /** A complete header, whose last byte is `b`, becomes the current field. */
  function Begin(m: Machine, d: Decoded): Machine {
    m.(length := d.fieldLength, isList := d.isList, single := m.single || d.offset == 0,
       header := [], pos := 0, processing := true)
  }

  /** A self-encoded byte is read again as the payload of its own field. */
  function ReadAgain(d: Decoded, b: uint8): bytes {
    if d.offset == 0 then [b] else []
  }

  function Enter(m: Machine, b: uint8, typed: bool): (Machine, Status) {
    match DecodeLength(m.header)
    case Ok(Some(d)) => Proxy(Begin(m, d), ReadAgain(d, b), typed)
    case _ => (m, Fault)
  }

  function HeaderByte(m: Machine, b: uint8, typed: bool): (Machine, Status) {
    if |m.header| == 5 then (m, Fault)
    else
      var m' := m.(header := m.header + [b], absorbed := m.absorbed + [b]);
      match CanDecode(m'.header)
      case Ok(Decodable) => Enter(m', b, typed)
      case Ok(Incomplete) => (m', Processing)
      case _ => (m', Fault)
  }

  // Feeding bytes

  function Step(m: Machine, b: uint8, typed: bool): (Machine, Status) {
    if m.processing then Proxy(m, [b], typed) else HeaderByte(m, b, typed)
  }

  /** Bytes behind the last field are left unread. */
  function Feed(m: Machine, s: bytes, typed: bool): (Machine, Status)
    decreases |s|
  {
    if m.field == TxDone then (m, Finished)
    else if s == [] then (m, Processing)
    else
      var (m', status) := Step(m, s[0], typed);
      if status == Fault then (m', Fault) else Feed(m', s[1..], typed)
  }

  /** `txStreamProcess`: an empty chunk, or one that arrives when no field is expected, is a fault. */
  function ProcessChunk(m: Machine, chunk: bytes, typed: bool): (Machine, Status) {
    if chunk == [] || m.field == NoField || m.field == TxDone then (m, Fault) else Feed(m, chunk, typed)
  }

  /** What holds between two bytes. */
  ghost predicate Waiting(m: Machine) {
    m.field != NoField && m.tx.Sized() && !m.single
    && if m.processing then
      m.field.IsString() && !m.isList && m.header == [] && m.pos < m.length && m.field.Admits(m.length)
    else
      |m.header| <= 5 && (m.header != [] ==> m.field != TxDone && CanDecode(m.header) == Ok(Incomplete))
  }

  lemma InitialWaits()
    ensures Waiting(INITIAL)
  {
  }

  /** A field whose header is complete, and what is taken of it, leaves the stream waiting unless it faults. */
  lemma ProxyKeepsWaiting(m: Machine, avail: bytes, typed: bool)
    requires m.processing && m.header == [] && m.pos <= m.length && m.tx.Sized()
    requires m.field != NoField && m.field != TxDone
    requires m.single ==> m.pos == 0 && m.length == 1 && (m.field == TxEnvelope ==> !m.isList) && avail != []
    ensures var (m', status) := Proxy(m, avail, typed);
            status != Finished && (status == Processing ==> Waiting(m'))
  {
    hide IsContractCall, Splice;
    SpliceLength();
  }

  lemma SpliceLength()
    ensures forall v: bytes, at: nat, d: bytes :: |Splice(v, at, d)| == |v|
  {
  }

  /** The next byte of a header or field keeps the stream waiting or faults. */
  lemma StepKeepsWaiting(m: Machine, b: uint8, typed: bool)
    requires Waiting(m) && m.field != TxDone
    ensures var (m', status) := Step(m, b, typed);
            status != Finished && (status == Processing ==> Waiting(m'))
  {
    if m.processing {
      ProxyKeepsWaiting(m, [b], typed);
    } else if |m.header| < 5 {
      var header := m.header + [b];
      HeaderDetection(header);
      if CanDecode(header) == Ok(Decodable) {
        HeaderComplete(m, b);
        var m' := m.(header := header, absorbed := m.absorbed + [b]);
        var d := DecodeLength(header).value.value;
        ProxyKeepsWaiting(Begin(m', d), if d.offset == 0 then [b] else [], typed);
      }
    }
  }

  /** The first header that can be decoded is exactly the header. */
  lemma HeaderComplete(m: Machine, b: uint8)
    requires Waiting(m) && !m.processing && |m.header| < 5 && CanDecode(m.header + [b]) == Ok(Decodable)
    ensures var header := m.header + [b];
            LengthOfLength(header[0]) <= 4 && |header| == 1 + LengthOfLength(header[0])
            && (header[0] <= 0x7f ==> m.header == [])
  {
    HeaderDetection(m.header + [b]);
    if m.header != [] {
      HeaderDetection(m.header);
      assert (m.header + [b])[0] == m.header[0];
    }
  }

  lemma {:induction false} FeedKeepsWaiting(m: Machine, s: bytes, typed: bool)
    requires Waiting(m)
    ensures var (m', status) := Feed(m, s, typed);
            status != Fault ==> Waiting(m') && (status == Finished <==> m'.field == TxDone)
    decreases |s|
  {
    if m.field != TxDone && s != [] {
      StepKeepsWaiting(m, s[0], typed);
      var (m', status) := Step(m, s[0], typed);
      if status != Fault {
        FeedKeepsWaiting(m', s[1..], typed);
      }
    }
  }

  // Chunking

  /** Feeding `a` and then, unless that ended the stream, `b` is feeding `a + b`. */
  lemma {:induction false} FeedConcat(m: Machine, a: bytes, b: bytes, typed: bool)
    ensures Feed(m, a + b, typed) ==
              var (m', status) := Feed(m, a, typed);
              if status == Processing then Feed(m', b, typed) else (m', status)
    decreases |a|
  {
    if m.field == TxDone {
    } else if a == [] {
      assert a + b == b;
    } else {
      assert (a + b)[0] == a[0] && (a + b)[1..] == a[1..] + b;
      var (m', status) := Step(m, a[0], typed);
      if status != Fault {
        FeedConcat(m', a[1..], b, typed);
      }
    }
  }

  /** Chunks are processed until one does not leave the stream waiting for more. */
  function ProcessChunks(m: Machine, chunks: seq<bytes>, typed: bool): (Machine, Status)
    decreases |chunks|
  {
    if chunks == [] then (m, Processing)
    else
      var (m', status) := ProcessChunk(m, chunks[0], typed);
      if status == Processing then ProcessChunks(m', chunks[1..], typed) else (m', status)
  }

  function Flatten(chunks: seq<bytes>): bytes {
    if chunks == [] then [] else chunks[0] + Flatten(chunks[1..])
  }

  /** If a chunk leaves the stream processing, the next chunk continues as if both had been one: same status,
      parser state, fields, contract-call flag and transcript. */
  lemma TwoChunks(m: Machine, a: bytes, b: bytes, typed: bool)
    requires Waiting(m) && b != []
    requires ProcessChunk(m, a, typed).1 == Processing
    ensures ProcessChunk(ProcessChunk(m, a, typed).0, b, typed) == ProcessChunk(m, a + b, typed)
  {
    FeedConcat(m, a, b, typed);
    FeedKeepsWaiting(m, a, typed);
  }

  /** Every split of the input into nonempty chunks gives the result of the whole input. */
  lemma {:induction false} ChunkingIndependence(m: Machine, chunks: seq<bytes>, typed: bool)
    requires Waiting(m) && m.field != TxDone
    requires forall i :: 0 <= i < |chunks| ==> chunks[i] != []
    ensures ProcessChunks(m, chunks, typed) == Feed(m, Flatten(chunks), typed)
    decreases |chunks|
  {
    if chunks != [] {
      FeedConcat(m, chunks[0], Flatten(chunks[1..]), typed);
      FeedKeepsWaiting(m, chunks[0], typed);
      var (m', status) := ProcessChunk(m, chunks[0], typed);
      if status == Processing {
        ChunkingIndependence(m', chunks[1..], typed);
      }
    }
  }

  /** A stream that has finished takes no further chunk, and no stream takes an empty one. */
  lemma NothingMore(m: Machine, a: bytes, b: bytes, typed: bool)
    requires Waiting(m)
    ensures Feed(m, a, typed).1 == Finished ==> ProcessChunk(Feed(m, a, typed).0, b, typed).1 == Fault
    ensures ProcessChunk(m, [], typed).1 == Fault
  {
    FeedKeepsWaiting(m, a, typed);
    hide Feed;
  }

  // Block copies

  lemma SpliceTwice(value: bytes, at: nat, s: bytes)
    requires s != [] && at + |s| <= |value|
    ensures Splice(Splice(value, at, s[..1]), at + 1, s[1..]) == Splice(value, at, s)
  {
  }

  lemma StoredTwice(tx: Record, f: Field, at: nat, s: bytes)
    requires tx.Sized() && s != [] && f.IsKept() && f.Admits(at + |s|)
    ensures Stored(Stored(tx, f, at, s[..1]), f, at + 1, s[1..]) == Stored(tx, f, at, s)
  {
    SpliceTwice(tx.Get(f).value, at, s);
  }

  /** The first byte of several missing ones. */
  lemma OneByte(m: Machine, b: uint8)
    requires !m.isList && m.field.Admits(m.length) && m.pos + 1 < m.length && !m.single
    ensures StringField(m, [b])
            == (m.(tx := Stored(m.tx, m.field, m.pos, [b]), absorbed := m.absorbed + [b], pos := m.pos + 1), Processing)
  {
    assert [b][..1] == [b];
    hide Stored, Completed;
  }

  /** The end of a field only depends on where the block ends. */
  lemma SameBlock(m: Machine, m': Machine, a: bytes, b: bytes)
    requires m'.field == m.field && m'.length == m.length && m'.isList == m.isList && !m.single && !m'.single
    requires Taken(m, a) <= |a| && Taken(m', b) <= |b| && m.pos + Taken(m, a) == m'.pos + Taken(m', b)
    requires Stored(m.tx, m.field, m.pos, a[..Taken(m, a)]) == Stored(m'.tx, m.field, m'.pos, b[..Taken(m', b)])
    requires m.absorbed + a[..Taken(m, a)] == m'.absorbed + b[..Taken(m', b)]
    requires m' == m.(tx := m'.tx, pos := m'.pos, absorbed := m'.absorbed) && !m.isList && m.field.Admits(m.length)
    ensures StringField(m, a) == StringField(m', b)
  {
    hide Stored, Completed, Taken;
  }

  /** A block of a field is its first byte and the rest of it. */
  lemma FieldSplits(m: Machine, s: bytes)
    requires m.tx.Sized() && !m.single && !m.isList && m.field.Admits(m.length) && |s| > 1 && m.pos + 1 < m.length
    ensures var m' := StringField(m, [s[0]]).0;
            StringField(m, [s[0]]) == (m', Processing) && m'.pos == m.pos + 1 && m'.field == m.field
            && Taken(m, s) == 1 + Taken(m', s[1..])
            && StringField(m, s) == StringField(m', s[1..])
  {
    OneByte(m, s[0]);
    var n, m' := Taken(m, s), StringField(m, [s[0]]).0;
    var data := s[..n];
    assert data[..1] == [s[0]] && data[1..] == s[1..][..n - 1];
    assert m.absorbed + data == (m.absorbed + data[..1]) + data[1..];
    if m.field.IsKept() {
      StoredTwice(m.tx, m.field, m.pos, data);
    }
    hide Splice, StringField, Field.Admits;
    SameBlock(m, m', s, s[1..]);
  }

  lemma FirstByteOnly(m: Machine, s: bytes)
    requires s != [] && m.pos < m.length && (|s| == 1 || m.pos + 1 == m.length)
    ensures Taken(m, s) == 1 && StringField(m, s) == StringField(m, [s[0]])
  {
    assert s[..1] == [s[0]][..1];
  }

  ghost function Flagged(m: Machine): Machine {
    if m.field == TxData && m.pos == 0 then m.(tx := m.tx.(isContractCall := IsContractCall(m.length))) else m
  }

  /** Inside a string field every block goes to the same processor. */
  lemma InsideField(m: Machine, s: bytes, typed: bool)
    requires Waiting(m) && m.processing
    ensures Proxy(m, s, typed) == StringField(Flagged(m), s) && Taken(Flagged(m), s) == Taken(m, s)
    ensures m.pos < m.length && m.field != TxDone && m.field.Admits(m.length)
    ensures var n := Flagged(m);
            n.tx.Sized() && !n.single && !n.isList && n.processing
            && n.pos == m.pos && n.length == m.length && n.field == m.field
  {
  }

  lemma FeedInside(m: Machine, s: bytes, typed: bool)
    requires Waiting(m) && m.processing && s != []
    ensures Proxy(m, [s[0]], typed).1 == Processing && Waiting(Proxy(m, [s[0]], typed).0)
    ensures Feed(m, s, typed) == Feed(Proxy(m, [s[0]], typed).0, s[1..], typed)
  {
    StepKeepsWaiting(m, s[0], typed);
    hide StringField;
  }

  /** Copying a block of the current field is feeding its bytes one by one. */
  lemma {:induction false} BlockIsBytes(m: Machine, s: bytes, typed: bool)
    requires Waiting(m) && m.processing && s != []
    ensures Proxy(m, s, typed).1 == Processing && Waiting(Proxy(m, s, typed).0)
    ensures Feed(m, s, typed) == Feed(Proxy(m, s, typed).0, s[Taken(m, s)..], typed)
    decreases |s|
  {
    InsideField(m, s, typed);
    InsideField(m, [s[0]], typed);
    FeedInside(m, s, typed);
    if |s| > 1 && m.pos + 1 < m.length {
      var m' := Proxy(m, [s[0]], typed).0;
      FieldSplits(Flagged(m), s);
      hide Feed, StringField, Proxy, Waiting, Taken, Flagged, Field.Admits;
      StillInside(m, s[0], typed);
      InsideField(m', s[1..], typed);
      BlockIsBytes(m', s[1..], typed);
      assert s[1..][Taken(m', s[1..])..] == s[Taken(m, s)..];
    } else {
      hide Feed, StringField, Proxy, Waiting, Flagged;
      FirstByteOnly(Flagged(m), s);
    }
  }

  /** Behind the first of several missing bytes the field goes on, and its flag is decided. */
  lemma StillInside(m: Machine, b: uint8, typed: bool)
    requires Waiting(m) && m.processing && m.pos + 1 < m.length
    ensures var m' := Proxy(m, [b], typed).0; m'.processing && Flagged(m') == m'
  {
    hide Splice, Completed, IsContractCall;
  }
}
