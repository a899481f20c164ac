/** What the host and the user must have seen and done before a signature is sent. */
module Approval {
  import opened Words
  import opened Errors
  import opened Rlp
  import opened StreamModel
  import opened Amounts
  import opened Bip44
  import opened World
  import opened Addresses
  import opened Session

  /** A signing request of the host. */
  function Command(p1: uint8, data: bytes): bytes
    requires |data| < 256
  {
    [0xe0, 0x20, p1, 0, |data|] + data
  }

  /** One session: what was logged before it began, the path it was opened for and the chunks it brought. */
  datatype Account = Account(before: seq<Entry>, path: Indexes, chunks: seq<bytes>)

  predicate Accountable(a: Account) {
    |a.path| <= 10 && SignInitPolicy(a.path) != Deny
    && forall i :: 0 <= i < |a.chunks| ==> 0 < |a.chunks[i]| < 256
  }

  lemma WireFits(path: Indexes)
    requires |path| <= BIP32_MAX_PATH_LENGTH
    ensures |Wire(path)| == 1 + 4 * |path| < 256
  {
    LengthOfWords(path);
  }

  /** The opening of a session, up to the prompt. */
  function Asking(path: Indexes): seq<Entry>
    requires |path| <= BIP32_MAX_PATH_LENGTH
  {
    WireFits(path);
    if SignInitPolicy(path) == Warn then Warning(path) + [Confirmed, Asked("Start New", "Transaction?")]
    else [Received(Command(0x00, Wire(path))), Asked("Start New", "Transaction?")]
  }

  function Warning(path: Indexes): seq<Entry>
    requires |path| <= BIP32_MAX_PATH_LENGTH
  {
    WireFits(path);
    [Received(Command(0x00, Wire(path))), Shown("Unusual Request", "Be careful!")]
  }

  function Opening(path: Indexes): seq<Entry>
    requires |path| <= BIP32_MAX_PATH_LENGTH
  {
    Asking(path) + [Confirmed, Replied(SignTx, Success([])), ShownBusy]
  }

  /** The chunks; the reply to the last one tells whether the transaction is complete. */
  function Delivered(chunks: seq<bytes>, complete: bool): seq<Entry>
    requires forall i :: 0 <= i < |chunks| ==> 0 < |chunks[i]| < 256
  {
    if chunks == [] then []
    else
      Delivered(chunks[..|chunks| - 1], false)
      + [Received(Command(0x01, chunks[|chunks| - 1])), Replied(SignTx, Success([if complete then 4 else 2])),
         ShownBusy]
  }

  function Begun(a: Account, complete: bool): seq<Entry>
    requires Accountable(a)
  {
    a.before + Opening(a.path) + Delivered(a.chunks, complete)
  }

  /** The stream after the chunks. */
  function Streamed(a: Account): (Machine, Status) {
    Feed(INITIAL, Flatten(a.chunks), false)
  }

  function TransactionOf(a: Account): Record {
    Streamed(a).0.tx
  }

  function SignatureOf(a: Account, w: World): bytes {
    SignatureBytes(w.sign(a.path, w.keccak(Streamed(a).0.absorbed)))
  }

  // The texts of the review, as they are shown

  function AmountOf(tx: Record): Result<string> {
    AmountShown(NumberOf(tx.value))
  }

  function FeeOf(tx: Record): Result<string> {
    FeeShown(NumberOf(tx.gasPrice), NumberOf(tx.startGas))
  }

  function TextOf(r: Result<string>): string {
    if r.Ok? then r.value else ""
  }

  /** The order of the screens. */
  function Position(step: UiStep): nat {
    match step
    case ShowRecipient => 0
    case ShowSender => 1
    case ShowAmount => 2
    case ShowFee => 3
    case ShowContractCall => 4
    case AskSend => 5
    case SendSignature => 6
    case _ => 7
  }

  /** The review up to the screen that is live while `step` is the next one. */
  function Review(path: Indexes, tx: Record, step: UiStep, w: World): seq<Entry>
    decreases Position(step)
  {
    match step
    case ShowSender => [Received(Command(0x80, [])), Shown("Send To", RecipientText(tx.recipient, w))]
    case ShowAmount =>
      Review(path, tx, ShowSender, w) + [Confirmed, Shown("Send From", AddressText(w.address(path), 20, w))]
    case ShowFee => Review(path, tx, ShowAmount, w) + [Confirmed, Shown("Amount (FTM)", TextOf(AmountOf(tx)))]
    case ShowContractCall => Review(path, tx, ShowFee, w) + [Confirmed, Shown("Max Fee (FTM)", TextOf(FeeOf(tx)))]
    case AskSend =>
      if tx.isContractCall then Review(path, tx, ShowContractCall, w) + [Confirmed, Shown("Smart Contract", "Alert")]
      else Review(path, tx, ShowContractCall, w)
    case SendSignature => Review(path, tx, AskSend, w) + [Confirmed, Asked("Send", "Transaction?")]
    case _ => []
  }

  /** All of it, up to the confirmation of the last prompt and the reply with the signature. */
  function Script(a: Account, w: World): seq<Entry>
    requires Accountable(a)
  {
    Begun(a, true) + Review(a.path, TransactionOf(a), SendSignature, w)
    + [Confirmed, Replied(SignTx, Success(SignatureOf(a, w)))]
  }

  /** The transaction is complete with the last chunk and not before. */
  ghost predicate Arrived(a: Account) {
    Streamed(a).1 == Finished && a.chunks != []
    && Streamed(a.(chunks := a.chunks[..|a.chunks| - 1])).1 == Processing
  }

  /** What was checked on the way. */
  ghost predicate Checked(a: Account) {
    |a.path| <= 9 && Arrived(a) && IsExpectedChain(TransactionOf(a).v)
    && AmountOf(TransactionOf(a)).Ok? && FeeOf(TransactionOf(a)).Ok?
  }

  ghost predicate IsSignature(entry: Entry) {
    entry.Replied? && entry.ins == SignTx && entry.reply.Success? && |entry.reply.data| == 65
  }
}
