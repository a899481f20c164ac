/** The signing session as a state machine: src/get_tx_sign.c, the main loop of src/main.c and the screens of
    src/ui_helpers.c, as functions on the state.

    A step is caused by the host (a request arrives), by the user (the live screen is confirmed or rejected) or by
    the power supply.  `log` records what the host and the user see and do.
 */
module Session {
  import opened Words
  import opened Numerals
  import opened Errors
  import opened Rlp
  import opened StreamModel
  import opened Amounts
  import opened Bip44
  import opened World
  import opened Addresses

  // What is seen from outside

  datatype Reply = Success(data: bytes) | Failure(error: Error)

  datatype Entry =
    | Received(request: bytes)
    | Replied(ins: Instruction, reply: Reply)
    | Shown(header: string, text: string)
    | Asked(header: string, text: string)
    | ShownBusy
    | ShownIdle
    | Confirmed
    | Rejected
    | Restarted

  // The state

  datatype Instruction = NoInstruction | GetVersion | GetKey | GetAddress | SignTx

  datatype Io = ExpectNone | ExpectIo | ExpectUi

  datatype Stage = StageNone | StageInit | StageCollect | StageFinalize | StageDone
  {
    function Code(): uint8 {
      match this
      case StageNone => 0
      case StageInit => 1
      case StageCollect => 2
      case StageFinalize => 4
      case StageDone => 8
    }
  }

  datatype UiStep =
    | NoStep
    | WarnInit
    | AskInit
    | RespondInit
    | InvalidInit
    | ShowSender
    | ShowRecipient
    | ShowAmount
    | ShowFee
    | ShowContractCall
    | AskSend
    | SendSignature
    | InvalidTx

  datatype Callback = NoCallback | RunInitStep | RunTxStep | RunOtherStep | RespondWithReject

  datatype Guard = NoGuard | GuardText | GuardPrompt

  /** `displayState`; `fired` is the state of the callback pair. */
  datatype Display = Display(guard: Guard, header: string, text: string, fired: bool, confirm: Callback,
                             reject: Callback)

  const CLEARED_DISPLAY := Display(NoGuard, "", "", false, NoCallback, NoCallback)

  /** Which flow the screen runs; only the text and the prompt react to the buttons. */
  datatype Flow = FlowIdle | FlowBusy | FlowText | FlowPrompt

  /** `ins_sign_tx_context_t`; the stream is there once it was initialised, and holds the transaction. */
  datatype Context = Context(stage: Stage, responseReady: nat, uiStep: UiStep, path: Indexes, stream: Option<Machine>,
                             sender: Address, senderLength: uint8, sigV: uint8, sigR: Hash, sigS: Hash)

  const CLEARED_CONTEXT := Context(StageNone, 0, NoStep, [], None, Zeros(20), 0, 0, Zeros(32), Zeros(32))

  const RESPONSE_READY_TAG: nat := 11711
  const EXPECTED_CHAIN_ID: nat := 250

  datatype State = State(io: Io, ins: Instruction, ctx: Context, flow: Flow, display: Display, log: seq<Entry>)

  const BOOT := State(ExpectIo, NoInstruction, CLEARED_CONTEXT, FlowIdle, CLEARED_DISPLAY, [])

  /** How a handler leaves the device: the state, and whether it returned, threw or reset the device. */
  type Outcome = (State, Result<()>)

  function Logged(st: State, entry: Entry): State {
    st.(log := st.log + [entry])
  }

  // src/io.c and src/menu.c

  /** `io_send_buf`: after a reply the next request is expected. */
  function Send(st: State, reply: Reply): State {
    Logged(st, Replied(st.ins, reply)).(io := ExpectIo)
  }

  /** `ui_idle`: no instruction is being processed any more. */
  function GoIdle(st: State): State {
    Logged(st, ShownIdle).(ins := NoInstruction, flow := FlowIdle)
  }

  // src/ui_helpers.c

  /** `ui_displayPaginatedText`. */
  function DisplayText(st: State, header: string, text: string, confirm: Callback): Outcome {
    if |header| >= 30 || |text| >= 200 then (st, Reset)
    else
      var st := st.(display := Display(GuardText, header, text, false, confirm, NoCallback));
      if st.io == ExpectIo then (st, Reset)
      else (Logged(st, Shown(header, text)).(io := ExpectUi, flow := FlowText), Ok(()))
  }

  /** `ui_displayPrompt`. */
  function DisplayPrompt(st: State, header: string, text: string, confirm: Callback, reject: Callback): Outcome {
    if |header| >= 30 || |text| >= 30 then (st, Reset)
    else
      var st := st.(display := Display(GuardPrompt, header, text, false, confirm, reject));
      if st.io == ExpectIo then (st, Reset)
      else (Logged(st, Asked(header, text)).(io := ExpectUi, flow := FlowPrompt), Ok(()))
  }

  /** `ui_displayBusy`. */
  function DisplayBusy(st: State): Outcome {
    var st := st.(display := CLEARED_DISPLAY);
    if st.io == ExpectUi then (st, Reset) else (Logged(st, ShownBusy).(flow := FlowBusy), Ok(()))
  }

  /** `ui_respondWithUserReject`. */
  function RespondReject(st: State): State {
    GoIdle(Send(st, Failure(ErrRejectedByUser)))
  }

  // src/get_tx_sign.c

  function WithUiStep(o: Outcome, uiStep: UiStep): Outcome {
    if o.1.Ok? then (o.0.(ctx := o.0.ctx.(uiStep := uiStep)), o.1) else o
  }

  /** `runSignTransactionInitUIStep`. */
  function InitUiStep(st: State): Outcome {
    if st.ctx.stage != StageInit then (st, Throws(ErrInvalidState))
    else
      match st.ctx.uiStep
      case WarnInit => WithUiStep(DisplayText(st, "Unusual Request", "Be careful!", RunInitStep), AskInit)
      case AskInit =>
        WithUiStep(DisplayPrompt(st, "Start New", "Transaction?", RunInitStep, RespondWithReject), RespondInit)
      case RespondInit =>
        var busy := DisplayBusy(Send(st, Success([])));
        if busy.1.Ok? then (busy.0.(ctx := busy.0.ctx.(stage := StageCollect, uiStep := InvalidInit)), busy.1) else busy
      case _ => (st, Reset)
  }

  /** The stage is set, the response is not ready and the stream is initialised. */
  function Prepared(st: State): State {
    st.(ctx := st.ctx.(stage := StageInit, responseReady := 0, stream := Some(INITIAL)))
  }

  /** The policy for the path decides about the first screen. */
  function ByPolicy(st: State): Outcome {
    match SignInitPolicy(st.ctx.path)
    case Deny => (st, Throws(ErrRejectedByPolicy))
    case Warn => InitUiStep(st.(ctx := st.ctx.(uiStep := WarnInit)))
    case Prompt => InitUiStep(st.(ctx := st.ctx.(uiStep := AskInit)))
  }

  /** The path on the wire must take up the whole request. */
  function OpenSession(st: State, data: bytes): Outcome {
    var st := Prepared(st);
    var parsed := Parsed(data);
    if !parsed.Ok? then (st, Throws(ErrInvalidData))
    else
      var st := st.(ctx := st.ctx.(path := parsed.value.0));
      if parsed.value.1 != |data| then (st, Throws(ErrInvalidData)) else ByPolicy(st)
  }

  /** `handleSignTxInit`. */
  function SignInit(st: State, p2: uint8, data: bytes): Outcome {
    if st.ctx.stage != StageNone then (st, Throws(ErrInvalidState))
    else if p2 != 0 then (st, Throws(ErrInvalidParameters))
    else OpenSession(st, data)
  }

  /** The reply to a chunk tells the stage; the device is still busy. */
  function Acknowledge(st: State): Outcome {
    DisplayBusy(Send(st, Success([st.ctx.stage.Code()])))
  }

  /** `handleSignTxCollect`. */
  function SignCollect(st: State, p2: uint8, data: bytes): Outcome {
    if st.ctx.stage != StageCollect || st.ctx.stream.None? then (st, Throws(ErrInvalidState))
    else if p2 != 0 then (st, Throws(ErrInvalidParameters))
    else if data == [] then (st, Throws(ErrInvalidData))
    else
      var (m, status) := ProcessChunk(st.ctx.stream.value, data, false);
      var st := st.(ctx := st.ctx.(stream := Some(m)));
      if status == Fault then (st, Throws(ErrInvalidData))
      else
        Acknowledge(if status == Finished then st.(ctx := st.ctx.(stage := StageFinalize)) else st)
  }

  /** The number in a kept field, as far as its length says. */
  function NumberOf(store: Store): nat {
    if store.length <= |store.value| then Eval(256, store.value[..store.length]) else 0
  }

  /** The V field must hold the chain id in at most four bytes. */
  predicate IsExpectedChain(v: Store) {
    v.length <= 4 && NumberOf(v) == EXPECTED_CHAIN_ID
  }

  /** `txGetSignature`, once the key is derived: the sender of the path and the signature, written over what the
      fields held. */
  function WithSignature(ctx: Context, e: Ecdsa, w: World): Context {
    ctx.(sender := w.address(ctx.path), senderLength := 20,
         sigV := ParityOf(e), sigR := Overwritten(ctx.sigR, e.r), sigS := Overwritten(ctx.sigS, e.s))
  }

  /** The hash of everything the stream absorbed is signed, and the first screen is next. */
  function WithHashSigned(st: State, w: World): State
    requires st.ctx.stream.Some?
  {
    var e := w.sign(st.ctx.path, w.keccak(st.ctx.stream.value.absorbed));
    st.(ctx := WithSignature(st.ctx, e, w).(responseReady := RESPONSE_READY_TAG, uiStep := ShowRecipient))
  }

  /** Only transactions for the expected chain are signed, under a path whose key can be derived; the signature
      waits for the review. */
  function SignAndReview(st: State, w: World): Outcome
    requires st.ctx.stream.Some?
  {
    var st, key := st.(io := ExpectUi), KeyDerivation(st.ctx.path);
    if !IsExpectedChain(st.ctx.stream.value.tx.v) then (st, Throws(ErrInvalidData))
    else if key != Ok(()) then (st, key)
    else TxUiStep(WithHashSigned(st, w), w)
  }

  /** `handleSignTxFinalize`. */
  function SignFinalize(st: State, p2: uint8, data: bytes, w: World): Outcome {
    if st.ctx.stage != StageFinalize || st.ctx.stream.None? then (st, Throws(ErrInvalidState))
    else if p2 != 0 then (st, Throws(ErrInvalidParameters))
    else if data != [] then (st, Throws(ErrInvalidData))
    else SignAndReview(st, w)
  }

  function RecipientText(recipient: Store, w: World): string {
    if 0 < recipient.length <= 20 && |recipient.value| == 20 then
      AddressText(recipient.value, recipient.length, w)
    else "New Contract"
  }

  /** A text that may be refused, and the screen that shows it. */
  function DisplayResult(st: State, header: string, text: Result<string>): Outcome {
    match text
    case Ok(s) => DisplayText(st, header, s, RunTxStep)
    case Throws(e) => (st, Throws(e))
    case Reset => (st, Reset)
  }

  /** `runSignTransactionUIStep`. */
  function TxUiStep(st: State, w: World): Outcome {
    if st.ctx.stage != StageFinalize || st.ctx.stream.None? then (st, Throws(ErrInvalidState))
    else
      var tx := st.ctx.stream.value.tx;
      match st.ctx.uiStep
      case ShowRecipient =>
        if tx.recipient.length > 20 then (st, Reset)
        else WithUiStep(DisplayText(st, "Send To", RecipientText(tx.recipient, w), RunTxStep), ShowSender)
      case ShowSender =>
        if !(0 < st.ctx.senderLength <= 20) then (st, Reset)
        else
          WithUiStep(DisplayText(st, "Send From", AddressText(st.ctx.sender, st.ctx.senderLength, w), RunTxStep),
                     ShowAmount)
      case ShowAmount =>
        if tx.value.length > 32 then (st, Reset)
        else WithUiStep(DisplayResult(st, "Amount (FTM)", AmountShown(NumberOf(tx.value))), ShowFee)
      case ShowFee =>
        if tx.gasPrice.length > 32 || tx.startGas.length > 32 then (st, Reset)
        else
          WithUiStep(DisplayResult(st, "Max Fee (FTM)", FeeShown(NumberOf(tx.gasPrice), NumberOf(tx.startGas))),
                     if tx.isContractCall then ShowContractCall else AskSend)
      case ShowContractCall => WithUiStep(DisplayText(st, "Smart Contract", "Alert", RunTxStep), AskSend)
      case AskSend =>
        WithUiStep(DisplayPrompt(st, "Send", "Transaction?", RunTxStep, RespondWithReject), SendSignature)
      case SendSignature =>
        if st.ctx.responseReady != RESPONSE_READY_TAG then (st, Throws(ErrInvalidData))
        else
          var done := st.(ctx := st.ctx.(stage := StageDone));
          WithUiStep((GoIdle(Send(done, Success([st.ctx.sigV] + st.ctx.sigR + st.ctx.sigS))), Ok(())), InvalidTx)
      case _ => (st, Reset)
  }

  /** `handleSignTransaction`. */
  function SignTransaction(st: State, p1: uint8, p2: uint8, data: bytes, isOnInit: bool, w: World): Outcome {
    SignByParameter(if isOnInit then st.(ctx := CLEARED_CONTEXT) else st, p1, p2, data, w)
  }

  function SignByParameter(st: State, p1: uint8, p2: uint8, data: bytes, w: World): Outcome {
    if p1 == 0x00 then SignInit(st, p2, data)
    else if p1 == 0x01 then SignCollect(st, p2, data)
    else if p1 == 0x80 then SignFinalize(st, p2, data, w)
    else (st, Throws(ErrInvalidParameters))
  }

  // The other instructions, as far as the main loop and the screens know them

  /** What another instruction may do next: reply and end, show a screen of its own, throw or reset the device. */
  datatype OtherStep =
    | OtherReplies(data: bytes)
    | OtherShows(header: string, text: string)
    | OtherAsks(header: string, text: string)
    | OtherThrows(error: Error)
    | OtherResets

  function RunOther(st: State, step: OtherStep): Outcome {
    match step
    case OtherReplies(data) => (GoIdle(Send(st, Success(data))), Ok(()))
    case OtherShows(header, text) => DisplayText(st, header, text, RunOtherStep)
    case OtherAsks(header, text) => DisplayPrompt(st, header, text, RunOtherStep, RespondWithReject)
    case OtherThrows(error) => (st, Throws(error))
    case OtherResets => (st, Reset)
  }

  // src/main.c

  /** `getHandler`. */
  function InstructionOf(ins: uint8): Instruction {
    if ins == 0x01 then GetVersion
    else if ins == 0x10 then GetKey
    else if ins == 0x11 then GetAddress
    else if ins == 0x20 then SignTx
    else NoInstruction
  }

  const CLA: uint8 := 0xe0

  /** What is wrong with a request before its handler sees it. */
  function HeaderError(unlocked: bool, request: bytes): Option<Error> {
    if !unlocked then Some(ErrDeviceLocked)
    else if |request| < 5 || |request| != request[4] as nat + 5 then Some(ErrBadRequestHeader)
    else if request[0] != CLA then Some(ErrUnknownCla)
    else if InstructionOf(request[1]) == NoInstruction then Some(ErrUnknownIns)
    else None
  }

  /** The request is checked and passed to its handler. */
  function Dispatch(st: State, unlocked: bool, request: bytes, other: OtherStep, w: World): Outcome {
    if st.io != ExpectIo then (st, Throws(ErrInvalidState))
    else Accept(st.(io := ExpectNone), unlocked, request, other, w)
  }

  function Accept(st: State, unlocked: bool, request: bytes, other: OtherStep, w: World): Outcome {
    var error := HeaderError(unlocked, request);
    if request == [] then (st, Reset)
    else if error.Some? then (st, Throws(error.value))
    else Handle(st, InstructionOf(request[1]), request[2], request[3], request[5..], other, w)
  }

  /** A new instruction starts from a cleared context; a running one must be continued. */
  function Handle(st: State, ins: Instruction, p1: uint8, p2: uint8, data: bytes, other: OtherStep, w: World): Outcome {
    if st.ins == NoInstruction then
      HandlerFor(st.(ctx := CLEARED_CONTEXT, ins := ins), ins, p1, p2, data, true, other, w)
    else if ins != st.ins then (st, Throws(ErrInvalidState))
    else HandlerFor(st, ins, p1, p2, data, false, other, w)
  }

  function HandlerFor(st: State, ins: Instruction, p1: uint8, p2: uint8, data: bytes, isNew: bool, other: OtherStep,
                      w: World): Outcome
  {
    if ins == SignTx then SignTransaction(st, p1, p2, data, isNew, w) else RunOther(st, other)
  }

  /** A reset ends in the boot code, which goes idle and expects a request. */
  function Restart(st: State): State {
    Logged(st, Restarted).(io := ExpectIo, ins := NoInstruction, flow := FlowIdle)
  }

  /** The handlers of the main loop: an error is passed to the host and the device goes idle, a failed assertion
      resets it. */
  function Caught(o: Outcome): State {
    match o.1
    case Ok(_) => o.0
    case Throws(e) => if e == ErrAssert then Restart(o.0) else GoIdle(Send(o.0, Failure(e)))
    case Reset => Restart(o.0)
  }

  // What happens to the device

  datatype Event =
    | Request(unlocked: bool, request: bytes, other: OtherStep)
    | Confirm(other: OtherStep)
    | Reject
    | PowerLoss

  function RunCallback(st: State, callback: Callback, other: OtherStep, w: World): Outcome {
    match callback
    case NoCallback => (st, Ok(()))
    case RunInitStep => InitUiStep(st)
    case RunTxStep => TxUiStep(st, w)
    case RunOtherStep => RunOther(st, other)
    case RespondWithReject => (RespondReject(st), Ok(()))
  }

  /** A button on the live screen fires its callback, at most once; an exception on the screen resets the device. */
  function Button(st: State, callback: Callback, entry: Entry, guard: Guard, other: OtherStep, w: World): State {
    if st.display.guard != guard then Restart(st)
    else if callback == NoCallback || st.display.fired then st
    else
      var o := RunCallback(Logged(st, entry).(display := st.display.(fired := true)), callback, other, w);
      if o.1.Ok? then o.0 else Restart(o.0)
  }

  function React(st: State, event: Event, w: World): State {
    match event
    case Request(unlocked, request, other) =>
      Caught(Dispatch(Logged(st, Received(request)), unlocked, request, other, w))
    case Confirm(other) =>
      if st.flow == FlowText then Button(st, st.display.confirm, Confirmed, GuardText, other, w)
      else if st.flow == FlowPrompt then Button(st, st.display.confirm, Confirmed, GuardPrompt, other, w)
      else st
    case Reject =>
      if st.flow == FlowPrompt then Button(st, st.display.reject, Rejected, GuardPrompt, OtherResets, w) else st
    case PowerLoss => Restart(st)
  }

  function Run(st: State, events: seq<Event>, w: World): State {
    if events == [] then st else React(Run(st, events[..|events| - 1], w), events[|events| - 1], w)
  }
}
