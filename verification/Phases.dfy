/** What a signing session can be doing, and that every handler keeps to it. */
module Phases {
  import opened Numerals
  import opened Errors
  import opened Rlp
  import opened StreamModel
  import opened Amounts
  import opened Bip44
  import opened World
  import opened Addresses
  import opened Session
  import opened UiSteps
  import opened Approval

  // The invariant

  /** Nothing is being processed and no screen reacts. */
  ghost predicate Quiet(st: State) {
    st.ins == NoInstruction && st.io == ExpectIo && st.flow == FlowIdle
  }

  /** A screen of the running instruction is live: the user is expected, and its callbacks have not fired. */
  ghost predicate Live(st: State, confirm: Callback) {
    st.io == ExpectUi && !st.display.fired && st.display.confirm == confirm
    && ((st.flow == FlowText && st.display.guard == GuardText && st.display.reject == NoCallback)
        || (st.flow == FlowPrompt && st.display.guard == GuardPrompt && st.display.reject == RespondWithReject))
  }

  /** The signature fields are as they were cleared, so that a short number is padded with zeros. */
  ghost predicate Unsigned(ctx: Context) {
    ctx.sigR == Zeros(32) && ctx.sigS == Zeros(32)
  }

  ghost predicate BeingOpened(st: State, a: Account)
    requires Accountable(a)
  {
    st.ctx.stage == StageInit && Unsigned(st.ctx) && st.ctx.stream == Some(INITIAL) && a.chunks == []
    && Live(st, RunInitStep)
    && if st.ctx.uiStep == AskInit then
      st.flow == FlowText && SignInitPolicy(a.path) == Warn && st.log == a.before + Warning(a.path)
    else
      st.flow == FlowPrompt && st.ctx.uiStep == RespondInit && st.log == a.before + Asking(a.path)
  }

  ghost predicate Collecting(st: State, a: Account)
    requires Accountable(a)
  {
    st.ctx.stage == StageCollect && Unsigned(st.ctx) && st.io == ExpectIo && st.flow == FlowBusy
    && Streamed(a).1 == Processing && st.ctx.stream == Some(Streamed(a).0) && st.log == Begun(a, false)
  }

  ghost predicate Collected(st: State, a: Account)
    requires Accountable(a)
  {
    st.ctx.stage == StageFinalize && Unsigned(st.ctx) && st.io == ExpectIo && st.flow == FlowBusy
    && Arrived(a) && st.ctx.stream == Some(Streamed(a).0) && st.log == Begun(a, true)
  }

  ghost predicate Reviewing(st: State, a: Account, w: World)
    requires Accountable(a)
  {
    var tx := TransactionOf(a);
    st.ctx.stage == StageFinalize && Live(st, RunTxStep) && 1 <= Position(st.ctx.uiStep) <= 6
    && (st.flow == FlowPrompt <==> st.ctx.uiStep == SendSignature)
    && |a.path| <= 9 && Arrived(a) && st.ctx.stream == Some(Streamed(a).0)
    && IsExpectedChain(tx.v)
    && st.ctx.responseReady == RESPONSE_READY_TAG && [st.ctx.sigV] + st.ctx.sigR + st.ctx.sigS == SignatureOf(a, w)
    && st.ctx.sender == w.address(a.path) && st.ctx.senderLength == 20
    && (st.ctx.uiStep == ShowContractCall ==> tx.isContractCall)
    && (Position(st.ctx.uiStep) >= 3 ==> AmountOf(tx).Ok?)
    && (Position(st.ctx.uiStep) >= 4 ==> FeeOf(tx).Ok?)
    && st.log == Begun(a, true) + Review(a.path, tx, st.ctx.uiStep, w)
  }

  /** What a signing session can be doing, and that the log tells it. */
  ghost predicate Told(st: State, a: Account, w: World) {
    Accountable(a) && st.ctx.path == a.path
    && (BeingOpened(st, a) || Collecting(st, a) || Collected(st, a) || Reviewing(st, a, w))
  }

  ghost predicate Inv(st: State, a: Account, w: World) {
    match st.ins
    case NoInstruction => Quiet(st)
    case SignTx => Told(st, a, w)
    case _ => Live(st, RunOtherStep)
  }

  /** The live screen has been confirmed. */
  ghost function Fired(st: State): State {
    Logged(st, Confirmed).(display := st.display.(fired := true))
  }

  /** The result of confirming a screen. */
  ghost predicate Continues(st: State, a: Account, w: World, o: Outcome)
    requires Accountable(a)
  {
    !o.1.Ok? || (Reviewing(o.0, a, w) && o.0.ins == SignTx && o.0.ctx.path == st.ctx.path)
  }

  /** The log has grown by the last confirmation and the signature, and is now the script of the session. */
  ghost predicate Signed(l: seq<Entry>, l': seq<Entry>, a: Account, w: World) {
    Accountable(a) && Checked(a) && Script(a, w) == l + [Confirmed, Replied(SignTx, Success(SignatureOf(a, w)))]
    && l' == Script(a, w) + [ShownIdle]
  }

  // The opening

  lemma WarningConfirmed(st: State, a: Account, w: World)
    requires Accountable(a) && BeingOpened(st, a) && st.ctx.uiStep == AskInit
    ensures var o := InitUiStep(Fired(st));
            o.1.Ok? && BeingOpened(o.0, a) && o.0.ins == st.ins && o.0.ctx.path == st.ctx.path
  {
    hide Wire, SignInitPolicy;
    WireFits(a.path);
    LogTail(a.before, Warning(a.path), [Confirmed], [Asked("Start New", "Transaction?")]);
  }

  /** Appending to a log in several steps. */
  lemma LogTail(l: seq<Entry>, x: seq<Entry>, y: seq<Entry>, z: seq<Entry>)
    ensures l + x + y + z == l + (x + (y + z)) && x + (y + z) == x + y + z
  {
  }

  lemma PromptConfirmed(st: State, a: Account)
    requires Accountable(a) && BeingOpened(st, a) && st.ctx.uiStep == RespondInit && st.ins == SignTx
    ensures var o := InitUiStep(Fired(st));
            o.1.Ok? && Collecting(o.0, a) && o.0.ins == st.ins && o.0.ctx.path == st.ctx.path
  {
    hide Wire, SignInitPolicy, Asking;
    NothingStreamed(a);
    var tail := [Confirmed, Replied(SignTx, Success([])), ShownBusy];
    assert a.before + Asking(a.path) + [Confirmed] + [Replied(SignTx, Success([]))] + [ShownBusy]
        == a.before + (Asking(a.path) + tail) + [];
  }

  lemma NothingStreamed(a: Account)
    requires a.chunks == []
    ensures Streamed(a) == (INITIAL, Processing)
  {
  }

  lemma CommandIs(request: bytes)
    requires |request| >= 5 && |request| == request[4] as nat + 5
    requires request[0] == CLA && request[1] == 0x20 && request[3] == 0
    ensures request == Command(request[2], request[5..])
  {
  }

  lemma SessionOpens(st: State, data: bytes, before: seq<Entry>)
    requires st.io == ExpectNone && st.ctx == CLEARED_CONTEXT && |data| < 256
    requires st.log == before + [Received(Command(0x00, data))] && st.ins == SignTx
    ensures var o := SignInit(st, 0, data);
            !o.1.Ok? ||
            (var a := Account(before, o.0.ctx.path, []); Accountable(a) && BeingOpened(o.0, a) && o.0.ins == st.ins)
  {
    hide Wire, IndexesAt;
    var parsed := Parsed(data);
    if parsed.Ok? && parsed.value.1 == |data| {
      var path := parsed.value.0;
      PathIsWire(data);
      WireFits(path);
      assert before + [Received(Command(0x00, data))] + [Shown("Unusual Request", "Be careful!")]
          == before + Warning(path);
      assert before + [Received(Command(0x00, data))] + [Asked("Start New", "Transaction?")]
          == before + [Received(Command(0x00, Wire(path))), Asked("Start New", "Transaction?")];
    }
  }

  lemma PathIsWire(data: bytes)
    requires Parsed(data).Ok? && Parsed(data).value.1 == |data|
    ensures |Parsed(data).value.0| <= BIP32_MAX_PATH_LENGTH && Wire(Parsed(data).value.0) == data
  {
    var path := Parsed(data).value.0;
    IndexCount(data, data[0]);
    ParseInvertsWire(path, data);
    WireFits(path);
  }

  // The chunks

  lemma {:induction false} FlattenSnoc(chunks: seq<bytes>, chunk: bytes)
    ensures Flatten(chunks + [chunk]) == Flatten(chunks) + chunk
  {
    if chunks == [] {
      assert [chunk][1..] == [] && [] + [chunk] == [chunk];
    } else {
      assert (chunks + [chunk])[0] == chunks[0] && (chunks + [chunk])[1..] == chunks[1..] + [chunk];
      FlattenSnoc(chunks[1..], chunk);
      assert chunks[0] + (Flatten(chunks[1..]) + chunk) == (chunks[0] + Flatten(chunks[1..])) + chunk;
    }
  }

  /** One more chunk is as if it had been part of the input from the beginning. */
  lemma StreamedOneMore(a: Account, chunk: bytes)
    requires Streamed(a).1 == Processing && chunk != []
    ensures Streamed(a.(chunks := a.chunks + [chunk])) == ProcessChunk(Streamed(a).0, chunk, false)
  {
    FlattenSnoc(a.chunks, chunk);
    FeedConcat(INITIAL, Flatten(a.chunks), chunk, false);
    FeedKeepsWaiting(INITIAL, Flatten(a.chunks), false);
    hide Feed, Flatten;
  }

  lemma OneMoreDelivered(a: Account, chunk: bytes, complete: bool, log: seq<Entry>)
    requires Accountable(a) && 0 < |chunk| < 256 && log == Begun(a, false)
    ensures var a' := a.(chunks := a.chunks + [chunk]);
            var code := if complete then 4 else 2;
            Accountable(a')
            && Begun(a', complete)
               == log + [Received(Command(0x01, chunk))] + [Replied(SignTx, Success([code]))] + [ShownBusy]
  {
    hide Opening, SignInitPolicy;
    var a' := a.(chunks := a.chunks + [chunk]);
    assert a'.chunks[..|a.chunks|] == a.chunks;
    LogTail(a.before + Opening(a.path) + Delivered(a.chunks, false), [Received(Command(0x01, chunk))],
            [Replied(SignTx, Success([if complete then 4 else 2]))], [ShownBusy]);
  }

  lemma ChunkCollected(st: State, a: Account, data: bytes)
    requires Accountable(a) && st.ctx.stage == StageCollect && st.io == ExpectNone && st.ins == SignTx && |data| < 256
    requires Streamed(a).1 == Processing && st.ctx.stream == Some(Streamed(a).0) && Unsigned(st.ctx)
    requires st.log == Begun(a, false) + [Received(Command(0x01, data))]
    ensures var o := SignCollect(st, 0, data);
            !o.1.Ok? ||
            (var a' := a.(chunks := a.chunks + [data]);
             Accountable(a') && (Collecting(o.0, a') || Collected(o.0, a')) && o.0.ins == SignTx
             && o.0.ctx.path == st.ctx.path)
  {
    hide ProcessChunk, Streamed, Begun, Command;
    if data != [] {
      StreamedOneMore(a, data);
      OneMoreDelivered(a, data, false, Begun(a, false));
      OneMoreDelivered(a, data, true, Begun(a, false));
    }
  }

  // The review

  lemma SignatureComputed(st: State, a: Account, w: World)
    requires Accountable(a) && st.ctx.stage == StageFinalize && st.ins == SignTx && st.ctx.path == a.path
    requires Arrived(a) && st.ctx.stream == Some(Streamed(a).0)
    requires st.log == Begun(a, true) + [Received(Command(0x80, []))] && Unsigned(st.ctx)
    ensures var o := SignFinalize(st, 0, [], w);
            !o.1.Ok? || (Reviewing(o.0, a, w) && o.0.ins == SignTx && o.0.ctx.path == st.ctx.path)
  {
    hide Streamed, Begun, Command, IsExpectedChain, RecipientText, Bytes32, Overwritten, AmountOf, FeeOf;
    var e := w.sign(a.path, w.keccak(Streamed(a).0.absorbed));
    OverwrittenCleared(e.r);
    OverwrittenCleared(e.s);
    LogTail(Begun(a, true), [Received(Command(0x80, []))],
            [Shown("Send To", RecipientText(TransactionOf(a).recipient, w))], []);
  }

  lemma NextScreen(st: State, a: Account, w: World, header: string, text: string, next: UiStep)
    requires Accountable(a) && Reviewing(st, a, w) && 2 <= Position(next) <= 5 && st.ins == SignTx
    requires var tx := TransactionOf(a);
             Review(a.path, tx, next, w) == Review(a.path, tx, st.ctx.uiStep, w) + [Confirmed, Shown(header, text)]
             && (next == ShowContractCall ==> tx.isContractCall)
             && (Position(next) >= 3 ==> AmountOf(tx).Ok?) && (Position(next) >= 4 ==> FeeOf(tx).Ok?)
    ensures Continues(st, a, w, WithUiStep(DisplayText(Fired(st), header, text, RunTxStep), next))
  {
    hide Streamed, Begun, Review, IsExpectedChain, SignatureOf, AmountOf, FeeOf;
    LogTail(Begun(a, true) + Review(a.path, TransactionOf(a), st.ctx.uiStep, w),
            [Confirmed], [Shown(header, text)], []);
  }

  lemma LastScreen(st: State, a: Account, w: World)
    requires Accountable(a) && Reviewing(st, a, w) && st.ctx.uiStep == AskSend && st.ins == SignTx
    ensures var o := WithUiStep(DisplayPrompt(Fired(st), "Send", "Transaction?", RunTxStep, RespondWithReject),
                                SendSignature);
            o.1.Ok? && Continues(st, a, w, o)
  {
    ReviewEnds(a.path, TransactionOf(a), w);
    hide Streamed, Begun, Review, IsExpectedChain, SignatureOf, AmountOf, FeeOf;
    LogTail(Begun(a, true) + Review(a.path, TransactionOf(a), AskSend, w),
            [Confirmed], [Asked("Send", "Transaction?")], []);
  }

  lemma ReviewEnds(path: Indexes, tx: Record, w: World)
    ensures Review(path, tx, SendSignature, w)
            == Review(path, tx, AskSend, w) + [Confirmed, Asked("Send", "Transaction?")]
  {
  }

  lemma ReviewKnows(st: State, a: Account, w: World)
    requires Accountable(a) && Reviewing(st, a, w)
    ensures Fired(st).ctx == st.ctx && st.ctx.stage == StageFinalize && st.ctx.stream.Some?
            && st.ctx.stream.value.tx == TransactionOf(a)
            && st.ctx.sender == w.address(a.path) && st.ctx.senderLength == 20
            && (Position(st.ctx.uiStep) >= 3 ==> AmountOf(TransactionOf(a)).Ok?)
            && (Position(st.ctx.uiStep) >= 4 ==> FeeOf(TransactionOf(a)).Ok?)
            && (st.ctx.uiStep == ShowContractCall ==> TransactionOf(a).isContractCall)
  {
    hide Streamed, Begun, Review, IsExpectedChain, SignatureOf, AmountOf, FeeOf;
  }

  lemma ReviewGrows(path: Indexes, tx: Record, step: UiStep, w: World)
    ensures step == ShowSender ==>
              Review(path, tx, ShowAmount, w)
              == Review(path, tx, ShowSender, w) + [Confirmed, Shown("Send From", AddressText(w.address(path), 20, w))]
    ensures step == ShowAmount ==>
              Review(path, tx, ShowFee, w)
              == Review(path, tx, ShowAmount, w) + [Confirmed, Shown("Amount (FTM)", TextOf(AmountOf(tx)))]
    ensures step == ShowFee ==>
              Review(path, tx, if tx.isContractCall then ShowContractCall else AskSend, w)
              == Review(path, tx, ShowFee, w) + [Confirmed, Shown("Max Fee (FTM)", TextOf(FeeOf(tx)))]
    ensures step == ShowContractCall && tx.isContractCall ==>
              Review(path, tx, AskSend, w)
              == Review(path, tx, ShowContractCall, w) + [Confirmed, Shown("Smart Contract", "Alert")]
  {
    hide AddressText, AmountOf, FeeOf, RecipientText;
  }

  lemma Stopped(st: State, a: Account, w: World, o: Outcome)
    requires Accountable(a) && !o.1.Ok?
    ensures Continues(st, a, w, o)
  {
  }

  lemma RecipientConfirmed(st: State, a: Account, w: World)
    requires Accountable(a) && Reviewing(st, a, w) && st.ctx.uiStep == ShowSender && st.ins == SignTx
    ensures Continues(st, a, w, TxUiStep(Fired(st), w))
  {
    hide Reviewing, Streamed, TransactionOf, AmountOf, FeeOf, Review, AddressText, TxUiStep, DisplayText, DisplayPrompt,
         WithUiStep, TextOf, Begun, Continues, Fired;
    ReviewKnows(st, a, w);
    ReviewGrows(a.path, TransactionOf(a), st.ctx.uiStep, w);
    SenderStep(Fired(st), w);
    NextScreen(st, a, w, "Send From", AddressText(w.address(a.path), 20, w), ShowAmount);
  }

  lemma AmountPassed(st: State, w: World)
    requires InReview(st, ShowAmount) && TxUiStep(st, w).1.Ok?
    ensures var shown := AmountOf(st.ctx.stream.value.tx);
            shown.Ok?
            && TxUiStep(st, w) == WithUiStep(DisplayText(st, "Amount (FTM)", TextOf(shown), RunTxStep), ShowFee)
  {
    AmountStep(st, w);
    hide TxUiStep, AmountShown, NumberOf, DisplayText;
  }

  lemma FeePassed(st: State, w: World)
    requires InReview(st, ShowFee) && TxUiStep(st, w).1.Ok?
    ensures var tx := st.ctx.stream.value.tx;
            FeeOf(tx).Ok?
            && TxUiStep(st, w) == WithUiStep(DisplayText(st, "Max Fee (FTM)", TextOf(FeeOf(tx)), RunTxStep),
                                             if tx.isContractCall then ShowContractCall else AskSend)
  {
    FeeStep(st, w);
    hide TxUiStep, FeeShown, NumberOf, DisplayText;
  }

  lemma SenderConfirmed(st: State, a: Account, w: World)
    requires Accountable(a) && Reviewing(st, a, w) && st.ctx.uiStep == ShowAmount && st.ins == SignTx
    ensures Continues(st, a, w, TxUiStep(Fired(st), w))
  {
    hide Reviewing, Streamed, TransactionOf, AmountOf, FeeOf, Review, AddressText, TxUiStep, DisplayText, DisplayPrompt,
         WithUiStep, TextOf, Begun, Continues, Fired;
    ReviewKnows(st, a, w);
    var o, tx := TxUiStep(Fired(st), w), TransactionOf(a);
    if o.1.Ok? {
      ReviewGrows(a.path, tx, st.ctx.uiStep, w);
      AmountPassed(Fired(st), w);
      NextScreen(st, a, w, "Amount (FTM)", TextOf(AmountOf(tx)), ShowFee);
    } else {
      Stopped(st, a, w, o);
    }
  }

  lemma AmountConfirmed(st: State, a: Account, w: World)
    requires Accountable(a) && Reviewing(st, a, w) && st.ctx.uiStep == ShowFee && st.ins == SignTx
    ensures Continues(st, a, w, TxUiStep(Fired(st), w))
  {
    hide Reviewing, Streamed, TransactionOf, AmountOf, FeeOf, Review, AddressText, TxUiStep, DisplayText, DisplayPrompt,
         WithUiStep, TextOf, Begun, Continues, Fired;
    ReviewKnows(st, a, w);
    var o, tx := TxUiStep(Fired(st), w), TransactionOf(a);
    if o.1.Ok? {
      ReviewGrows(a.path, tx, st.ctx.uiStep, w);
      FeePassed(Fired(st), w);
      NextScreen(st, a, w, "Max Fee (FTM)", TextOf(FeeOf(tx)), if tx.isContractCall then ShowContractCall else AskSend);
    } else {
      Stopped(st, a, w, o);
    }
  }

  lemma AlertConfirmed(st: State, a: Account, w: World)
    requires Accountable(a) && Reviewing(st, a, w) && st.ctx.uiStep == ShowContractCall && st.ins == SignTx
    ensures Continues(st, a, w, TxUiStep(Fired(st), w))
  {
    hide Reviewing, Streamed, TransactionOf, AmountOf, FeeOf, Review, AddressText, TxUiStep, DisplayText, DisplayPrompt,
         WithUiStep, TextOf, Begun, Continues, Fired;
    ReviewKnows(st, a, w);
    ReviewGrows(a.path, TransactionOf(a), st.ctx.uiStep, w);
    AlertStep(Fired(st), w);
    NextScreen(st, a, w, "Smart Contract", "Alert", AskSend);
  }

  lemma ReviewConfirmed(st: State, a: Account, w: World)
    requires Accountable(a) && Reviewing(st, a, w) && st.ctx.uiStep == AskSend && st.ins == SignTx
    ensures Continues(st, a, w, TxUiStep(Fired(st), w))
  {
    hide Reviewing, Streamed, TransactionOf, AmountOf, FeeOf, Review, AddressText, TxUiStep, DisplayText, DisplayPrompt,
         WithUiStep, TextOf, Begun, Continues, Fired;
    ReviewKnows(st, a, w);
    AskStep(Fired(st), w);
    LastScreen(st, a, w);
  }

  /** Confirming a screen of the review brings the next one. */
  lemma ScreenConfirmed(st: State, a: Account, w: World)
    requires Accountable(a) && Reviewing(st, a, w) && st.ctx.uiStep != SendSignature && st.ins == SignTx
    ensures Continues(st, a, w, TxUiStep(Fired(st), w))
  {
    PositionOrders(st.ctx.uiStep);
    hide TxUiStep, Continues, Review, Streamed, AmountOf, FeeOf, Begun;
    match st.ctx.uiStep {
      case ShowSender => RecipientConfirmed(st, a, w);
      case ShowAmount => SenderConfirmed(st, a, w);
      case ShowFee => AmountConfirmed(st, a, w);
      case ShowContractCall => AlertConfirmed(st, a, w);
      case AskSend => ReviewConfirmed(st, a, w);
      case _ =>
    }
  }

  lemma PositionOrders(step: UiStep)
    ensures 1 <= Position(step) <= 6 ==>
              step in {ShowSender, ShowAmount, ShowFee, ShowContractCall, AskSend, SendSignature}
  {
  }

  /** Confirming the last prompt sends the signature, and the log is the script. */
  lemma SignatureSent(st: State, a: Account, w: World)
    requires Accountable(a) && Reviewing(st, a, w) && st.ctx.uiStep == SendSignature && st.ins == SignTx
    ensures Checked(a)
    ensures var o := TxUiStep(Fired(st), w);
            o.1.Ok? && Quiet(o.0) && Signed(st.log, o.0.log, a, w)
  {
    hide Streamed, Begun, Review, IsExpectedChain, AmountOf, FeeOf, SignatureOf;
  }

  // Requests

  ghost predicate WellFormed(request: bytes) {
    |request| >= 5 && |request| == request[4] as nat + 5 && request[0] == CLA
  }

  /** A handler that returned left the session as its account tells. */
  ghost predicate Follows(o: Outcome, a: Account, w: World) {
    !o.1.Ok? || (o.0.ins == SignTx && Told(o.0, a, w))
  }

  lemma OpeningRequest(st: State, request: bytes, w: World) returns (a: Account)
    requires st.io == ExpectNone && st.ins == SignTx && st.ctx == CLEARED_CONTEXT
    requires WellFormed(request) && request[1] == 0x20
    requires st.log != [] && st.log[|st.log| - 1] == Received(request)
    ensures Follows(SignTransaction(st, request[2], request[3], request[5..], true, w), a, w)
  {
    var before := st.log[..|st.log| - 1];
    a := Account(before, SignInit(st, request[3], request[5..]).0.ctx.path, []);
    if request[2] == 0 && request[3] == 0 {
      CommandIs(request);
      assert st.log == before + [Received(request)];
      hide SignInit, BeingOpened, Command, Accountable;
      SessionOpens(st, request[5..], before);
    } else {
      hide Parsed, InitUiStep, SignInitPolicy;
    }
  }

  lemma ChunkRequest(st: State, a: Account, request: bytes, w: World) returns (a': Account)
    requires Accountable(a) && Collecting(st, a) && st.ins == SignTx && st.ctx.path == a.path
    requires WellFormed(request) && request[1] == 0x20
    ensures var st' := Logged(st, Received(request)).(io := ExpectNone);
            Follows(SignTransaction(st', request[2], request[3], request[5..], false, w), a', w)
  {
    var st' := Logged(st, Received(request)).(io := ExpectNone);
    a' := a.(chunks := a.chunks + [request[5..]]);
    if request[2] == 1 && request[3] == 0 {
      CommandIs(request);
      hide SignCollect, Collected, BeingOpened, Reviewing, Command, Accountable, Streamed, Begun;
      ChunkCollected(st', a, request[5..]);
    } else {
      hide ProcessChunk, Streamed, Begun, TxUiStep;
    }
  }

  lemma FinalRequest(st: State, a: Account, request: bytes, w: World)
    requires Accountable(a) && Collected(st, a) && st.ins == SignTx && st.ctx.path == a.path
    requires WellFormed(request) && request[1] == 0x20
    ensures var st' := Logged(st, Received(request)).(io := ExpectNone);
            Follows(SignTransaction(st', request[2], request[3], request[5..], false, w), a, w)
  {
    var st' := Logged(st, Received(request)).(io := ExpectNone);
    if request[2] == 0x80 && request[3] == 0 && request[5..] == [] {
      CommandIs(request);
      hide SignFinalize, Collecting, BeingOpened, Reviewing, Command, Accountable, Streamed, Begun;
      SignatureComputed(st', a, w);
    } else {
      hide ProcessChunk, Streamed, Begun, TxUiStep;
    }
  }
}
