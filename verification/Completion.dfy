/** A host and a user that follow the protocol get their signature. */
module Completion {
  import opened Words
  import opened Errors
  import opened Rlp
  import opened StreamModel
  import opened Multiplication
  import opened Printing
  import opened Decimals
  import opened Amounts
  import opened Bip44
  import opened World
  import opened Addresses
  import opened Session
  import opened UiSteps
  import opened Approval
  import opened Phases
  import opened Safety

  // Runs

  lemma {:induction false} RunConcat(st: State, a: seq<Event>, b: seq<Event>, w: World)
    ensures Run(st, a + b, w) == Run(Run(st, a, w), b, w)
    decreases |b|
  {
    hide React;
    if b == [] {
      assert a + b == a;
    } else {
      var front := b[..|b| - 1];
      assert (a + b)[..|a + b| - 1] == a + front && (a + b)[|a + b| - 1] == b[|b| - 1];
      RunConcat(st, a, front, w);
    }
  }

  lemma RunOne(st: State, event: Event, w: World)
    ensures Run(st, [event], w) == React(st, event, w)
  {
    hide React;
    assert [event][..0] == [];
  }

  lemma RunFirst(st: State, event: Event, rest: seq<Event>, w: World)
    ensures Run(st, [event] + rest, w) == Run(React(st, event, w), rest, w)
  {
    hide React, Run;
    RunOne(st, event, w);
    RunConcat(st, [event], rest, w);
  }

  function Sends(p1: uint8, data: bytes): Event
    requires |data| < 256
  {
    Request(true, Command(p1, data), OtherResets)
  }

  lemma CommandParts(p1: uint8, data: bytes)
    requires |data| < 256
    ensures var c := Command(p1, data);
            |c| == c[4] as nat + 5 && c[0] == CLA && c[1] == 0x20 && c[2] == p1 && c[3] == 0 && c[5..] == data
            && HeaderError(true, c) == None
  {
  }

  /** A well-formed signing request reaches its handler. */
  lemma ReactsTo(st: State, p1: uint8, data: bytes, w: World)
    requires |data| < 256 && st.io == ExpectIo && (st.ins == NoInstruction || st.ins == SignTx)
    ensures var st' := Logged(st, Received(Command(p1, data))).(io := ExpectNone);
            var o := if st.ins != NoInstruction then SignByParameter(st', p1, 0, data, w)
                     else SignByParameter(st'.(ctx := CLEARED_CONTEXT, ins := SignTx), p1, 0, data, w);
            o.1.Ok? ==> React(st, Sends(p1, data), w) == o.0
  {
    CommandParts(p1, data);
    hide SignByParameter, Command;
  }

  // The opening

  lemma InitIsOk(st: State, path: Indexes)
    requires st.io == ExpectNone && st.ctx == CLEARED_CONTEXT && |path| <= BIP32_MAX_PATH_LENGTH
    requires SignInitPolicy(path) != Deny
    ensures SignInit(st, 0, Wire(path)).1.Ok? && SignInit(st, 0, Wire(path)).0.ctx.path == path
  {
    hide Parsed, SignInitPolicy, Wire, DisplayText, DisplayPrompt;
    ParseInvertsWire(path, Wire(path));
    FirstScreenShown(Prepared(st).(ctx := Prepared(st).ctx.(path := path)));
  }

  lemma FirstScreenShown(st: State)
    requires st.io == ExpectNone && st.ctx.stage == StageInit && SignInitPolicy(st.ctx.path) != Deny
    ensures ByPolicy(st).1.Ok? && ByPolicy(st).0.ctx.path == st.ctx.path
  {
    hide SignInitPolicy;
  }

  lemma OpeningAccepted(st: State, path: Indexes, w: World)
    requires Quiet(st) && |path| <= BIP32_MAX_PATH_LENGTH && SignInitPolicy(path) != Deny
    ensures |Wire(path)| < 256
    ensures var st', a := React(st, Sends(0x00, Wire(path)), w), Account(st.log, path, []);
            Accountable(a) && BeingOpened(st', a) && st'.ins == SignTx && st'.ctx.path == path
  {
    WireFits(path);
    hide SignInitPolicy, SignInit, Wire, Command, React, BeingOpened;
    ReactsTo(st, 0x00, Wire(path), w);
    var received := Logged(st, Received(Command(0x00, Wire(path))));
    var found := received.(io := ExpectNone, ctx := CLEARED_CONTEXT, ins := SignTx);
    InitIsOk(found, path);
    SessionOpens(found, Wire(path), st.log);
  }

  /** The user confirms the warning, if there is one, and the prompt. */
  lemma OpeningConfirmed(st: State, a: Account, other: OtherStep, w: World) returns (events: seq<Event>)
    requires Accountable(a) && BeingOpened(st, a) && st.ins == SignTx && st.ctx.path == a.path
    ensures var st' := Run(st, events, w); Collecting(st', a) && st'.ins == SignTx && st'.ctx.path == a.path
    decreases st.ctx.uiStep == AskInit
  {
    hide InitUiStep, Run, React, Streamed, Begun, Asking, Warning, SignInitPolicy;
    ButtonIs(st, RunInitStep, other, w);
    var st' := React(st, Confirm(other), w);
    if st.ctx.uiStep == AskInit {
      WarningConfirmed(st, a, w);
      PromptIsNext(st, a);
      var rest := OpeningConfirmed(st', a, other, w);
      events := [Confirm(other)] + rest;
      RunFirst(st, Confirm(other), rest, w);
    } else {
      PromptConfirmed(st, a);
      events := [Confirm(other)];
      RunOne(st, Confirm(other), w);
    }
  }

  lemma PromptIsNext(st: State, a: Account)
    requires Accountable(a) && BeingOpened(st, a) && st.ctx.uiStep == AskInit
    ensures InitUiStep(Fired(st)).0.ctx.uiStep == RespondInit
  {
    hide Warning, SignInitPolicy;
  }

  // The chunks

  /** While a longer input is not faulty or finished early, a shorter one is waiting for more. */
  lemma ShorterWaits(a: Account, chunk: bytes)
    requires Streamed(a.(chunks := a.chunks + [chunk])).1 == Processing
    ensures Streamed(a).1 == Processing
  {
    FlattenSnoc(a.chunks, chunk);
    FeedConcat(INITIAL, Flatten(a.chunks), chunk, false);
    hide Feed, Flatten;
  }

  lemma ChunkAccepted(st: State, a: Account, chunk: bytes, w: World)
    requires Accountable(a) && Collecting(st, a) && st.ins == SignTx && st.ctx.path == a.path && 0 < |chunk| < 256
    requires Streamed(a.(chunks := a.chunks + [chunk])).1 != Fault
    ensures var st', a' := React(st, Sends(0x01, chunk), w), a.(chunks := a.chunks + [chunk]);
            Accountable(a') && st'.ins == SignTx && st'.ctx.path == a.path
            && if Streamed(a').1 == Finished then Collected(st', a') else Collecting(st', a')
  {
    ReactsTo(st, 0x01, chunk, w);
    var found := Logged(st, Received(Command(0x01, chunk))).(io := ExpectNone);
    ChunkIsOk(found, a, chunk);
    hide Streamed, Begun, Command, React, SignCollect;
    ChunkCollected(found, a, chunk);
  }

  lemma ChunkIsOk(st: State, a: Account, chunk: bytes)
    requires st.ctx.stage == StageCollect && chunk != []
    requires Streamed(a).1 == Processing && st.ctx.stream == Some(Streamed(a).0)
    requires Streamed(a.(chunks := a.chunks + [chunk])).1 != Fault
    ensures SignCollect(st, 0, chunk).1.Ok?
  {
    StreamedOneMore(a, chunk);
    hide Streamed, ProcessChunk;
  }

  function Deliveries(chunks: seq<bytes>): seq<Event>
    requires forall i :: 0 <= i < |chunks| ==> 0 < |chunks[i]| < 256
  {
    if chunks == [] then []
    else Deliveries(chunks[..|chunks| - 1]) + [Sends(0x01, chunks[|chunks| - 1])]
  }

  /** Chunks that do not yet finish the transaction are all accepted. */
  lemma {:induction false} ChunksAccepted(st: State, a: Account, w: World)
    requires Accountable(a) && Collecting(st, a.(chunks := [])) && st.ins == SignTx && st.ctx.path == a.path
    requires Streamed(a).1 == Processing
    ensures var st' := Run(st, Deliveries(a.chunks), w);
            Collecting(st', a) && st'.ins == SignTx && st'.ctx.path == a.path
    decreases |a.chunks|
  {
    hide Collecting, Streamed, React;
    if a.chunks == [] {
      assert a == a.(chunks := []);
    } else {
      var n := |a.chunks| - 1;
      var front, last := a.(chunks := a.chunks[..n]), a.chunks[n];
      assert a == front.(chunks := front.chunks + [last]);
      ShorterWaits(front, last);
      ChunksAccepted(st, front, w);
      ChunkAccepted(Run(st, Deliveries(front.chunks), w), front, last, w);
      RunLastEvent(st, Deliveries(front.chunks), Sends(0x01, last), w);
    }
  }

  lemma RunLastEvent(st: State, events: seq<Event>, event: Event, w: World)
    ensures Run(st, events + [event], w) == React(Run(st, events, w), event, w)
  {
    hide React, Run;
    RunConcat(st, events, [event], w);
    RunOne(Run(st, events, w), event, w);
  }

  /** All chunks of a transaction that is complete with the last one are accepted. */
  lemma AllDelivered(st: State, a: Account, w: World)
    requires Accountable(a) && Collecting(st, a.(chunks := [])) && st.ins == SignTx && st.ctx.path == a.path
    requires Arrived(a)
    ensures var st' := Run(st, Deliveries(a.chunks), w);
            Collected(st', a) && st'.ins == SignTx && st'.ctx.path == a.path
  {
    hide Collecting, Collected, Streamed, React;
    var n := |a.chunks| - 1;
    var front, last := a.(chunks := a.chunks[..n]), a.chunks[n];
    assert a == front.(chunks := front.chunks + [last]);
    ChunksAccepted(st, front, w);
    ChunkAccepted(Run(st, Deliveries(front.chunks), w), front, last, w);
    RunLastEvent(st, Deliveries(front.chunks), Sends(0x01, last), w);
  }

  // The review

  lemma TextsFit(a: Account, w: World)
    requires AmountOf(TransactionOf(a)).Ok? && FeeOf(TransactionOf(a)).Ok?
    ensures |TextOf(AmountOf(TransactionOf(a)))| < 40 && |TextOf(FeeOf(TransactionOf(a)))| < 40
    ensures |RecipientText(TransactionOf(a).recipient, w)| <= 42
  {
    AmountTextFits(NumberOf(TransactionOf(a).value));
    AmountTextFits(Product256(NumberOf(TransactionOf(a).gasPrice), NumberOf(TransactionOf(a).startGas)));
    hide AddressText, NumberOf, Streamed, AmountText, Product256;
  }

  lemma AmountTextFits(n: nat)
    requires AmountShown(n).Ok?
    ensures |AmountShown(n).value| < 40
  {
    hide Numeral, Adjusted, HasRoom;
    AdjustedLength(Numeral(n, 10), 18, 40);
  }

  lemma FinalAccepted(st: State, a: Account, w: World)
    requires Accountable(a) && Collected(st, a) && st.ins == SignTx && st.ctx.path == a.path && Checked(a)
    ensures var st' := React(st, Sends(0x80, []), w);
            Reviewing(st', a, w) && st'.ins == SignTx && st'.ctx.path == a.path && st'.ctx.uiStep == ShowSender
  {
    ReactsTo(st, 0x80, [], w);
    var found := Logged(st, Received(Command(0x80, []))).(io := ExpectNone);
    FinalIsOk(found, a, w);
    hide Streamed, Begun, Command, React, SignFinalize, Reviewing, Checked;
    SignatureComputed(found, a, w);
  }

  lemma FinalIsOk(st: State, a: Account, w: World)
    requires st.ctx.stage == StageFinalize && st.ctx.stream == Some(Streamed(a).0) && Checked(a) && st.io == ExpectNone
    requires st.ctx.path == a.path && Accountable(a)
    ensures SignFinalize(st, 0, [], w).1.Ok? && SignFinalize(st, 0, [], w).0.ctx.uiStep == ShowSender
  {
    TextsFit(a, w);
    FinishedFits(a);
    AllowedPathHasKeyWhen(a.path);
    hide Streamed, IsExpectedChain, RecipientText, AmountOf, FeeOf, TxUiStep, WithSignature, KeyDerivation,
         SignInitPolicy, Arrived, DisplayText;
    FirstScreenOk(WithHashSigned(st.(io := ExpectUi), w), w);
  }

  lemma FirstScreenOk(st: State, w: World)
    requires InReview(st, ShowRecipient) && st.io == ExpectUi && st.ctx.stream.value.tx.recipient.length <= 20
    requires |RecipientText(st.ctx.stream.value.tx.recipient, w)| <= 42
    ensures TxUiStep(st, w).1.Ok? && TxUiStep(st, w).0.ctx.uiStep == ShowSender
  {
    RecipientStep(st, w);
    hide RecipientText, TxUiStep;
  }

  lemma FinishedFits(a: Account)
    requires Streamed(a).1 == Finished
    ensures var tx := TransactionOf(a);
            tx.recipient.length <= 20 && tx.value.length <= 32 && tx.gasPrice.length <= 32 && tx.startGas.length <= 32
  {
    StreamedWaits(a);
    hide Streamed;
  }

  ghost predicate Goes(o: Outcome, next: UiStep) {
    o.1.Ok? && o.0.ctx.uiStep == next
  }

  lemma TextGoes(st: State, header: string, text: string, next: UiStep)
    requires st.io == ExpectUi && |header| < 30 && |text| < 200
    ensures Goes(WithUiStep(DisplayText(st, header, text, RunTxStep), next), next)
  {
  }

  lemma ResultGoes(st: State, header: string, text: Result<string>, next: UiStep)
    requires st.io == ExpectUi && |header| < 30 && text.Ok? && |text.value| < 200
    ensures Goes(WithUiStep(DisplayResult(st, header, text), next), next)
  {
  }

  lemma PromptGoes(st: State)
    requires st.io == ExpectUi
    ensures Goes(WithUiStep(DisplayPrompt(st, "Send", "Transaction?", RunTxStep, RespondWithReject), SendSignature),
                 SendSignature)
  {
  }

  lemma ScreenGoes(st: State, step: UiStep, w: World)
    requires InReview(st, step) && 1 <= Position(step) <= 5 && st.io == ExpectUi && st.ctx.senderLength == 20
    requires var tx := st.ctx.stream.value.tx;
             AmountOf(tx).Ok? && |AmountOf(tx).value| < 40 && FeeOf(tx).Ok? && |FeeOf(tx).value| < 40
             && tx.value.length <= 32 && tx.gasPrice.length <= 32 && tx.startGas.length <= 32
    ensures TxUiStep(st, w).1.Ok? && Position(TxUiStep(st, w).0.ctx.uiStep) > Position(step)
  {
    PositionOrders(step);
    hide TxUiStep, DisplayText, DisplayPrompt, DisplayResult, WithUiStep, AddressText, AmountShown, FeeShown, NumberOf;
    var tx := st.ctx.stream.value.tx;
    match step {
      case ShowSender =>
        SenderStep(st, w);
        TextGoes(st, "Send From", AddressText(st.ctx.sender, 20, w), ShowAmount);
      case ShowAmount =>
        AmountStep(st, w);
        ResultGoes(st, "Amount (FTM)", AmountOf(tx), ShowFee);
      case ShowFee =>
        FeeStep(st, w);
        ResultGoes(st, "Max Fee (FTM)", FeeOf(tx), if tx.isContractCall then ShowContractCall else AskSend);
      case ShowContractCall =>
        AlertStep(st, w);
        TextGoes(st, "Smart Contract", "Alert", AskSend);
      case AskSend =>
        AskStep(st, w);
        PromptGoes(st);
      case _ =>
    }
  }

  lemma ScreenIsOk(st: State, a: Account, w: World)
    requires Accountable(a) && Reviewing(st, a, w) && Checked(a) && st.ctx.uiStep != SendSignature
    ensures var o := TxUiStep(Fired(st), w); o.1.Ok? && Position(o.0.ctx.uiStep) > Position(st.ctx.uiStep)
  {
    ReviewKnows(st, a, w);
    ReviewIsLive(st, a, w);
    LiveExpectsUser(st, RunTxStep);
    PositionOrders(st.ctx.uiStep);
    TextsFit(a, w);
    FinishedFits(a);
    hide Streamed, Begun, Review, IsExpectedChain, SignatureOf, AmountOf, FeeOf, TxUiStep, Live, TransactionOf;
    ScreenGoes(Fired(st), st.ctx.uiStep, w);
  }

  /** The user confirms every screen of the review and the prompt. */
  lemma ReviewCompletes(st: State, a: Account, other: OtherStep, w: World) returns (events: seq<Event>)
    requires Accountable(a) && Reviewing(st, a, w) && Checked(a) && st.ins == SignTx && st.ctx.path == a.path
    ensures var st' := Run(st, events, w); Quiet(st') && st'.log == Script(a, w) + [ShownIdle]
    decreases 7 - Position(st.ctx.uiStep)
  {
    ReviewIsLive(st, a, w);
    ButtonIs(st, RunTxStep, other, w);
    hide TxUiStep, Reviewing, Checked, Script, Run, React, Quiet, Fired;
    var o := TxUiStep(Fired(st), w);
    RunOne(st, Confirm(other), w);
    if st.ctx.uiStep == SendSignature {
      SignatureSent(st, a, w);
      events := [Confirm(other)];
    } else {
      ScreenIsOk(st, a, w);
      ScreenConfirmed(st, a, w);
      PositionBounded(o.0.ctx.uiStep);
      var rest := ReviewCompletes(o.0, a, other, w);
      events := [Confirm(other)] + rest;
      RunFirst(st, Confirm(other), rest, w);
    }
  }

  lemma PositionBounded(step: UiStep)
    ensures Position(step) <= 7
  {
  }

  /** For every path of at most nine indexes that the policy allows and every chunking of a transaction for the
      expected chain whose amount and fee can be shown, a quiet device can be brought to exactly the script of the
      session: what safety demands can be met. */
  lemma SessionCompletes(st: State, a: Account, other: OtherStep, w: World) returns (events: seq<Event>)
    requires Quiet(st) && Accountable(a) && a.before == st.log && Checked(a)
    ensures Run(st, events, w).log == Script(a, w) + [ShownIdle] && Quiet(Run(st, events, w))
  {
    var empty := a.(chunks := []);
    OpeningAccepted(st, a.path, w);
    assert Arrived(a);
    hide React, Run, Script, Arrived, Streamed, Reviewing, Collected, Collecting, BeingOpened, Checked, Quiet,
         SignInitPolicy, Wire;
    var first := Sends(0x00, Wire(a.path));
    var asked := React(st, first, w);
    RunOne(st, first, w);
    var confirms := OpeningConfirmed(asked, empty, other, w);
    RunConcat(st, [first], confirms, w);
    var opening := [first] + confirms;
    AllDelivered(Run(st, opening, w), a, w);
    RunConcat(st, opening, Deliveries(a.chunks), w);
    var delivery := opening + Deliveries(a.chunks);
    var last := Sends(0x80, []);
    FinalAccepted(Run(st, delivery, w), a, w);
    RunLastEvent(st, delivery, last, w);
    var requests := delivery + [last];
    var review := ReviewCompletes(Run(st, requests, w), a, other, w);
    RunConcat(st, requests, review, w);
    events := requests + review;
  }
}
