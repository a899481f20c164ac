/** What the host is told over all runs: every error code is deserved, and every success of the signing instruction
    is earned. */
module Replies {
  import opened Words
  import opened Errors
  import opened Rlp
  import opened StreamModel
  import opened OneShot
  import opened Amounts
  import opened World
  import opened Session
  import opened UiSteps
  import opened Approval
  import opened Phases
  import opened Transcript
  import opened Safety
  import opened Refusals

  // Error codes

  /** The new error code at `k` answers a request with what is wrong with it, or a prompt that was rejected. */
  ghost predicate Deserved(st: State, a: Account, event: Event, st': State, k: nat)
    requires k < |st'.log|
  {
    k == |st.log| + 1
    && if event.Request? then
      var error := ErrorFor(st, Flatten(a.chunks), event.unlocked, event.request, event.other);
      error.Some? && st'.log == st.log + [Received(event.request),
                                          Replied(Answering(st, event.unlocked, event.request), Failure(error.value)),
                                          ShownIdle]
    else
      event.Reject? && st.flow == FlowPrompt
      && st'.log == st.log + [Rejected, Replied(st.ins, Failure(ErrRejectedByUser)), ShownIdle]
  }

  lemma FailureOfRequest(st: State, a: Account, event: Event, w: World, k: nat)
    requires Inv(st, a, w) && event.Request?
    requires |st.log| <= k < |React(st, event, w).log| && IsFailure(React(st, event, w).log[k])
    ensures Deserved(st, a, event, React(st, event, w), k)
  {
    hide Inv, React, ErrorFor, Answering;
    RequestAnswered(st, a, event.unlocked, event.request, event.other, w);
  }

  lemma FailureOfReject(st: State, a: Account, w: World, k: nat)
    requires Inv(st, a, w)
    requires |st.log| <= k < |React(st, Reject, w).log| && IsFailure(React(st, Reject, w).log[k])
    ensures Deserved(st, a, Reject, React(st, Reject, w), k)
  {
    RejectKeeps(st, a, w);
    hide Inv, React, Preserved;
  }

  lemma ConfirmSendsNoFailure(st: State, a: Account, other: OtherStep, w: World, k: nat)
    requires Inv(st, a, w)
    requires |st.log| <= k < |React(st, Confirm(other), w).log|
    ensures !IsFailure(React(st, Confirm(other), w).log[k])
  {
    ConfirmKeeps(st, a, other, w);
    hide Inv, React, Script, Checked, Accountable, SignatureOf, Signed, IsFailure;
    var l := React(st, Confirm(other), w).log;
    if Signed(st.log, l, a, w) {
      NoFailureInSignature(st.log, l, a, w, k);
    } else {
      NoFailureGrown(st.log, l, k);
    }
  }

  lemma NoFailureInSignature(l: seq<Entry>, l': seq<Entry>, a: Account, w: World, k: nat)
    requires Signed(l, l', a, w) && |l| <= k < |l'|
    ensures !IsFailure(l'[k])
  {
    hide Script, Checked, Accountable, SignatureOf;
    assert l' == l + [Confirmed, Replied(SignTx, Success(SignatureOf(a, w))), ShownIdle];
  }

  lemma NoFailureGrown(l: seq<Entry>, l': seq<Entry>, k: nat)
    requires Grown(l, l', false) && |l| <= k < |l'|
    ensures !IsFailure(l'[k])
  {
  }

  lemma PowerLossIsSilent(st: State, w: World, k: nat)
    requires |st.log| <= k < |React(st, PowerLoss, w).log|
    ensures React(st, PowerLoss, w).log[k] == Restarted
  {
  }

  /** In every run, an error code is only ever sent for a request that deserves exactly this one, or for a prompt that
      the user has rejected. */
  lemma FailuresDeserved(events: seq<Event>, event: Event, w: World, k: nat) returns (a: Account)
    requires var st := Run(BOOT, events, w);
             var st' := React(st, event, w);
             |st.log| <= k < |st'.log| && IsFailure(st'.log[k])
    ensures Inv(Run(BOOT, events, w), a, w)
    ensures Deserved(Run(BOOT, events, w), a, event, React(Run(BOOT, events, w), event, w), k)
  {
    a := RunKeeps(events, w);
    var st := Run(BOOT, events, w);
    hide Run, React, Inv, Deserved;
    if event.Request? {
      FailureOfRequest(st, a, event, w, k);
    } else if event.Reject? {
      FailureOfReject(st, a, w, k);
    } else if event.Confirm? {
      ConfirmSendsNoFailure(st, a, event.other, w, k);
    } else {
      PowerLossIsSilent(st, w, k);
    }
  }

  lemma TooLargeStops(st: State, w: World)
    requires (InReview(st, ShowAmount) && !AmountOf(st.ctx.stream.value.tx).Ok?)
             || (InReview(st, ShowFee) && !FeeOf(st.ctx.stream.value.tx).Ok?)
    ensures !TxUiStep(st, w).1.Ok? && TxUiStep(st, w).0.log == st.log
  {
    if st.ctx.uiStep == ShowAmount {
      AmountStep(st, w);
    } else {
      FeeStep(st, w);
    }
    hide TxUiStep, AmountShown, FeeShown, NumberOf, DisplayText;
  }

  /** When the next amount is 10^37 or more, or the fee cannot be shown, confirming the screen in front of it resets the
      device: the host gets no answer and the user no further screen. */
  lemma LargeAmountResets(st: State, a: Account, other: OtherStep, w: World)
    requires Accountable(a) && Reviewing(st, a, w) && st.ins == SignTx
    requires var tx := TransactionOf(a);
             (st.ctx.uiStep == ShowAmount && NumberOf(tx.value) >= Pow(10, 37))
             || (st.ctx.uiStep == ShowFee && !FeeOf(tx).Ok?)
    ensures var st' := React(st, Confirm(other), w);
            Quiet(st') && st'.log == st.log + [Confirmed, Restarted]
  {
    hide *;
    ReviewIsLive(st, a, w);
    ButtonIs(st, RunTxStep, other, w);
    CallbackOfReview(Fired(st), other, w);
    LargeStops(st, a, w);
    RestartedQuiet(TxUiStep(Fired(st), w).0);
    assert st.log + [Confirmed] + [Restarted] == st.log + [Confirmed, Restarted];
  }

  lemma CallbackOfReview(st: State, other: OtherStep, w: World)
    ensures RunCallback(st, RunTxStep, other, w) == TxUiStep(st, w)
  {
    hide TxUiStep;
  }

  lemma RestartedQuiet(st: State)
    ensures Quiet(Restart(st)) && Restart(st).log == st.log + [Restarted]
  {
  }

  lemma LargeStops(st: State, a: Account, w: World)
    requires Accountable(a) && Reviewing(st, a, w)
    requires var tx := TransactionOf(a);
             (st.ctx.uiStep == ShowAmount && NumberOf(tx.value) >= Pow(10, 37))
             || (st.ctx.uiStep == ShowFee && !FeeOf(tx).Ok?)
    ensures var o := TxUiStep(Fired(st), w); !o.1.Ok? && o.0.log == st.log + [Confirmed]
  {
    ReviewKnows(st, a, w);
    AmountShownWhen(NumberOf(TransactionOf(a).value));
    hide Reviewing, Pow, NumberOf, TransactionOf, AmountShown, FeeOf, TxUiStep, Accountable;
    TooLargeStops(Fired(st), w);
  }

  // Successes

  /** What the log must hold in front of a success with `data`: a confirmed opening, a chunk that the stream took and
      that did not or did complete the transaction, or a confirmed review. */
  ghost predicate Earned(l: seq<Entry>, data: bytes, a: Account, w: World) {
    Accountable(a)
    && ((data == [] && l == a.before + Asking(a.path) + [Confirmed])
        || (data == [2] && a.chunks != [] && Streamed(a).1 == Processing
            && l + [Replied(SignTx, Success([2])), ShownBusy] == Begun(a, false))
        || (data == [4] && Arrived(a) && l + [Replied(SignTx, Success([4])), ShownBusy] == Begun(a, true))
        || (Checked(a) && l + [Replied(SignTx, Success(data))] == Script(a, w)))
  }

  /** The success at `k` is earned. */
  ghost predicate EarnedAt(l: seq<Entry>, k: nat, a: Account, w: World)
    requires k < |l| && IsSuccess(l[k])
  {
    Earned(l[..k], l[k].reply.data, a, w)
  }

  lemma HarmlessHasNone(l: seq<Entry>, l': seq<Entry>, k: nat)
    requires Harmless(l, l') && |l| <= k < |l'|
    ensures !IsSuccess(l'[k])
  {
  }

  // A chunk

  lemma ChunkDone(st: State, o: Session.Outcome, complete: bool)
    requires o.1.Ok? && o.0.ctx.stage == if complete then StageFinalize else StageCollect
    requires o.0.log == st.log + [Replied(st.ins, Success([o.0.ctx.stage.Code()])), ShownBusy]
    ensures o.0.log == st.log + [Replied(st.ins, Success([if complete then 4 else 2])), ShownBusy]
  {
  }

  /** An accepted chunk is acknowledged, and the log is that of the session with this chunk. */
  lemma ChunkEarned(st: State, a: Account, data: bytes, w: World)
    requires Accountable(a) && Collecting(st, a) && st.ins == SignTx && st.ctx.path == a.path && |data| < 256
    requires SignCollect(Delivering(st, data), 0, data).1.Ok?
    ensures var o, l := SignCollect(Delivering(st, data), 0, data), st.log + [Received(Command(0x01, data))];
            var a' := a.(chunks := a.chunks + [data]);
            exists code :: o.0.log == l + [Replied(SignTx, Success([code])), ShownBusy] && Earned(l, [code], a', w)
  {
    var found := Delivering(st, data);
    var o, l, a' := SignCollect(found, 0, data), found.log, a.(chunks := a.chunks + [data]);
    ChunkCollected(found, a, data);
    SignCollectReplies(found, 0, data);
    hide SignCollect, Streamed, Begun, Command, Script, Checked, Earned;
    var complete := Collected(o.0, a');
    StagesOf(o.0, a');
    ChunkDone(found, o, complete);
    EarnedByChunk(l, a', w, o.0, complete);
    var code := if complete then 4 else 2;
    assert o.0.log == l + [Replied(SignTx, Success([code])), ShownBusy] && Earned(l, [code], a', w);
  }

  lemma StagesOf(st: State, a: Account)
    requires Accountable(a) && (Collecting(st, a) || Collected(st, a))
    ensures st.ctx.stage == if Collected(st, a) then StageFinalize else StageCollect
  {
    hide Streamed, Begun;
  }

  lemma EarnedByChunk(l: seq<Entry>, a: Account, w: World, st: State, complete: bool)
    requires Accountable(a) && a.chunks != [] && if complete then Collected(st, a) else Collecting(st, a)
    requires st.log == l + [Replied(SignTx, Success([if complete then 4 else 2])), ShownBusy]
    ensures Earned(l, [if complete then 4 else 2], a, w)
  {
    hide Streamed, Begun, Script, Checked;
  }

  /** The state in which the handler finds a chunk. */
  ghost function Delivering(st: State, data: bytes): State
    requires |data| < 256
  {
    Logged(st, Received(Command(0x01, data))).(io := ExpectNone)
  }

  // Confirmed screens

  lemma PromptEarned(st: State, a: Account, w: World, l: seq<Entry>, k: nat)
    requires Accountable(a) && BeingOpened(st, a) && st.ctx.uiStep != AskInit
    requires l == st.log + [Confirmed, Replied(SignTx, Success([])), ShownBusy]
    requires |st.log| <= k < |l| && IsSuccess(l[k])
    ensures EarnedAt(l, k, a, w)
  {
    hide Asking, Warning, Streamed, Begun, Script, Checked, Live;
    assert k == |st.log| + 1;
    assert l[..k] == st.log + [Confirmed];
  }

  lemma ReplyToPrompt(st: State, a: Account)
    requires Accountable(a) && BeingOpened(st, a) && st.ctx.uiStep != AskInit && st.ins == SignTx
    ensures InitUiStep(Fired(st)).1.Ok?
    ensures InitUiStep(Fired(st)).0.log == st.log + [Confirmed, Replied(SignTx, Success([])), ShownBusy]
  {
    StepOfOpening(st, a);
    PromptConfirmed(st, a);
    OpeningReplies(Fired(st));
    hide InitUiStep, Collecting, Asking, Warning, Streamed, Begun;
    assert st.log + [Confirmed] + [Replied(SignTx, Success([])), ShownBusy]
        == st.log + [Confirmed, Replied(SignTx, Success([])), ShownBusy];
  }

  /** Nothing but harmless entries, and perhaps a restart. */
  lemma HarmlessButton(st: State, o: Session.Outcome, l: seq<Entry>, k: nat)
    requires Harmless(Fired(st).log, o.0.log) && l == if o.1.Ok? then o.0.log else Restart(o.0).log
    requires |st.log| <= k < |l|
    ensures !IsSuccess(l[k])
  {
    hide Harmless, Restart, Fired;
    FiredHarmless(st);
    HarmlessBoth(st.log, Fired(st).log, o.0.log);
    ScreensHarmless(o.0, "", "", NoCallback, NoCallback);
    HarmlessBoth(st.log, o.0.log, Restart(o.0).log);
    HarmlessHasNone(st.log, l, k);
  }

  lemma OpeningEarned(st: State, a: Account, other: OtherStep, w: World, k: nat)
    requires Accountable(a) && st.ins == SignTx && BeingOpened(st, a)
    requires |st.log| <= k < |React(st, Confirm(other), w).log| && IsSuccess(React(st, Confirm(other), w).log[k])
    ensures EarnedAt(React(st, Confirm(other), w).log, k, a, w)
  {
    ButtonIs(st, RunInitStep, other, w);
    hide InitUiStep, React, Harmless, Restart, EarnedAt, IsSuccess, BeingOpened;
    if st.ctx.uiStep == AskInit {
      InitUiStepHarmless(Fired(st));
      HarmlessButton(st, InitUiStep(Fired(st)), React(st, Confirm(other), w).log, k);
    } else {
      ReplyToPrompt(st, a);
      PromptEarned(st, a, w, React(st, Confirm(other), w).log, k);
    }
  }

  lemma SignatureEarned(l: seq<Entry>, l': seq<Entry>, a: Account, w: World, k: nat)
    requires Signed(l, l', a, w) && |l| <= k < |l'| && IsSuccess(l'[k])
    ensures EarnedAt(l', k, a, w)
  {
    hide Script, Checked, Accountable, SignatureOf, Asking, Begun, Streamed, Arrived;
    var reply := Replied(SignTx, Success(SignatureOf(a, w)));
    assert l' == l + [Confirmed, reply, ShownIdle];
    assert k == |l| + 1;
    assert l'[..k] + [reply] == l + [Confirmed, reply];
  }

  lemma ReviewEarned(st: State, a: Account, other: OtherStep, w: World, k: nat)
    requires Accountable(a) && st.ins == SignTx && Reviewing(st, a, w)
    requires |st.log| <= k < |React(st, Confirm(other), w).log| && IsSuccess(React(st, Confirm(other), w).log[k])
    ensures EarnedAt(React(st, Confirm(other), w).log, k, a, w)
  {
    ReviewIsLive(st, a, w);
    ButtonIs(st, RunTxStep, other, w);
    hide TxUiStep, React, Harmless, Restart, EarnedAt, IsSuccess, Reviewing, Signed, Checked, Quiet, Live;
    if st.ctx.uiStep == SendSignature {
      SignatureSent(st, a, w);
      SignatureEarned(st.log, React(st, Confirm(other), w).log, a, w, k);
    } else {
      TxUiStepHarmless(Fired(st), w);
      HarmlessButton(st, TxUiStep(Fired(st), w), React(st, Confirm(other), w).log, k);
    }
  }

  lemma OtherEarnsNothing(st: State, other: OtherStep, w: World, k: nat)
    requires Live(st, RunOtherStep) && st.ins != SignTx
    requires |st.log| <= k < |React(st, Confirm(other), w).log|
    ensures !IsSuccess(React(st, Confirm(other), w).log[k])
  {
    ButtonIs(st, RunOtherStep, other, w);
    hide RunOther, React, Harmless, Restart, IsSuccess, Live;
    OtherHarmless(Fired(st), other);
    HarmlessButton(st, RunOther(Fired(st), other), React(st, Confirm(other), w).log, k);
  }

  lemma ConfirmEarned(st: State, a: Account, other: OtherStep, w: World, k: nat)
    requires Inv(st, a, w)
    requires |st.log| <= k < |React(st, Confirm(other), w).log| && IsSuccess(React(st, Confirm(other), w).log[k])
    ensures EarnedAt(React(st, Confirm(other), w).log, k, a, w)
  {
    hide Streamed, Begun, Review, Asking, Warning, Script, SignatureOf, IsExpectedChain, AmountOf, FeeOf, Button,
         IsSuccess, EarnedAt;
    if st.ins == SignTx {
      if BeingOpened(st, a) {
        OpeningEarned(st, a, other, w, k);
      } else if Reviewing(st, a, w) {
        ReviewEarned(st, a, other, w, k);
      }
    } else if st.ins != NoInstruction {
      OtherEarnsNothing(st, other, w, k);
    }
  }

  // Requests

  /** A request that is not refused went to a handler, unless it was empty. */
  lemma AcceptedHandled(st: State, unlocked: bool, request: bytes, other: OtherStep, sent: bytes)
    requires ErrorFor(st, sent, unlocked, request, other).None? && request != []
    ensures HeaderFault(st, unlocked, request).None? && Handled(st, unlocked, request)
    ensures InstructionOf(request[1]) == Named(request[1])
    ensures request[1] == 0x20 ==> SigningError(st, sent, request[2], request[3], request[5..]).None?
  {
    NoFaultHandled(st, unlocked, request);
    hide SigningError;
  }

  /** A handler that does not throw, and what its caller logs. */
  lemma HarmlessRequest(st: State, request: bytes, o: Session.Outcome, k: nat)
    requires Harmless(st.log + [Received(request)], o.0.log) && !o.1.Throws? && |st.log| <= k < |Caught(o).log|
    ensures !IsSuccess(Caught(o).log[k])
  {
    hide Harmless, Restart;
    HarmlessEntry(st.log, Received(request));
    HarmlessBoth(st.log, st.log + [Received(request)], o.0.log);
    ScreensHarmless(o.0, "", "", NoCallback, NoCallback);
    HarmlessBoth(st.log, o.0.log, Restart(o.0).log);
    HarmlessHasNone(st.log, Caught(o).log, k);
  }

  lemma RefusedEarnsNothing(st: State, request: bytes, ins: Instruction, error: Error, st': State, k: nat)
    requires Refused(st, request, ins, error, st') && |st.log| <= k < |st'.log|
    ensures !IsSuccess(st'.log[k])
  {
    hide Quiet;
  }

  lemma EmptyEarnsNothing(st: State, unlocked: bool, other: OtherStep, w: World, k: nat)
    requires st.io == ExpectIo && |st.log| <= k < |React(st, Request(unlocked, [], other), w).log|
    ensures !IsSuccess(React(st, Request(unlocked, [], other), w).log[k])
  {
    EmptyResets(st, unlocked, other, w);
    hide React;
  }

  /** A chunk is only accepted by a session that collects. */
  lemma OnlyCollecting(st: State, a: Account, request: bytes, w: World)
    requires Told(st, a, w) && st.ins == SignTx && st.io == ExpectIo && WellFormed(request)
    requires SigningError(st, Flatten(a.chunks), 0x01, request[3], request[5..]).None?
    ensures Accountable(a) && Collecting(st, a) && st.ctx.path == a.path && request[3] == 0
  {
    hide Streamed, Begun, Review, Asking, Warning, IsExpectedChain, AmountOf, FeeOf, SignatureOf,
         ReadTransaction, Flatten;
  }

  /** What a collecting session does with an accepted chunk. */
  lemma ChunkReaction(st: State, a: Account, request: bytes, other: OtherStep, w: World)
    requires Told(st, a, w) && Collecting(st, a) && st.ins == SignTx && st.ctx.path == a.path && WellFormed(request)
    requires request[1] == 0x20 && request[2] == 0x01 && request[3] == 0
    requires SigningError(st, Flatten(a.chunks), 0x01, 0, request[5..]).None?
    ensures var o := SignCollect(Delivering(st, request[5..]), 0, request[5..]);
            request == Command(0x01, request[5..]) && !o.1.Throws?
            && React(st, Request(true, request, other), w) == Caught(o)
  {
    CommandIs(request);
    SessionTells(st, Delivering(st, request[5..]), a, 0x01, 0, request[5..], w);
    hide Streamed, Begun, Command, SignCollect, SigningError, Caught;
  }

  lemma AfterChunk(st: State, a: Account, request: bytes, other: OtherStep, w: World, k: nat) returns (a': Account)
    requires Told(st, a, w) && Collecting(st, a) && st.ins == SignTx && st.ctx.path == a.path && WellFormed(request)
    requires request[1] == 0x20 && request[2] == 0x01 && request[3] == 0
    requires SigningError(st, Flatten(a.chunks), 0x01, 0, request[5..]).None?
    requires var l := React(st, Request(true, request, other), w).log; |st.log| <= k < |l| && IsSuccess(l[k])
    ensures EarnedAt(React(st, Request(true, request, other), w).log, k, a', w)
  {
    ChunkReaction(st, a, request, other, w);
    a' := a.(chunks := a.chunks + [request[5..]]);
    var o := SignCollect(Delivering(st, request[5..]), 0, request[5..]);
    SignCollectReplies(Delivering(st, request[5..]), 0, request[5..]);
    if o.1.Ok? {
      ChunkEarned(st, a, request[5..], w);
      hide React, SignCollect, Earned, Collecting, Told, Command, SigningError;
      var l := st.log + [Received(request)];
      var code :| o.0.log == l + [Replied(SignTx, Success([code])), ShownBusy] && Earned(l, [code], a', w);
      AtReply(l, code, o.0.log, a', w, k);
    } else {
      hide React, SignCollect, Collecting, Told, Command, SigningError;
      RestartIsNoSuccess(st.log, request, o.0, k);
    }
  }

  lemma AtReply(l: seq<Entry>, code: uint8, l': seq<Entry>, a: Account, w: World, k: nat)
    requires l' == l + [Replied(SignTx, Success([code])), ShownBusy] && Earned(l, [code], a, w)
    requires l != [] && l[|l| - 1].Received? && |l| <= k + 1 && k < |l'| && IsSuccess(l'[k])
    ensures EarnedAt(l', k, a, w)
  {
    hide Earned;
    assert l'[..|l|] == l && l'[|l| - 1] == l[|l| - 1];
    assert k == |l|;
  }

  lemma RestartIsNoSuccess(l: seq<Entry>, request: bytes, st: State, k: nat)
    requires st.log == l + [Received(request)] && |l| <= k < |Restart(st).log|
    ensures !IsSuccess(Restart(st).log[k])
  {
  }

  lemma HandledEarned(st: State, a: Account, request: bytes, other: OtherStep, w: World, k: nat) returns (a': Account)
    requires Inv(st, a, w) && request != []
    requires ErrorFor(st, Flatten(a.chunks), true, request, other).None?
    requires var l := React(st, Request(true, request, other), w).log; |st.log| <= k < |l| && IsSuccess(l[k])
    ensures EarnedAt(React(st, Request(true, request, other), w).log, k, a', w)
  {
    AcceptedHandled(st, true, request, other, Flatten(a.chunks));
    a' := a;
    if request[1] == 0x20 && request[2] == 0x01 {
      hide React, ErrorFor, IsSuccess, EarnedAt;
      StageIsCollect(st, a, request, w);
      OnlyCollecting(st, a, request, w);
      a' := AfterChunk(st, a, request, other, w, k);
    } else {
      OtherwiseHarmless(st, a, request, other, w, k);
    }
  }

  /** An accepted chunk finds a session that waits for the host. */
  lemma StageIsCollect(st: State, a: Account, request: bytes, w: World)
    requires Inv(st, a, w) && Handled(st, true, request)
    requires SigningError(st, Flatten(a.chunks), 0x01, request[3], request[5..]).None?
    ensures st.ins == SignTx && Told(st, a, w) && st.io == ExpectIo && WellFormed(request)
  {
    hide Told, ChunkError, Flatten;
  }

  lemma OtherwiseHarmless(st: State, a: Account, request: bytes, other: OtherStep, w: World, k: nat)
    requires Inv(st, a, w) && Handled(st, true, request) && InstructionOf(request[1]) == Named(request[1])
    requires ErrorFor(st, Flatten(a.chunks), true, request, other).None? && !(request[1] == 0x20 && request[2] == 0x01)
    requires |st.log| <= k < |React(st, Request(true, request, other), w).log|
    ensures !IsSuccess(React(st, Request(true, request, other), w).log[k])
  {
    var st' := Logged(st, Received(request));
    DispatchIs(st', true, request, other, w);
    var o, found := Dispatch(st', true, request, other, w), Found(st', request);
    HandlerTells(st, found, a, request, other, w);
    TellsFound(st, a, request, other);
    hide Inv, SignTransaction, RunOther, Dispatch, Caught, Harmless, SigningError, ErrorFor, IsSuccess;
    if request[1] == 0x20 {
      SignTransactionHarmless(found, request[2], request[3], request[5..], st.ins == NoInstruction, w);
      HarmlessRequest(st, request, o, k);
    } else {
      OtherHarmless(found, other);
      OtherTells(found, other);
      OtherwiseCaught(st, request, o, found, other, k);
    }
  }

  lemma TellsFound(st: State, a: Account, request: bytes, other: OtherStep)
    requires |request| >= 5 && ErrorFor(st, Flatten(a.chunks), true, request, other).None?
    ensures if request[1] == 0x20 then SigningError(st, Flatten(a.chunks), request[2], request[3], request[5..]).None?
            else other.OtherThrows? ==> other.error == ErrAssert
  {
    hide SigningError, HeaderFault;
  }

  lemma OtherwiseCaught(st: State, request: bytes, o: Session.Outcome, found: State, other: OtherStep, k: nat)
    requires found.log == st.log + [Received(request)] && Harmless(found.log, o.0.log)
    requires if other.OtherThrows? then o == (found, Throws(ErrAssert)) else !o.1.Throws?
    requires |st.log| <= k < |Caught(o).log|
    ensures !IsSuccess(Caught(o).log[k])
  {
    if other.OtherThrows? {
      HarmlessRequest(st, request, (found, Reset), k);
    } else {
      HarmlessRequest(st, request, o, k);
    }
  }

  lemma RequestEarned(st: State, a: Account, unlocked: bool, request: bytes, other: OtherStep, w: World, k: nat)
    returns (a': Account)
    requires Inv(st, a, w)
    requires var l := React(st, Request(unlocked, request, other), w).log; |st.log| <= k < |l| && IsSuccess(l[k])
    ensures EarnedAt(React(st, Request(unlocked, request, other), w).log, k, a', w)
  {
    var error, st' := ErrorFor(st, Flatten(a.chunks), unlocked, request, other),
                      React(st, Request(unlocked, request, other), w);
    RequestAnswered(st, a, unlocked, request, other, w);
    a' := a;
    if error.Some? {
      RefusedEarnsNothing(st, request, Answering(st, unlocked, request), error.value, st', k);
    } else if request == [] {
      TurnOfEmpty(st, Flatten(a.chunks), unlocked, other);
      EmptyEarnsNothing(st, unlocked, other, w, k);
    } else {
      MustBeUnlocked(st, Flatten(a.chunks), unlocked, request, other);
      a' := HandledEarned(st, a, request, other, w, k);
    }
  }

  lemma TurnOfEmpty(st: State, sent: bytes, unlocked: bool, other: OtherStep)
    requires ErrorFor(st, sent, unlocked, [], other).None?
    ensures st.io == ExpectIo
  {
  }

  lemma MustBeUnlocked(st: State, sent: bytes, unlocked: bool, request: bytes, other: OtherStep)
    requires ErrorFor(st, sent, unlocked, request, other).None? && request != []
    ensures unlocked
  {
  }

  // All runs

  lemma StepEarned(st: State, a: Account, event: Event, w: World, k: nat) returns (a': Account)
    requires Inv(st, a, w) && |st.log| <= k < |React(st, event, w).log| && IsSuccess(React(st, event, w).log[k])
    ensures EarnedAt(React(st, event, w).log, k, a', w)
  {
    a' := a;
    if event.Request? {
      hide Inv, React, IsSuccess, EarnedAt;
      a' := RequestEarned(st, a, event.unlocked, event.request, event.other, w, k);
    } else if event.Confirm? {
      hide Inv, React, IsSuccess, EarnedAt;
      ConfirmEarned(st, a, event.other, w, k);
    } else if event.Reject? {
      RejectKeeps(st, a, w);
      hide Inv, React, Preserved, Quiet;
    } else {
      PowerLossIsSilent(st, w, k);
      hide Inv, React;
    }
  }

  /** In every run, whatever the host and the user do: a success of the signing instruction is empty behind a
      confirmed opening, the stage behind a chunk the stream took, or the signature behind a confirmed review. */
  lemma {:induction false} EverySuccessEarned(events: seq<Event>, w: World, k: nat) returns (a: Account)
    requires k < |Run(BOOT, events, w).log| && IsSuccess(Run(BOOT, events, w).log[k])
    ensures Earned(Run(BOOT, events, w).log[..k], Run(BOOT, events, w).log[k].reply.data, a, w)
    decreases |events|
  {
    hide Inv, React, Run, Earned, Grown, Signed;
    RunLast(events, w);
    if events == [] {
      assert false;
    } else {
      var prefix, event := events[..|events| - 1], events[|events| - 1];
      var st := Run(BOOT, prefix, w);
      var before := RunKeeps(prefix, w);
      var a' := ReactKeeps(st, before, event, w);
      var st' := React(st, event, w);
      LogGrows(st, st', a', w);
      if k < |st.log| {
        SamePrefix(st.log, st'.log, k);
        assert st'.log[..k] == st.log[..k];
        a := EverySuccessEarned(prefix, w, k);
      } else {
        a := StepEarned(st, before, event, w, k);
      }
    }
  }
}
