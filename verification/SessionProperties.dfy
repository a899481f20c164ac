/** More about all runs of the device: screens, stages, errors and what is left behind. */
module SessionProperties {
  import opened Words
  import opened Rlp
  import opened StreamModel
  import opened Amounts
  import opened Bip44
  import opened World
  import opened Addresses
  import opened Session
  import opened Approval
  import opened Phases
  import opened Transcript
  import opened Safety

  /** In every reachable state a live screen means that the user is expected and that none of its callbacks has
      fired, so a screen fires at most one callback, once; and without a running instruction nothing is live. */
  lemma LiveScreens(events: seq<Event>, w: World)
    ensures var st := Run(BOOT, events, w);
            st.io != ExpectNone
            && (st.flow == FlowText || st.flow == FlowPrompt <==> st.io == ExpectUi)
            && (st.io == ExpectUi ==>
                  !st.display.fired && st.display.confirm != NoCallback
                  && st.display.guard == if st.flow == FlowText then GuardText else GuardPrompt)
            && (st.ins == NoInstruction ==> Quiet(st))
  {
    var a := RunKeeps(events, w);
    ScreensOf(Run(BOOT, events, w), a, w);
  }

  lemma ScreensOf(st: State, a: Account, w: World)
    requires Inv(st, a, w)
    ensures st.io != ExpectNone
            && (st.flow == FlowText || st.flow == FlowPrompt <==> st.io == ExpectUi)
            && (st.io == ExpectUi ==>
                  !st.display.fired && st.display.confirm != NoCallback
                  && st.display.guard == if st.flow == FlowText then GuardText else GuardPrompt)
            && (st.ins == NoInstruction ==> Quiet(st))
  {
    hide Streamed, Begun, Review, Asking, Warning, IsExpectedChain, AmountOf, FeeOf, SignatureOf;
  }

  /** A step that makes the device send an error code, whatever it is, leaves it quiet. */
  lemma FailuresGoIdle(events: seq<Event>, event: Event, w: World, k: nat)
    requires var st := Run(BOOT, events, w);
             var st' := React(st, event, w);
             |st.log| <= k < |st'.log| && IsFailure(st'.log[k])
    ensures Quiet(React(Run(BOOT, events, w), event, w))
  {
    var a := RunKeeps(events, w);
    var st := Run(BOOT, events, w);
    hide Run, React, Inv, Quiet, Script, Checked, Accountable, SignatureOf;
    var a' := ReactKeeps(st, a, event, w);
    var st' := React(st, event, w);
    if Signed(st.log, st'.log, a', w) {
      SignedIsNoFailure(st.log, st'.log, a', w, k);
    }
  }

  lemma SignedIsNoFailure(l: seq<Entry>, l': seq<Entry>, a: Account, w: World, k: nat)
    requires Signed(l, l', a, w) && |l| <= k < |l'|
    ensures !IsFailure(l'[k])
  {
    hide Script, Checked, Accountable, SignatureOf;
    assert l' == l + [Confirmed, Replied(SignTx, Success(SignatureOf(a, w))), ShownIdle];
  }

  // Stages

  ghost predicate StageFollows(before: Stage, after: Stage) {
    after == before || (before == StageInit && after == StageCollect)
    || (before == StageCollect && after == StageFinalize)
  }

  lemma InitUiStepStage(st: State)
    ensures StageFollows(st.ctx.stage, InitUiStep(st).0.ctx.stage)
  {
  }

  lemma TxUiStepStage(st: State, w: World)
    requires st.ctx.uiStep != SendSignature
    ensures TxUiStep(st, w).0.ctx.stage == st.ctx.stage
  {
    hide RecipientText, AddressText, AmountShown, FeeShown, NumberOf;
  }

  lemma SignTransactionStage(st: State, p1: uint8, p2: uint8, data: bytes, w: World)
    requires st.ctx.stage != StageNone
    ensures StageFollows(st.ctx.stage, SignTransaction(st, p1, p2, data, false, w).0.ctx.stage)
  {
    hide ProcessChunk, TxUiStep, IsExpectedChain;
    if st.ctx.stage == StageFinalize && st.ctx.stream.Some? {
      TxUiStepStage(WithHashSigned(st.(io := ExpectUi), w), w);
    }
  }

  lemma FirstStage(st: State, p1: uint8, p2: uint8, data: bytes, w: World)
    requires SignTransaction(st, p1, p2, data, true, w).1.Ok?
    ensures SignTransaction(st, p1, p2, data, true, w).0.ctx.stage == StageInit
  {
    hide Parsed, SignInitPolicy, DisplayText, DisplayPrompt;
    DisplayKeepsContext();
  }

  lemma DisplayKeepsContext()
    ensures forall st, header, text, c :: DisplayText(st, header, text, c).0.ctx == st.ctx
    ensures forall st, header, text, c, d :: DisplayPrompt(st, header, text, c, d).0.ctx == st.ctx
  {
  }

  lemma OtherInstruction(st: State, step: OtherStep)
    ensures RunOther(st, step).0.ins == st.ins || RunOther(st, step).0.ins == NoInstruction
  {
  }

  ghost predicate StageMoved(st: State, st': State) {
    st'.ins == SignTx ==>
      if st.ins == SignTx then StageFollows(st.ctx.stage, st'.ctx.stage)
      else st.ins == NoInstruction && st'.ctx.stage == StageInit
  }

  lemma RequestMoves(st: State, a: Account, unlocked: bool, request: bytes, other: OtherStep, w: World)
    requires Inv(st, a, w)
    ensures StageMoved(st, React(st, Request(unlocked, request, other), w))
  {
    var st' := Logged(st, Received(request));
    DispatchIs(st', unlocked, request, other, w);
    var o := Dispatch(st', unlocked, request, other, w);
    CaughtIs(o);
    if st.ins == SignTx {
      InvReady(st, a, w);
    }
    hide SignTransaction, RunOther, Dispatch, Caught, Inv, Grown;
    if o.1.Ok? {
      var found := Found(st', request);
      if InstructionOf(request[1]) != SignTx {
        OtherInstruction(found, other);
      } else if st.ins == NoInstruction {
        FirstStage(found, request[2], request[3], request[5..], w);
      } else {
        SignTransactionStage(found, request[2], request[3], request[5..], w);
      }
    }
  }

  lemma ConfirmMoves(st: State, a: Account, other: OtherStep, w: World)
    requires Inv(st, a, w)
    ensures StageMoved(st, React(st, Confirm(other), w))
  {
    hide Streamed, Begun, Review, Asking, Warning, Script, Checked, SignatureOf, IsExpectedChain, AmountOf, FeeOf,
         InitUiStep, TxUiStep, RunOther;
    InitUiStepStage(Fired(st));
    OtherInstruction(Fired(st), other);
    if st.ins == SignTx && Reviewing(st, a, w) {
      if st.ctx.uiStep == SendSignature {
        SignatureSent(st, a, w);
      } else {
        TxUiStepStage(Fired(st), w);
      }
    }
  }

  lemma StageMoves(st: State, a: Account, event: Event, w: World)
    requires Inv(st, a, w)
    ensures StageMoved(st, React(st, event, w))
  {
    match event {
      case Request(unlocked, request, other) => RequestMoves(st, a, unlocked, request, other, w);
      case Confirm(other) => ConfirmMoves(st, a, other, w);
      case Reject =>
        hide Inv;
        RejectMoves(st, a, w);
      case PowerLoss =>
    }
  }

  lemma RejectMoves(st: State, a: Account, w: World)
    requires Inv(st, a, w)
    ensures StageMoved(st, React(st, Reject, w))
  {
    RejectKeeps(st, a, w);
    ScreensOf(st, a, w);
    hide Inv, Preserved;
    if st.flow != FlowPrompt {
      assert React(st, Reject, w) == st;
    }
  }

  /** Within a session the stage only moves from opening to collecting to the review, one at a time; a session
      begins with the opening. */
  lemma StageOrder(events: seq<Event>, event: Event, w: World)
    ensures var st := Run(BOOT, events, w);
            var st' := React(st, event, w);
            st'.ins == SignTx ==>
              if st.ins == SignTx then StageFollows(st.ctx.stage, st'.ctx.stage)
              else st.ins == NoInstruction && st'.ctx.stage == StageInit
  {
    var a := RunKeeps(events, w);
    StageMoves(Run(BOOT, events, w), a, event, w);
  }

  // Nothing is left behind

  /** Two states that are the same, or both quiet with the same log; what else they hold may differ. */
  ghost predicate Alike(a: State, b: State) {
    a == b || (Quiet(a) && Quiet(b) && a.log == b.log)
  }

  /** The outcomes of a handler on two states that differ in the display only: the same result, and the same state
      unless the device is about to be quiet. */
  ghost predicate SameOutcome(x: Outcome, y: Outcome) {
    x.1 == y.1 && x.0.log == y.0.log && (x.1.Ok? ==> Alike(x.0, y.0)) && x.0.ins == y.0.ins
  }

  lemma TextAlike(st: State, d: Display, header: string, text: string, confirm: Callback)
    ensures SameOutcome(DisplayText(st, header, text, confirm), DisplayText(st.(display := d), header, text, confirm))
  {
  }

  lemma PromptAlike(st: State, d: Display, header: string, text: string, confirm: Callback, reject: Callback)
    ensures SameOutcome(DisplayPrompt(st, header, text, confirm, reject),
                        DisplayPrompt(st.(display := d), header, text, confirm, reject))
  {
  }

  lemma OtherAlike(st: State, d: Display, step: OtherStep)
    ensures SameOutcome(RunOther(st, step), RunOther(st.(display := d), step))
  {
    hide DisplayText, DisplayPrompt;
    match step {
      case OtherShows(header, text) => TextAlike(st, d, header, text, RunOtherStep);
      case OtherAsks(header, text) => PromptAlike(st, d, header, text, RunOtherStep, RespondWithReject);
      case _ =>
    }
  }

  lemma SigningAlike(st: State, d: Display, p1: uint8, p2: uint8, data: bytes, w: World)
    ensures SameOutcome(SignTransaction(st, p1, p2, data, true, w),
                        SignTransaction(st.(display := d), p1, p2, data, true, w))
  {
    hide SignInit, SameOutcome;
    ClearedAlike(st.(ctx := CLEARED_CONTEXT), d, p1, p2, data, w);
  }

  lemma ClearedAlike(st: State, d: Display, p1: uint8, p2: uint8, data: bytes, w: World)
    requires st.ctx == CLEARED_CONTEXT
    ensures SameOutcome(SignByParameter(st, p1, p2, data, w), SignByParameter(st.(display := d), p1, p2, data, w))
  {
    hide OpenSession, ProcessChunk, SignAndReview;
    if p1 == 0x00 && p2 == 0 {
      hide SameOutcome;
      OpeningAlike(st, d, data);
    }
  }

  lemma OpeningAlike(st: State, d: Display, data: bytes)
    ensures SameOutcome(OpenSession(st, data), OpenSession(st.(display := d), data))
  {
    hide Parsed, SignInitPolicy;
  }

  lemma CaughtAlike(x: Outcome, y: Outcome)
    requires SameOutcome(x, y)
    ensures Alike(Caught(x), Caught(y))
  {
  }

  lemma QuietRequestAlike(a: State, b: State, unlocked: bool, request: bytes, other: OtherStep, w: World)
    requires Quiet(a) && Quiet(b) && a.log == b.log
    ensures var e := Request(unlocked, request, other); Alike(React(a, e, w), React(b, e, w))
  {
    var a', b' := Logged(a, Received(request)), Logged(b, Received(request));
    DispatchAlike(a', b', unlocked, request, other, w);
    hide Dispatch, Caught, Alike, SameOutcome;
    CaughtAlike(Dispatch(a', unlocked, request, other, w), Dispatch(b', unlocked, request, other, w));
  }

  lemma DispatchAlike(a: State, b: State, unlocked: bool, request: bytes, other: OtherStep, w: World)
    requires Quiet(a) && Quiet(b) && a.log == b.log
    ensures SameOutcome(Dispatch(a, unlocked, request, other, w), Dispatch(b, unlocked, request, other, w))
  {
    hide SignTransaction, RunOther, SameOutcome;
    if HeaderError(unlocked, request).None? && request != [] {
      var found := Found(a, request);
      assert Found(b, request) == found.(display := b.display);
      SigningAlike(found, b.display, request[2], request[3], request[5..], w);
      OtherAlike(found, b.display, other);
    } else {
      StoppedAlike(a, b, unlocked, request, other, w);
    }
  }

  lemma StoppedAlike(a: State, b: State, unlocked: bool, request: bytes, other: OtherStep, w: World)
    requires Quiet(a) && Quiet(b) && a.log == b.log && (HeaderError(unlocked, request).Some? || request == [])
    ensures SameOutcome(Dispatch(a, unlocked, request, other, w), Dispatch(b, unlocked, request, other, w))
  {
    hide Handle, HeaderError;
  }

  lemma ReactAlike(a: State, b: State, event: Event, w: World)
    requires Alike(a, b)
    ensures Alike(React(a, event, w), React(b, event, w))
  {
    if a != b {
      match event {
        case Request(unlocked, request, other) => QuietRequestAlike(a, b, unlocked, request, other, w);
        case _ =>
      }
    }
  }

  /** From a quiet state on, whatever a previous instruction left in the context or on the display makes no
      difference to anything the host or the user can see, in any run. */
  lemma {:induction false} NothingLeftBehind(a: State, b: State, events: seq<Event>, w: World)
    requires Quiet(a) && Quiet(b) && a.log == b.log
    ensures Alike(Run(a, events, w), Run(b, events, w)) && Run(a, events, w).log == Run(b, events, w).log
    decreases |events|
  {
    if events != [] {
      var prefix := events[..|events| - 1];
      NothingLeftBehind(a, b, prefix, w);
      hide React;
      ReactAlike(Run(a, prefix, w), Run(b, prefix, w), events[|events| - 1], w);
    }
  }
}
