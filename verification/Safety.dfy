/** Safety of the signing session over all runs. */
module Safety {
  import opened Errors
  import opened Rlp
  import opened StreamModel
  import opened World
  import opened Session
  import opened Approval
  import opened Phases
  import opened Transcript

  lemma StreamedWaits(a: Account)
    requires Streamed(a).1 != Fault
    ensures Waiting(Streamed(a).0)
  {
    InitialWaits();
    FeedKeepsWaiting(INITIAL, Flatten(a.chunks), false);
  }

  /** The stream of a running session can go on. */
  lemma InvReady(st: State, a: Account, w: World)
    requires Inv(st, a, w) && st.ins == SignTx
    ensures st.ctx.stage != StageNone && st.ctx.stream.Some? && Waiting(st.ctx.stream.value)
  {
    InitialWaits();
    hide Streamed, Begun, Review, Asking, Warning, IsExpectedChain, AmountOf, FeeOf, SignatureOf, Waiting;
    if !BeingOpened(st, a) {
      StreamedWaits(a);
    }
  }

  /** Only a signing session shows screens that lead on to the next step of the review. */
  lemma ScreenOfSession(st: State, a: Account, w: World)
    requires Inv(st, a, w) && (st.flow == FlowText || st.flow == FlowPrompt)
    ensures st.display.reject != RunTxStep && (st.display.confirm == RunTxStep ==> st.ins == SignTx)
  {
    hide Streamed, Begun, Review, Asking, Warning, IsExpectedChain, AmountOf, FeeOf, SignatureOf;
  }

  // One step

  /** A request that reaches a handler, and the state the handler finds. */
  ghost predicate Handled(st: State, unlocked: bool, request: bytes) {
    st.io == ExpectIo && unlocked && WellFormed(request) && InstructionOf(request[1]) != NoInstruction
    && (st.ins == NoInstruction || st.ins == InstructionOf(request[1]))
  }

  ghost function Found(st: State, request: bytes): State
    requires |request| >= 2
  {
    var st' := st.(io := ExpectNone);
    if st.ins == NoInstruction then st'.(ctx := CLEARED_CONTEXT, ins := InstructionOf(request[1])) else st'
  }

  /** A request reaches a handler exactly when it comes in turn to an unlocked device, is well formed, names a known
      instruction and fits the one that is running; any other request is refused and changes nothing but the turn. */
  lemma DispatchIs(st: State, unlocked: bool, request: bytes, other: OtherStep, w: World)
    ensures var o := Dispatch(st, unlocked, request, other, w);
            if Handled(st, unlocked, request) then
              o == if InstructionOf(request[1]) == SignTx then
                     SignTransaction(Found(st, request), request[2], request[3], request[5..],
                                     st.ins == NoInstruction, w)
                   else RunOther(Found(st, request), other)
            else !o.1.Ok? && (o.0 == st || o.0 == st.(io := ExpectNone))
  {
    hide SignTransaction, RunOther;
  }

  lemma CaughtIs(o: Outcome)
    ensures if o.1.Ok? then Caught(o) == o.0 else Quiet(Caught(o))
    ensures Grown(o.0.log, Caught(o).log, Quiet(Caught(o)))
  {
    hide Harmless, Grown;
    HarmlessNothing(o.0.log);
    HarmlessGrown(o.0.log, o.0.log, Quiet(Caught(o)));
    if o.1.Throws? {
      var sent := Send(o.0, Failure(o.1.error));
      GrownByFailure(o.0, o.1.error);
      ScreensHarmless(sent, "", "", NoCallback, NoCallback);
      HarmlessGrown(sent.log, GoIdle(sent).log, true);
      GrownFurther(o.0.log, sent.log, GoIdle(sent).log, true);
    }
    ScreensHarmless(o.0, "", "", NoCallback, NoCallback);
    HarmlessGrown(o.0.log, Restart(o.0).log, true);
  }

  /** What a request makes the device log. */
  lemma RequestGrown(st: State, unlocked: bool, request: bytes, other: OtherStep, w: World)
    ensures var st' := React(st, Request(unlocked, request, other), w); Grown(st.log, st'.log, Quiet(st'))
  {
    hide Harmless, Grown, SignTransaction, RunOther, Dispatch, Caught, Quiet;
    var st' := Logged(st, Received(request));
    HarmlessEntry(st.log, Received(request));
    HarmlessNothing(st'.log);
    DispatchIs(st', unlocked, request, other, w);
    var o := Dispatch(st', unlocked, request, other, w);
    HarmlessGrown(st.log, st'.log, false);
    HarmlessGrown(st'.log, st'.log, false);
    if Handled(st', unlocked, request) {
      if InstructionOf(request[1]) == SignTx {
        SignTransactionGrown(Found(st', request), request[2], request[3], request[5..], st'.ins == NoInstruction, w);
      } else {
        OtherHarmless(Found(st', request), other);
        HarmlessGrown(st'.log, o.0.log, false);
      }
    }
    CaughtIs(o);
    GrownFurther(st.log, st'.log, o.0.log, false);
    GrownMaybe(st.log, o.0.log, Quiet(Caught(o)));
    GrownFurther(st.log, o.0.log, Caught(o).log, Quiet(Caught(o)));
  }

  lemma OtherFollows(st: State, step: OtherStep)
    requires st.ins != SignTx && st.ins != NoInstruction && st.io != ExpectIo
    ensures var o := RunOther(st, step);
            !o.1.Ok? || Quiet(o.0) || (o.0.ins == st.ins && Live(o.0, RunOtherStep))
  {
  }

  /** The invariant after a handler has been called and its exceptions caught. */
  lemma SettledSign(o: Outcome, a: Account, w: World)
    requires Follows(o, a, w)
    ensures Inv(Caught(o), a, w)
  {
    hide Told, Caught;
    CaughtIs(o);
  }

  lemma SettledOther(o: Outcome, a: Account, w: World)
    requires !o.1.Ok? || Quiet(o.0) || (o.0.ins != SignTx && o.0.ins != NoInstruction && Live(o.0, RunOtherStep))
    ensures Inv(Caught(o), a, w)
  {
    hide Told, Caught;
    CaughtIs(o);
  }

  lemma RequestKeeps(st: State, a: Account, unlocked: bool, request: bytes, other: OtherStep, w: World)
    returns (a': Account)
    requires Inv(st, a, w)
    ensures Inv(React(st, Request(unlocked, request, other), w), a', w)
  {
    hide Told, SignTransaction, RunOther, Dispatch, Caught, Follows, Live;
    var st' := Logged(st, Received(request));
    DispatchIs(st', unlocked, request, other, w);
    var o := Dispatch(st', unlocked, request, other, w);
    a' := a;
    if !Handled(st', unlocked, request) {
      SettledOther(o, a, w);
    } else if InstructionOf(request[1]) == SignTx {
      if st.ins == NoInstruction {
        a' := OpeningRequest(Found(st', request), request, w);
      } else {
        a' := SessionRequest(st, a, request, w);
      }
      SettledSign(o, a', w);
    } else {
      OtherFollows(Found(st', request), other);
      if st.ins != NoInstruction {
        LiveExpectsUser(st, RunOtherStep);
      }
      SettledOther(o, a, w);
    }
  }

  lemma LiveExpectsUser(st: State, confirm: Callback)
    requires Live(st, confirm)
    ensures st.io == ExpectUi
  {
  }

  lemma SessionRequest(st: State, a: Account, request: bytes, w: World) returns (a': Account)
    requires Told(st, a, w) && st.ins == SignTx && st.io == ExpectIo
    requires WellFormed(request) && request[1] == 0x20
    ensures var st' := Logged(st, Received(request)).(io := ExpectNone);
            Follows(SignTransaction(st', request[2], request[3], request[5..], false, w), a', w)
  {
    hide SignTransaction, Follows, Streamed, Begun, Review, Asking, Warning, IsExpectedChain, AmountOf, FeeOf,
         SignatureOf;
    if Collecting(st, a) {
      a' := ChunkRequest(st, a, request, w);
    } else {
      a' := a;
      FinalRequest(st, a, request, w);
    }
  }

  // Buttons

  /** What a step leaves of the account, and what it logs. */
  ghost predicate Preserved(st: State, st': State, a: Account, w: World) {
    Inv(st', a, w) && (Grown(st.log, st'.log, Quiet(st')) || Signed(st.log, st'.log, a, w))
  }

  /** The same of a step that sends no error code. */
  ghost predicate Unfailing(st: State, st': State, a: Account, w: World) {
    Inv(st', a, w) && (Grown(st.log, st'.log, false) || Signed(st.log, st'.log, a, w))
  }

  lemma UnfailingPreserves(st: State, st': State, a: Account, w: World)
    requires Unfailing(st, st', a, w)
    ensures Preserved(st, st', a, w)
  {
    hide Inv, Signed, Grown;
    if Grown(st.log, st'.log, false) {
      GrownMaybe(st.log, st'.log, Quiet(st'));
    }
  }

  lemma ButtonIs(st: State, confirm: Callback, other: OtherStep, w: World)
    requires Live(st, confirm) && confirm != NoCallback
    ensures var o := RunCallback(Fired(st), confirm, other, w);
            React(st, Confirm(other), w) == if o.1.Ok? then o.0 else Restart(o.0)
  {
    hide RunCallback, Restart;
  }

  lemma RestartUnfailing(st: State, o: Outcome, a: Account, w: World)
    requires Harmless(st.log, o.0.log)
    ensures Unfailing(st, Restart(o.0), a, w)
  {
    hide Harmless, Grown, Told;
    ScreensHarmless(o.0, "", "", NoCallback, NoCallback);
    HarmlessBoth(st.log, o.0.log, Restart(o.0).log);
    HarmlessGrown(st.log, Restart(o.0).log, false);
  }

  lemma FiredHarmless(st: State)
    ensures Harmless(st.log, Fired(st).log)
  {
    HarmlessEntry(st.log, Confirmed);
  }

  lemma ConfirmOther(st: State, a: Account, other: OtherStep, w: World)
    requires Live(st, RunOtherStep) && st.ins != SignTx && st.ins != NoInstruction
    ensures Unfailing(st, React(st, Confirm(other), w), a, w)
  {
    ButtonIs(st, RunOtherStep, other, w);
    hide RunOther, Harmless, Grown, Told, Live, React, Restart;
    FiredHarmless(st);
    var o := RunOther(Fired(st), other);
    OtherHarmless(Fired(st), other);
    HarmlessBoth(st.log, Fired(st).log, o.0.log);
    LiveExpectsUser(st, RunOtherStep);
    OtherFollows(Fired(st), other);
    HarmlessGrown(st.log, o.0.log, false);
    RestartUnfailing(st, o, a, w);
  }

  lemma ConfirmInit(st: State, a: Account, other: OtherStep, w: World)
    requires Accountable(a) && st.ins == SignTx && st.ctx.path == a.path && BeingOpened(st, a)
    ensures Unfailing(st, React(st, Confirm(other), w), a, w)
  {
    ButtonIs(st, RunInitStep, other, w);
    hide InitUiStep, Harmless, Grown, Live, React, Restart, BeingOpened, Collecting, Unfailing, Fired;
    OpeningGoesOn(st, a, w);
    InitLogGrows(st);
    InitUnfailing(st, InitUiStep(Fired(st)).0, a, w);
  }

  lemma InitLogGrows(st: State)
    ensures Grown(st.log, InitUiStep(Fired(st)).0.log, false)
  {
    hide InitUiStep, Harmless, Grown, Fired;
    var o := InitUiStep(Fired(st));
    FiredHarmless(st);
    HarmlessGrown(st.log, Fired(st).log, false);
    if Fired(st).ctx.uiStep == RespondInit {
      OpeningReplies(Fired(st));
      HarmlessNothing(Fired(st).log);
      HarmlessGrown(Fired(st).log, Fired(st).log, false);
      GrownByReply(Fired(st).log, Fired(st).ins, [], false);
    } else {
      InitUiStepHarmless(Fired(st));
      HarmlessGrown(Fired(st).log, o.0.log, false);
    }
    GrownFurther(st.log, Fired(st).log, o.0.log, false);
  }

  /** The confirmed opening is answered with an empty success. */
  lemma OpeningReplies(st: State)
    requires st.ctx.uiStep == RespondInit
    ensures InitUiStep(st).0.log
            == if st.ctx.stage == StageInit then st.log + [Replied(st.ins, Success([])), ShownBusy] else st.log
  {
  }

  lemma OpeningGoesOn(st: State, a: Account, w: World)
    requires Accountable(a) && st.ins == SignTx && st.ctx.path == a.path && BeingOpened(st, a)
    ensures var o := InitUiStep(Fired(st));
            o.1.Ok? && (BeingOpened(o.0, a) || Collecting(o.0, a)) && o.0.ins == SignTx && o.0.ctx.path == a.path
  {
    StepOfOpening(st, a);
    hide InitUiStep, BeingOpened, Collecting, Fired;
    if st.ctx.uiStep == AskInit {
      WarningConfirmed(st, a, w);
    } else {
      PromptConfirmed(st, a);
    }
  }

  lemma StepOfOpening(st: State, a: Account)
    requires Accountable(a) && BeingOpened(st, a)
    ensures st.ctx.uiStep == AskInit || st.ctx.uiStep == RespondInit
  {
    hide Warning, Asking, Live;
  }

  lemma InitUnfailing(st: State, st': State, a: Account, w: World)
    requires Accountable(a) && st'.ins == SignTx && st'.ctx.path == a.path
    requires BeingOpened(st', a) || Collecting(st', a)
    requires Grown(st.log, st'.log, false)
    ensures Unfailing(st, st', a, w)
  {
    hide BeingOpened, Collecting, Collected, Reviewing;
  }

  lemma ContinuesUnfailing(st: State, a: Account, w: World, o: Outcome)
    requires Accountable(a) && st.ctx.path == a.path && Continues(st, a, w, o) && o.1.Ok? && Harmless(st.log, o.0.log)
    ensures Unfailing(st, o.0, a, w)
  {
    hide Harmless, Grown, Reviewing, Collecting, Collected, BeingOpened;
    HarmlessGrown(st.log, o.0.log, false);
  }

  lemma SignedUnfailing(st: State, st': State, a: Account, w: World)
    requires Quiet(st') && Signed(st.log, st'.log, a, w)
    ensures Unfailing(st, st', a, w)
  {
    hide Grown, Signed, Told;
  }

  lemma ConfirmReview(st: State, a: Account, other: OtherStep, w: World)
    requires Accountable(a) && st.ins == SignTx && st.ctx.path == a.path && Reviewing(st, a, w)
    ensures Unfailing(st, React(st, Confirm(other), w), a, w)
  {
    ReviewIsLive(st, a, w);
    ButtonIs(st, RunTxStep, other, w);
    ReviewKnows(st, a, w);
    hide TxUiStep, Harmless, Grown, Live, React, Restart, Streamed, SignatureOf, IsExpectedChain, AmountOf, FeeOf,
         Fired,
         Reviewing, Checked, Signed, Continues, Unfailing, Quiet;
    var o := TxUiStep(Fired(st), w);
    if st.ctx.uiStep == SendSignature {
      SignatureSent(st, a, w);
      SignedUnfailing(st, o.0, a, w);
    } else {
      FiredHarmless(st);
      TxUiStepHarmless(Fired(st), w);
      HarmlessBoth(st.log, Fired(st).log, o.0.log);
      ScreenConfirmed(st, a, w);
      if o.1.Ok? {
        ContinuesUnfailing(st, a, w, o);
      } else {
        RestartUnfailing(st, o, a, w);
      }
    }
  }

  lemma ReviewIsLive(st: State, a: Account, w: World)
    requires Accountable(a) && Reviewing(st, a, w)
    ensures Live(st, RunTxStep)
  {
    hide Live, AmountOf, FeeOf, Review, Streamed, Begun;
  }

  /** A confirmed screen brings the next one, the signature or a reset, but no error code. */
  lemma ConfirmKeeps(st: State, a: Account, other: OtherStep, w: World)
    requires Inv(st, a, w)
    ensures Unfailing(st, React(st, Confirm(other), w), a, w)
  {
    hide Streamed, Begun, Review, Asking, Warning, Script, SignatureOf, IsExpectedChain, AmountOf, FeeOf, Button,
         Harmless, Grown, Signed;
    HarmlessNothing(st.log);
    HarmlessGrown(st.log, st.log, false);
    if st.ins == SignTx {
      if BeingOpened(st, a) {
        ConfirmInit(st, a, other, w);
      } else if Reviewing(st, a, w) {
        ConfirmReview(st, a, other, w);
      } else {
        assert React(st, Confirm(other), w) == st;
      }
    } else if st.ins != NoInstruction {
      ConfirmOther(st, a, other, w);
    }
  }

  lemma RejectGrown(st: State)
    ensures Grown(st.log, RespondReject(Logged(st, Rejected)).log, true)
  {
    hide Harmless, Grown;
    var rejected := Logged(st, Rejected);
    var sent := Send(rejected, Failure(ErrRejectedByUser));
    HarmlessEntry(st.log, Rejected);
    HarmlessGrown(st.log, rejected.log, true);
    GrownByFailure(rejected, ErrRejectedByUser);
    ScreensHarmless(sent, "", "", NoCallback, NoCallback);
    HarmlessGrown(sent.log, GoIdle(sent).log, true);
    GrownFurther(st.log, rejected.log, sent.log, true);
    GrownFurther(st.log, sent.log, GoIdle(sent).log, true);
  }

  /** A rejected prompt is answered with the error code of a rejection, and the device goes idle. */
  lemma RejectKeeps(st: State, a: Account, w: World)
    requires Inv(st, a, w)
    ensures Preserved(st, React(st, Reject, w), a, w)
    ensures if st.flow != FlowPrompt then React(st, Reject, w) == st
            else Quiet(React(st, Reject, w))
                 && React(st, Reject, w).log
                    == st.log + [Rejected, Replied(st.ins, Failure(ErrRejectedByUser)), ShownIdle]
  {
    hide Streamed, Begun, Review, Asking, Warning, Script, SignatureOf, IsExpectedChain, AmountOf, FeeOf, Harmless,
         Grown,
         Signed;
    HarmlessNothing(st.log);
    HarmlessGrown(st.log, st.log, Quiet(st));
    RejectGrown(st);
    assert st.log + [Rejected] + [Replied(st.ins, Failure(ErrRejectedByUser))] + [ShownIdle]
        == st.log + [Rejected, Replied(st.ins, Failure(ErrRejectedByUser)), ShownIdle];
  }

  // All runs

  lemma ReactKeeps(st: State, a: Account, event: Event, w: World) returns (a': Account)
    requires Inv(st, a, w)
    ensures Preserved(st, React(st, event, w), a', w)
  {
    hide Inv, React, Grown, Signed;
    match event {
      case Request(unlocked, request, other) =>
        a' := RequestKeeps(st, a, unlocked, request, other, w);
        RequestGrown(st, unlocked, request, other, w);
      case Confirm(other) =>
        a' := a;
        ConfirmKeeps(st, a, other, w);
        UnfailingPreserves(st, React(st, event, w), a, w);
      case Reject =>
        a' := a;
        RejectKeeps(st, a, w);
      case PowerLoss =>
        a' := a;
        PowerLossKeeps(st, a, w);
    }
  }

  lemma PowerLossKeeps(st: State, a: Account, w: World)
    ensures Preserved(st, React(st, PowerLoss, w), a, w)
  {
    hide Harmless, Grown;
    ScreensHarmless(st, "", "", NoCallback, NoCallback);
    HarmlessGrown(st.log, Restart(st).log, true);
  }

  /** Every reachable state satisfies the invariant. */
  lemma {:induction false} RunKeeps(events: seq<Event>, w: World) returns (a: Account)
    ensures Inv(Run(BOOT, events, w), a, w)
    decreases |events|
  {
    if events == [] {
      a := Account([], [], []);
    } else {
      var before := RunKeeps(events[..|events| - 1], w);
      hide Inv, React;
      a := ReactKeeps(Run(BOOT, events[..|events| - 1], w), before, events[|events| - 1], w);
    }
  }

  /** In every run, whatever the host and the user do: when a signature is sent, the log up to it ends with the
      complete script of the session, and everything was checked. */
  lemma {:induction false} EverySignatureApproved(events: seq<Event>, w: World, k: nat) returns (a: Account)
    requires k < |Run(BOOT, events, w).log| && IsSignature(Run(BOOT, events, w).log[k])
    ensures Accountable(a) && Checked(a) && Run(BOOT, events, w).log[..k + 1] == Script(a, w)
    decreases |events|
  {
    hide Inv, React, Run, Script, Checked, Accountable, Grown, Signed, IsSignature;
    RunLast(events, w);
    if events == [] {
      assert false;
    } else {
      var prefix, event := events[..|events| - 1], events[|events| - 1];
      var st := Run(BOOT, prefix, w);
      var before := RunKeeps(prefix, w);
      var a' := ReactKeeps(st, before, event, w);
      var st' := React(st, event, w);
      LogGrows(st, st', a', w);
      if k < |st.log| {
        SamePrefix(st.log, st'.log, k);
        a := EverySignatureApproved(prefix, w, k);
      } else {
        a := a';
        NewSignature(st, st', a', w, k);
      }
    }
  }

  lemma RunLast(events: seq<Event>, w: World)
    ensures if events == [] then Run(BOOT, events, w).log == []
            else Run(BOOT, events, w) == React(Run(BOOT, events[..|events| - 1], w), events[|events| - 1], w)
  {
    hide React;
  }

  lemma SamePrefix(l: seq<Entry>, l': seq<Entry>, k: nat)
    requires k < |l| <= |l'| && l'[..|l|] == l
    ensures l'[k] == l[k] && l'[..k + 1] == l[..k + 1]
  {
    assert l'[k] == l'[..|l|][k];
    assert l'[..k + 1] == l'[..|l|][..k + 1];
  }

  lemma LogGrows(st: State, st': State, a: Account, w: World)
    requires Preserved(st, st', a, w)
    ensures |st.log| <= |st'.log| && st'.log[..|st.log|] == st.log
  {
    hide Inv, Script, Checked, Accountable;
  }

  lemma NewSignature(st: State, st': State, a: Account, w: World, k: nat)
    requires Preserved(st, st', a, w) && |st.log| <= k < |st'.log| && IsSignature(st'.log[k])
    ensures Accountable(a) && Checked(a) && st'.log[..k + 1] == Script(a, w)
  {
    hide Inv, Script, Checked, Accountable, SignatureOf;
    var end := [Confirmed, Replied(SignTx, Success(SignatureOf(a, w)))];
    assert st'.log == st.log + end + [ShownIdle];
    assert k == |st.log| + 1;
  }
}
