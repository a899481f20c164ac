/** What the handlers log: no success of the signing instruction except at three places, and no error code. */
module Transcript {
  import opened Words
  import opened Errors
  import opened Rlp
  import opened StreamModel
  import opened Amounts
  import opened Bip44
  import opened World
  import opened Addresses
  import opened Session
  import opened Approval

  // What is logged besides replies

  ghost predicate IsFailure(entry: Entry) {
    entry.Replied? && entry.reply.Failure?
  }

  /** The signing instruction tells the host that a request or a session succeeded. */
  ghost predicate IsSuccess(entry: Entry) {
    entry.Replied? && entry.ins == SignTx && entry.reply.Success?
  }

  /** The log has grown, but by no success of the signing instruction and no error code. */
  ghost predicate Harmless(l: seq<Entry>, l': seq<Entry>) {
    |l| <= |l'| && l'[..|l|] == l && forall k :: |l| <= k < |l'| ==> !IsSuccess(l'[k]) && !IsFailure(l'[k])
  }

  /** The log has grown by no signature, and by an error code only if the device is quiet now. */
  ghost predicate Grown(l: seq<Entry>, l': seq<Entry>, quiet: bool) {
    |l| <= |l'| && l'[..|l|] == l
    && forall k :: |l| <= k < |l'| ==> !IsSignature(l'[k]) && (IsFailure(l'[k]) ==> quiet)
  }

  lemma HarmlessGrown(l: seq<Entry>, l': seq<Entry>, quiet: bool)
    requires Harmless(l, l')
    ensures Grown(l, l', quiet)
  {
  }

  lemma GrownFurther(l: seq<Entry>, l': seq<Entry>, l'': seq<Entry>, quiet: bool)
    requires Grown(l, l', quiet) && Grown(l', l'', quiet)
    ensures Grown(l, l'', quiet)
  {
    assert l''[..|l|] == l''[..|l'|][..|l|];
    forall k | |l| <= k < |l''|
      ensures !IsSignature(l''[k]) && (IsFailure(l''[k]) ==> quiet)
    {
      if k < |l'| {
        assert l''[k] == l''[..|l'|][k];
      }
    }
  }

  lemma GrownMaybe(l: seq<Entry>, l': seq<Entry>, quiet: bool)
    requires Grown(l, l', false)
    ensures Grown(l, l', quiet)
  {
  }

  lemma GrownByFailure(st: State, error: Error)
    ensures Grown(st.log, Send(st, Failure(error)).log, true)
  {
  }

  lemma HarmlessEntry(l: seq<Entry>, entry: Entry)
    requires !IsSuccess(entry) && !IsFailure(entry)
    ensures Harmless(l, l + [entry])
  {
  }

  lemma HarmlessBoth(l: seq<Entry>, l': seq<Entry>, l'': seq<Entry>)
    requires Harmless(l, l') && Harmless(l', l'')
    ensures Harmless(l, l'')
  {
    assert l''[..|l|] == l''[..|l'|][..|l|];
    forall k | |l| <= k < |l''|
      ensures !IsSuccess(l''[k]) && !IsFailure(l''[k])
    {
      if k < |l'| {
        assert l''[k] == l''[..|l'|][k];
      }
    }
  }

  lemma SendHarmless(st: State, reply: Reply)
    requires reply.Success? && st.ins != SignTx
    ensures Harmless(st.log, Send(st, reply).log)
  {
    HarmlessEntry(st.log, Replied(st.ins, reply));
  }

  lemma ScreensHarmless(st: State, header: string, text: string, confirm: Callback, reject: Callback)
    ensures Harmless(st.log, DisplayText(st, header, text, confirm).0.log)
    ensures Harmless(st.log, DisplayPrompt(st, header, text, confirm, reject).0.log)
    ensures Harmless(st.log, DisplayBusy(st).0.log)
    ensures Harmless(st.log, GoIdle(st).log) && Harmless(st.log, Restart(st).log)
  {
    HarmlessEntry(st.log, Shown(header, text));
    HarmlessEntry(st.log, Asked(header, text));
    HarmlessEntry(st.log, ShownBusy);
    HarmlessEntry(st.log, ShownIdle);
    HarmlessEntry(st.log, Restarted);
    hide Harmless, IsSuccess;
    HarmlessNothing(st.log);
  }

  lemma HarmlessNothing(l: seq<Entry>)
    ensures Harmless(l, l)
  {
  }

  lemma InitUiStepHarmless(st: State)
    requires st.ctx.uiStep != RespondInit
    ensures Harmless(st.log, InitUiStep(st).0.log)
  {
    hide Harmless, DisplayText, DisplayPrompt, DisplayBusy, Send;
    HarmlessNothing(st.log);
    ScreensHarmless(st, "Unusual Request", "Be careful!", RunInitStep, NoCallback);
    ScreensHarmless(st, "Start New", "Transaction?", RunInitStep, RespondWithReject);
  }

  /** A success with fewer than 65 bytes is no signature. */
  lemma GrownByReply(l: seq<Entry>, ins: Instruction, data: bytes, quiet: bool)
    requires |data| != 65
    ensures Grown(l, l + [Replied(ins, Success(data)), ShownBusy], quiet)
  {
  }

  lemma TxUiStepHarmless(st: State, w: World)
    requires st.ctx.uiStep != SendSignature
    ensures Harmless(st.log, TxUiStep(st, w).0.log)
  {
    hide Harmless, DisplayText, DisplayPrompt, RecipientText, AddressText, AmountShown, FeeShown, NumberOf;
    HarmlessNothing(st.log);
    if st.ctx.stage == StageFinalize && st.ctx.stream.Some? {
      var tx := st.ctx.stream.value.tx;
      match st.ctx.uiStep {
        case ShowRecipient => ScreensHarmless(st, "Send To", RecipientText(tx.recipient, w), RunTxStep, NoCallback);
        case ShowSender =>
          if 0 < st.ctx.senderLength <= 20 {
            ScreensHarmless(st, "Send From", AddressText(st.ctx.sender, st.ctx.senderLength, w), RunTxStep, NoCallback);
          }
        case ShowAmount => ScreensHarmless(st, "Amount (FTM)", TextOf(AmountOf(tx)), RunTxStep, NoCallback);
        case ShowFee => ScreensHarmless(st, "Max Fee (FTM)", TextOf(FeeOf(tx)), RunTxStep, NoCallback);
        case ShowContractCall => ScreensHarmless(st, "Smart Contract", "Alert", RunTxStep, NoCallback);
        case AskSend => ScreensHarmless(st, "Send", "Transaction?", RunTxStep, RespondWithReject);
        case _ =>
      }
    }
  }

  lemma OtherHarmless(st: State, step: OtherStep)
    requires st.ins != SignTx
    ensures Harmless(st.log, RunOther(st, step).0.log)
  {
    hide Harmless, DisplayText, DisplayPrompt, GoIdle, Send;
    HarmlessNothing(st.log);
    match step {
      case OtherReplies(data) =>
        var sent := Send(st, Success(data));
        SendHarmless(st, Success(data));
        ScreensHarmless(sent, "", "", NoCallback, NoCallback);
        HarmlessBoth(st.log, sent.log, GoIdle(sent).log);
      case OtherShows(header, text) => ScreensHarmless(st, header, text, RunOtherStep, NoCallback);
      case OtherAsks(header, text) => ScreensHarmless(st, header, text, RunOtherStep, RespondWithReject);
      case _ =>
    }
  }

  lemma SignTransactionHarmless(st: State, p1: uint8, p2: uint8, data: bytes, isOnInit: bool, w: World)
    requires p1 != 0x01
    ensures Harmless(st.log, SignTransaction(st, p1, p2, data, isOnInit, w).0.log)
  {
    hide Harmless, DisplayBusy, Send, InitUiStep, TxUiStep, ProcessChunk, Parsed, SignInitPolicy, IsExpectedChain;
    HarmlessNothing(st.log);
    var st' := if isOnInit then st.(ctx := CLEARED_CONTEXT) else st;
    if p1 == 0x00 {
      SignInitHarmless(st', p2, data);
    } else if p1 == 0x80 {
      SignFinalizeHarmless(st', p2, data, w);
    }
  }

  lemma SignInitHarmless(st: State, p2: uint8, data: bytes)
    ensures Harmless(st.log, SignInit(st, p2, data).0.log)
  {
    hide Harmless, InitUiStep, Parsed, SignInitPolicy;
    HarmlessNothing(st.log);
    var parsed := Parsed(data);
    if st.ctx.stage == StageNone && p2 == 0 && parsed.Ok? && parsed.value.1 == |data| {
      var st' := Prepared(st).(ctx := Prepared(st).ctx.(path := parsed.value.0));
      InitUiStepHarmless(st'.(ctx := st'.ctx.(uiStep := WarnInit)));
      InitUiStepHarmless(st'.(ctx := st'.ctx.(uiStep := AskInit)));
    }
  }

  /** A chunk is acknowledged with the stage, or nothing is logged. */
  lemma SignCollectReplies(st: State, p2: uint8, data: bytes)
    ensures var o := SignCollect(st, p2, data);
            if o.1.Ok? then o.0.log == st.log + [Replied(st.ins, Success([o.0.ctx.stage.Code()])), ShownBusy]
            else o.0.log == st.log
  {
    hide ProcessChunk, Stage.Code;
  }

  /** No handler sends a signature when it is called. */
  lemma SignTransactionGrown(st: State, p1: uint8, p2: uint8, data: bytes, isOnInit: bool, w: World)
    ensures Grown(st.log, SignTransaction(st, p1, p2, data, isOnInit, w).0.log, false)
  {
    hide Harmless, Grown, SignCollect, SignInit, SignFinalize;
    HarmlessNothing(st.log);
    if p1 == 0x01 {
      var st' := if isOnInit then st.(ctx := CLEARED_CONTEXT) else st;
      SignCollectReplies(st', p2, data);
      var o := SignCollect(st', p2, data);
      HarmlessGrown(st.log, st.log, false);
      GrownByReply(st.log, st.ins, [o.0.ctx.stage.Code()], false);
    } else {
      SignTransactionHarmless(st, p1, p2, data, isOnInit, w);
      HarmlessGrown(st.log, SignTransaction(st, p1, p2, data, isOnInit, w).0.log, false);
    }
  }

  lemma SignFinalizeHarmless(st: State, p2: uint8, data: bytes, w: World)
    ensures Harmless(st.log, SignFinalize(st, p2, data, w).0.log)
  {
    hide Harmless, TxUiStep, IsExpectedChain, Overwritten;
    HarmlessNothing(st.log);
    if st.ctx.stage == StageFinalize && st.ctx.stream.Some? {
      TxUiStepHarmless(WithHashSigned(st.(io := ExpectUi), w), w);
    }
  }
}
