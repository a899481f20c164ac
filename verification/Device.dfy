/** The device: the handlers of src/get_tx_sign.c, the screens of src/ui_helpers.c and one round of the main loop of
    src/main.c, on state that is updated in place.  Every method does what the function of Session.dfy says. */
module Device {
  import opened Words
  import opened Errors
  import opened Rlp
  import opened StreamModel
  import opened Amounts
  import opened Bip44
  import opened World
  import opened Addresses
  import opened Session
  import opened UiSteps
  import opened Approval
  import opened Phases
  import opened Transcript
  import opened Safety
  import opened SigningContext

  class Application {
    const w: World
    var ioState: Io
    var currentIns: Instruction
    var ctx: SignContext
    var flow: Flow
    var displayState: Display
    /** What the host and the user have seen and done. */
    var log: seq<Entry>
    /** The session that is running, as the log tells it. */
    ghost var account: Account

    /** After the first boot. */
    constructor (w: World)
      ensures this.w == w && Running() && fresh(ctx.Repr()) && Abstract() == BOOT
    {
      this.w := w;
      account := Account([], [], []);
      ioState, currentIns, flow, displayState, log := ExpectIo, NoInstruction, FlowIdle, CLEARED_DISPLAY, [];
      ctx := new SignContext();
    }

    ghost predicate Valid()
      reads this, ctx, ctx.path, ctx.stream
    {
      ctx.Valid() && this !in ctx.Repr()
    }

    ghost function Abstract(): State
      requires Valid()
      reads this, ctx, ctx.path, ctx.stream, ctx.Repr()
    {
      State(ioState, currentIns, ctx.Model(), flow, displayState, log)
    }

    // src/io.c and src/menu.c

    /** `io_send_buf`. */
    method SendBuf(reply: Reply)
      requires Valid()
      modifies this
      ensures Valid() && ctx == old(ctx) && Abstract() == Send(old(Abstract()), reply)
    {
      hide SignContext.Valid, SignContext.Model;
      log := log + [Replied(currentIns, reply)];
      ioState := ExpectIo;
    }

    /** `ui_idle`. */
    method UiIdle()
      requires Valid()
      modifies this
      ensures Valid() && ctx == old(ctx) && Abstract() == GoIdle(old(Abstract()))
    {
      hide SignContext.Valid, SignContext.Model;
      currentIns := NoInstruction;
      flow := FlowIdle;
      log := log + [ShownIdle];
    }

    // src/ui_helpers.c

    /** `ui_displayPaginatedText`. */
    method DisplayPaginatedText(header: string, text: string, callback: Callback) returns (r: Result<()>)
      requires Valid()
      modifies this
      ensures Valid() && ctx == old(ctx) && (Abstract(), r) == DisplayText(old(Abstract()), header, text, callback)
    {
      hide SignContext.Valid, SignContext.Model;
      if !(|header| < 30 && |text| < 200) {
        return Reset;
      }
      displayState := Display(GuardText, header, text, false, callback, NoCallback);
      if !(ioState == ExpectNone || ioState == ExpectUi) {
        return Reset;
      }
      ioState := ExpectUi;
      flow := FlowText;
      log := log + [Shown(header, text)];
      r := Ok(());
    }

    /** `ui_displayPrompt`. */
    method DisplayQuestion(header: string, body: string, confirm: Callback, reject: Callback) returns (r: Result<()>)
      requires Valid()
      modifies this
      ensures Valid() && ctx == old(ctx)
      ensures (Abstract(), r) == DisplayPrompt(old(Abstract()), header, body, confirm, reject)
    {
      hide SignContext.Valid, SignContext.Model;
      if !(|header| < 30 && |body| < 30) {
        return Reset;
      }
      displayState := Display(GuardPrompt, header, body, false, confirm, reject);
      assert Abstract() == old(Abstract()).(display := displayState);
      if !(ioState == ExpectNone || ioState == ExpectUi) {
        return Reset;
      }
      ioState := ExpectUi;
      flow := FlowPrompt;
      log := log + [Asked(header, body)];
      r := Ok(());
    }

    /** `ui_displayBusy`. */
    method DisplayBusyScreen() returns (r: Result<()>)
      requires Valid()
      modifies this
      ensures Valid() && ctx == old(ctx) && (Abstract(), r) == DisplayBusy(old(Abstract()))
    {
      hide SignContext.Valid, SignContext.Model;
      displayState := CLEARED_DISPLAY;
      if !(ioState == ExpectNone || ioState == ExpectIo) {
        return Reset;
      }
      flow := FlowBusy;
      log := log + [ShownBusy];
      r := Ok(());
    }

    /** `ui_respondWithUserReject`. */
    method RespondWithUserReject()
      requires Valid()
      modifies this
      ensures Valid() && ctx == old(ctx) && Abstract() == RespondReject(old(Abstract()))
    {
      hide SignContext.Valid, SignContext.Model, Send, GoIdle;
      SendBuf(Failure(ErrRejectedByUser));
      UiIdle();
    }

    // src/get_tx_sign.c

    /** Assignments to the context. */
    method SetStage(stage: Stage)
      requires Valid()
      modifies ctx`stage
      ensures Valid() && Abstract() == old(Abstract()).(ctx := old(Abstract()).ctx.(stage := stage))
    {
      hide SignContext.Model;
      ctx.SetStage(stage);
    }

    method SetUiStep(uiStep: UiStep)
      requires Valid()
      modifies ctx`uiStep
      ensures Valid() && Abstract() == old(Abstract()).(ctx := old(Abstract()).ctx.(uiStep := uiStep))
    {
      hide SignContext.Model;
      ctx.SetUiStep(uiStep);
    }

    /** `runSignTransactionInitUIStep`. */
    method RunSignTransactionInitUIStep() returns (r: Result<()>)
      requires Valid()
      modifies this, ctx`uiStep, ctx`stage
      ensures Valid() && ctx == old(ctx) && (Abstract(), r) == InitUiStep(old(Abstract()))
    {
      hide SignContext.Valid, SignContext.Model, DisplayText, DisplayPrompt, DisplayBusy, Send;
      ctx.Parts();
      if ctx.stage != StageInit {
        return Throws(ErrInvalidState);
      }
      match ctx.uiStep {
        case WarnInit =>
          r := DisplayPaginatedText("Unusual Request", "Be careful!", RunInitStep);
          if r.Ok? {
            SetUiStep(AskInit);
          }
        case AskInit =>
          r := DisplayQuestion("Start New", "Transaction?", RunInitStep, RespondWithReject);
          if r.Ok? {
            SetUiStep(RespondInit);
          }
        case RespondInit =>
          SendBuf(Success([]));
          r := DisplayBusyScreen();
          if r.Ok? {
            SetStage(StageCollect);
            SetUiStep(InvalidInit);
          }
        case _ => r := Reset;
      }
    }

    /** What happens once the context is open: the policy decides about the first screen. */
    method StartSession() returns (r: Result<()>)
      requires Valid()
      modifies this, ctx`uiStep, ctx`stage
      ensures Valid() && ctx == old(ctx) && (Abstract(), r) == ByPolicy(old(Abstract()))
    {
      hide SignContext.Valid, SignContext.Model, InitUiStep, SignInitPolicy;
      match SignInitPolicy(ctx.PathOf()) {
        case Deny => return Throws(ErrRejectedByPolicy);
        case Warn => SetUiStep(WarnInit);
        case Prompt => SetUiStep(AskInit);
      }
      r := RunSignTransactionInitUIStep();
    }

    /** `handleSignTxInit`. */
    method HandleSignTxInit(p2: uint8, wireBuffer: array<uint8>, wireSize: nat) returns (r: Result<()>)
      requires Valid() && wireSize <= wireBuffer.Length && wireBuffer !in ctx.Repr()
      requires ctx.stage == StageNone ==> ctx.tx.Contents() == EMPTY_RECORD
      modifies this, ctx, ctx.path, ctx.path.path
      ensures Valid() && ctx == old(ctx) && fresh(ctx.Repr() - old(ctx.Repr()))
      ensures (Abstract(), r) == SignInit(old(Abstract()), p2, old(wireBuffer[..wireSize]))
    {
      hide SignContext.Valid, SignContext.Model, OpenSession;
      ctx.Parts();
      if ctx.stage != StageNone {
        return Throws(ErrInvalidState);
      }
      if p2 != 0 {
        return Throws(ErrInvalidParameters);
      }
      r := BeginSession(wireBuffer, wireSize);
    }

    method BeginSession(wireBuffer: array<uint8>, wireSize: nat) returns (r: Result<()>)
      requires Valid() && wireSize <= wireBuffer.Length && wireBuffer !in ctx.Repr()
      requires ctx.tx.Contents() == EMPTY_RECORD
      modifies this, ctx, ctx.path, ctx.path.path
      ensures Valid() && ctx == old(ctx) && fresh(ctx.Repr() - old(ctx.Repr()))
      ensures (Abstract(), r) == OpenSession(old(Abstract()), old(wireBuffer[..wireSize]))
    {
      hide SignContext.Valid, SignContext.Model, Parsed, ByPolicy, Prepared;
      var parsedSize := OpenContext(wireBuffer, wireSize);
      if !parsedSize.Ok? {
        return Throws(ErrInvalidData);
      }
      if parsedSize.value != wireSize {
        return Throws(ErrInvalidData);
      }
      r := StartSession();
    }

    method OpenContext(wireBuffer: array<uint8>, wireSize: nat) returns (r: Result<nat>)
      requires Valid() && wireSize <= wireBuffer.Length && wireBuffer !in ctx.Repr()
      requires ctx.tx.Contents() == EMPTY_RECORD
      modifies ctx, ctx.path, ctx.path.path
      ensures Valid() && ctx == old(ctx) && fresh(ctx.Repr() - old(ctx.Repr()))
      ensures var parsed, st := Parsed(old(wireBuffer[..wireSize])), Prepared(old(Abstract()));
              if parsed.Ok? then r == Ok(parsed.value.1) && Abstract() == st.(ctx := st.ctx.(path := parsed.value.0))
              else r == Throws(ErrInvalidData) && Abstract() == st
    {
      hide SignContext.Model, Parsed;
      r := ctx.Open(wireBuffer, wireSize);
    }

    /** `handleSignTxCollect`. */
    method HandleSignTxCollect(p2: uint8, wireBuffer: array<uint8>, wireSize: nat) returns (r: Result<()>)
      requires Valid() && wireSize <= wireBuffer.Length && wireBuffer !in ctx.Repr()
      requires ctx.stage == StageCollect ==> ctx.stream != null && Waiting(ctx.stream.Model())
      modifies this, ctx.Repr()
      ensures Valid() && ctx == old(ctx) && ctx.Repr() == old(ctx.Repr())
      ensures (Abstract(), r) == SignCollect(old(Abstract()), p2, old(wireBuffer[..wireSize]))
    {
      hide SignContext.Valid, SignContext.Model, ProcessChunk, Waiting, Acknowledge;
      ctx.Parts();
      if ctx.stage != StageCollect {
        return Throws(ErrInvalidState);
      }
      if p2 != 0 {
        return Throws(ErrInvalidParameters);
      }
      if wireSize == 0 {
        return Throws(ErrInvalidData);
      }
      var status := ProcessData(wireBuffer, wireSize);
      match status {
        case Processing =>
        case Finished => SetStage(StageFinalize);
        case Fault => return Throws(ErrInvalidData);
      }
      r := AcknowledgeData();
    }

    /** The reply tells the stage; the device is still busy. */
    method AcknowledgeData() returns (r: Result<()>)
      requires Valid()
      modifies this
      ensures Valid() && ctx == old(ctx) && (Abstract(), r) == Acknowledge(old(Abstract()))
    {
      hide SignContext.Valid, SignContext.Model, DisplayBusy, Send, Stage.Code;
      ctx.Parts();
      SendBuf(Success([ctx.stage.Code()]));
      r := DisplayBusyScreen();
    }

    method ProcessData(wireBuffer: array<uint8>, wireSize: nat) returns (status: Status)
      requires Valid() && wireSize <= wireBuffer.Length && wireBuffer !in ctx.Repr()
      requires ctx.stream != null && Waiting(ctx.stream.Model())
      modifies ctx.Repr()
      ensures Valid() && ctx.Repr() == old(ctx.Repr())
      ensures var r := ProcessChunk(old(ctx.stream.Model()), old(wireBuffer[..wireSize]), false);
              status == r.1
              && Abstract() == old(Abstract()).(ctx := old(Abstract()).ctx.(stream := Some(r.0)))
    {
      hide SignContext.Model, ProcessChunk, Waiting;
      status := ctx.Process(wireBuffer, wireSize);
    }

    /** `handleSignTxFinalize`. */
    method HandleSignTxFinalize(p2: uint8, wireSize: nat, ghost data: bytes) returns (r: Result<()>)
      requires Valid() && |data| == wireSize
      requires ctx.stage == StageFinalize ==> ctx.stream != null && Waiting(ctx.stream.Model())
      modifies this, ctx.Repr()
      ensures Valid() && ctx == old(ctx) && ctx.Repr() == old(ctx.Repr())
      ensures (Abstract(), r) == SignFinalize(old(Abstract()), p2, data, w)
    {
      hide SignContext.Valid, SignContext.Model, Waiting, SignAndReview;
      ctx.Parts();
      if ctx.stage != StageFinalize {
        return Throws(ErrInvalidState);
      }
      if p2 != 0 {
        return Throws(ErrInvalidParameters);
      }
      if wireSize != 0 {
        return Throws(ErrInvalidData);
      }
      r := CheckAndSign();
    }

    method CheckAndSign() returns (r: Result<()>)
      requires Valid() && ctx.stream != null && Waiting(ctx.stream.Model())
      modifies this, ctx.Repr()
      ensures Valid() && ctx == old(ctx) && ctx.Repr() == old(ctx.Repr())
      ensures (Abstract(), r) == SignAndReview(old(Abstract()), w)
    {
      hide SignContext.Valid, SignContext.Model, Waiting, IsExpectedChain, TxUiStep, WithHashSigned, KeyDerivation;
      ctx.Parts();
      ExpectUser();
      var v := ctx.GetChainId();
      if v != Ok(EXPECTED_CHAIN_ID) {
        return Throws(ErrInvalidData);
      }
      r := SignHash();
      if r != Ok(()) {
        return r;
      }
      r := RunSignTransactionUIStep();
    }

    method ExpectUser()
      requires Valid()
      modifies `ioState
      ensures Valid() && Abstract() == old(Abstract()).(io := ExpectUi)
    {
      hide SignContext.Valid, SignContext.Model;
      ioState := ExpectUi;
    }

    /** The hash of what the stream absorbed, the sender and the signature; then the first screen is next. */
    method SignHash() returns (r: Result<()>)
      requires Valid() && ctx.stream != null
      modifies ctx, ctx.tx.sender, ctx.tx.sender.value, ctx.signature, ctx.signature.r, ctx.signature.s
      ensures Valid() && ctx.Repr() == old(ctx.Repr())
      ensures ctx.stream == old(ctx.stream) && ctx.stream.Model() == old(ctx.stream.Model())
      ensures r == KeyDerivation(old(Abstract()).ctx.path)
      ensures Abstract() == if r == Ok(()) then WithHashSigned(old(Abstract()), w) else old(Abstract())
    {
      hide SignContext.Model, WithSignature, KeyDerivation;
      ctx.Parts();
      var hash := w.keccak(ctx.stream.absorbed);
      r := ctx.GetSignature(hash, w);
      if r != Ok(()) {
        return r;
      }
      ctx.SetResponseReady(RESPONSE_READY_TAG);
      ctx.SetUiStep(ShowRecipient);
      ctx.Parts();
    }

    /** A screen of the review and the step behind it. */
    method ShowScreen(header: string, text: string, next: UiStep) returns (r: Result<()>)
      requires Valid()
      modifies this, ctx`uiStep
      ensures Valid() && ctx == old(ctx)
      ensures (Abstract(), r) == WithUiStep(DisplayText(old(Abstract()), header, text, RunTxStep), next)
    {
      hide SignContext.Valid, SignContext.Model, DisplayText;
      r := DisplayPaginatedText(header, text, RunTxStep);
      if r.Ok? {
        SetUiStep(next);
      }
    }

    /** A screen whose text may have been refused. */
    method ShowText(header: string, text: Result<string>, next: UiStep) returns (r: Result<()>)
      requires Valid()
      modifies this, ctx`uiStep
      ensures Valid() && ctx == old(ctx)
      ensures (Abstract(), r) == WithUiStep(DisplayResult(old(Abstract()), header, text), next)
    {
      hide SignContext.Valid, SignContext.Model, DisplayText;
      match text {
        case Ok(s) => r := ShowScreen(header, s, next);
        case Throws(e) => r := Throws(e);
        case Reset => r := Reset;
      }
    }

    method AskToSend() returns (r: Result<()>)
      requires Valid()
      modifies this, ctx`uiStep
      ensures Valid() && ctx == old(ctx)
      ensures (Abstract(), r)
              == WithUiStep(DisplayPrompt(old(Abstract()), "Send", "Transaction?", RunTxStep, RespondWithReject),
                            SendSignature)
    {
      hide SignContext.Valid, SignContext.Model, DisplayPrompt;
      r := DisplayQuestion("Send", "Transaction?", RunTxStep, RespondWithReject);
      if r.Ok? {
        SetUiStep(SendSignature);
      }
    }

    /** `runSignTransactionUIStep`. */
    method RunSignTransactionUIStep() returns (r: Result<()>)
      requires Valid()
      requires ctx.stage == StageFinalize ==> ctx.stream != null && Waiting(ctx.stream.Model())
      modifies this, ctx`uiStep, ctx`stage
      ensures Valid() && ctx == old(ctx) && (Abstract(), r) == TxUiStep(old(Abstract()), w)
    {
      ctx.Parts();
      if ctx.stage != StageFinalize {
        hide SignContext.Valid, SignContext.Model, Waiting;
        return Throws(ErrInvalidState);
      }
      hide SignContext.Valid, SignContext.Model, Waiting, TxUiStep, DisplayText, DisplayPrompt, WithUiStep;
      match ctx.uiStep {
        case ShowRecipient => r := ShowRecipientScreen();
        case ShowSender => r := ShowSenderScreen();
        case ShowAmount => r := ShowAmountScreen();
        case ShowFee => r := ShowFeeScreen();
        case ShowContractCall =>
          AlertStep(Abstract(), w);
          r := ShowScreen("Smart Contract", "Alert", AskSend);
        case AskSend =>
          AskStep(Abstract(), w);
          r := AskToSend();
        case SendSignature => r := Respond();
        case _ =>
          NoFurtherStep(Abstract(), w);
          r := Reset;
      }
    }

    method ShowRecipientScreen() returns (r: Result<()>)
      requires Valid() && ctx.stage == StageFinalize && ctx.stream != null && Waiting(ctx.stream.Model())
      requires ctx.uiStep == ShowRecipient
      modifies this, ctx`uiStep
      ensures Valid() && ctx == old(ctx) && (Abstract(), r) == TxUiStep(old(Abstract()), w)
    {
      hide SignContext.Valid, SignContext.Model, TxUiStep, DisplayText, RecipientText, WithUiStep;
      ctx.Parts();
      ctx.TransactionParts();
      RecipientStep(Abstract(), w);
      if !(ctx.tx.recipient.length <= 20) {
        return Reset;
      }
      var recipient := Store(ctx.tx.recipient.value[..], ctx.tx.recipient.length);
      r := ShowScreen("Send To", RecipientText(recipient, w), ShowSender);
    }

    method ShowSenderScreen() returns (r: Result<()>)
      requires Valid() && ctx.stage == StageFinalize && ctx.stream != null && ctx.uiStep == ShowSender
      modifies this, ctx`uiStep
      ensures Valid() && ctx == old(ctx) && (Abstract(), r) == TxUiStep(old(Abstract()), w)
    {
      hide SignContext.Valid, SignContext.Model, TxUiStep, DisplayText, AddressText, WithUiStep;
      ctx.Parts();
      SenderStep(Abstract(), w);
      var sender, length := ctx.SenderOf(), ctx.tx.sender.length;
      if !(length > 0) || !(length <= 20) {
        return Reset;
      }
      r := ShowScreen("Send From", AddressText(sender, length, w), ShowAmount);
    }

    method ShowAmountScreen() returns (r: Result<()>)
      requires Valid() && ctx.stage == StageFinalize && ctx.stream != null && Waiting(ctx.stream.Model())
      requires ctx.uiStep == ShowAmount
      modifies this, ctx`uiStep
      ensures Valid() && ctx == old(ctx) && (Abstract(), r) == TxUiStep(old(Abstract()), w)
    {
      hide SignContext.Valid, SignContext.Model, Waiting, TxUiStep, DisplayResult, WithUiStep, AmountShown, NumberOf;
      ctx.Parts();
      ctx.TransactionParts();
      AmountStep(Abstract(), w);
      if !(ctx.tx.value.length <= 32) {
        return Reset;
      }
      ghost var before := Abstract();
      var valueStr := ctx.FormatAmount();
      assert Abstract() == before;
      r := ShowText("Amount (FTM)", valueStr, ShowFee);
    }

    method ShowFeeScreen() returns (r: Result<()>)
      requires Valid() && ctx.stage == StageFinalize && ctx.stream != null && Waiting(ctx.stream.Model())
      requires ctx.uiStep == ShowFee
      modifies this, ctx`uiStep
      ensures Valid() && ctx == old(ctx) && (Abstract(), r) == TxUiStep(old(Abstract()), w)
    {
      hide SignContext.Valid, SignContext.Model, Waiting, TxUiStep, DisplayResult, WithUiStep, FeeShown, NumberOf;
      ctx.Parts();
      ctx.TransactionParts();
      FeeStep(Abstract(), w);
      if !(ctx.tx.gasPrice.length <= 32) || !(ctx.tx.startGas.length <= 32) {
        return Reset;
      }
      ghost var before := Abstract();
      var valueStr := ctx.FormatFee();
      assert Abstract() == before;
      r := ShowText("Max Fee (FTM)", valueStr, if ctx.tx.isContractCall then ShowContractCall else AskSend);
    }

    method Respond() returns (r: Result<()>)
      requires Valid() && ctx.stage == StageFinalize && ctx.stream != null && ctx.uiStep == SendSignature
      modifies this, ctx`uiStep, ctx`stage
      ensures Valid() && ctx == old(ctx) && (Abstract(), r) == TxUiStep(old(Abstract()), w)
    {
      hide SignContext.Valid, SignContext.Model, TxUiStep, Send, GoIdle;
      ctx.Parts();
      RespondStep(Abstract(), w);
      if ctx.responseReady != RESPONSE_READY_TAG {
        return Throws(ErrInvalidData);
      }
      var signature := [ctx.signature.v] + ctx.signature.r[..] + ctx.signature.s[..];
      SetStage(StageDone);
      SendBuf(Success(signature));
      UiIdle();
      SetUiStep(InvalidTx);
      r := Ok(());
    }

    /** What the handlers of a running session need: an empty transaction before it is opened, and afterwards a
        stream that can go on. */
    ghost predicate Ready()
      requires Valid()
      reads this, ctx, ctx.path, ctx.stream, ctx.Repr()
    {
      (ctx.stage == StageNone ==> ctx.tx.Contents() == EMPTY_RECORD)
      && (ctx.stage == StageCollect || ctx.stage == StageFinalize ==> ctx.stream != null && Waiting(ctx.stream.Model()))
    }

    /** The context is cleared: a fresh one takes its place. */
    method ClearContext()
      requires Valid()
      modifies this
      ensures Valid() && Ready() && fresh(ctx) && fresh(ctx.Repr())
      ensures Abstract() == old(Abstract()).(ctx := CLEARED_CONTEXT)
    {
      hide SignContext.Model;
      ctx := new SignContext();
      ctx.Parts();
    }

    /** `handleSignTransaction`. */
    method HandleSignTransaction(p1: uint8, p2: uint8, wireBuffer: array<uint8>, wireSize: nat, isOnInit: bool)
      returns (r: Result<()>)
      requires Valid() && Ready() && wireSize <= wireBuffer.Length && wireBuffer !in ctx.Repr()
      modifies this, ctx.Repr()
      ensures Valid()
      ensures (Abstract(), r)
              == SignTransaction(old(Abstract()), p1, p2, old(wireBuffer[..wireSize]), isOnInit, w)
    {
      hide SignContext.Valid, SignContext.Model, SignByParameter, Application.Ready;
      if isOnInit {
        ClearContext();
      }
      r := HandleByParameter(p1, p2, wireBuffer, wireSize);
    }

    method HandleByParameter(p1: uint8, p2: uint8, wireBuffer: array<uint8>, wireSize: nat) returns (r: Result<()>)
      requires Valid() && Ready() && wireSize <= wireBuffer.Length && wireBuffer !in ctx.Repr()
      modifies this, ctx.Repr()
      ensures Valid() && fresh(ctx.Repr() - old(ctx.Repr()))
      ensures (Abstract(), r) == SignByParameter(old(Abstract()), p1, p2, old(wireBuffer[..wireSize]), w)
    {
      hide SignContext.Valid, SignContext.Model, SignInit, SignCollect, SignFinalize, Waiting;
      if p1 == 0x00 {
        r := HandleSignTxInit(p2, wireBuffer, wireSize);
      } else if p1 == 0x01 {
        r := HandleSignTxCollect(p2, wireBuffer, wireSize);
      } else if p1 == 0x80 {
        r := HandleSignTxFinalize(p2, wireSize, wireBuffer[..wireSize]);
      } else {
        r := Throws(ErrInvalidParameters);
      }
    }

    /** Another instruction does its next step. */
    method RunOtherInstruction(step: OtherStep) returns (r: Result<()>)
      requires Valid()
      modifies this
      ensures Valid() && ctx == old(ctx) && (Abstract(), r) == RunOther(old(Abstract()), step)
    {
      hide SignContext.Valid, SignContext.Model, Send, GoIdle, DisplayText, DisplayPrompt;
      match step {
        case OtherReplies(data) =>
          SendBuf(Success(data));
          UiIdle();
          r := Ok(());
        case OtherShows(header, text) => r := DisplayPaginatedText(header, text, RunOtherStep);
        case OtherAsks(header, text) => r := DisplayQuestion(header, text, RunOtherStep, RespondWithReject);
        case OtherThrows(error) => r := Throws(error);
        case OtherResets => r := Reset;
      }
    }

    // src/main.c

    /** The boot code after a reset. */
    method Boot()
      requires Valid()
      modifies this
      ensures Valid() && ctx == old(ctx) && Abstract() == Restart(old(Abstract()))
    {
      hide SignContext.Valid, SignContext.Model;
      log := log + [Restarted];
      currentIns := NoInstruction;
      flow := FlowIdle;
      ioState := ExpectIo;
    }

    /** The exception handlers of the main loop. */
    method Catch(r: Result<()>)
      requires Valid()
      modifies this
      ensures Valid() && ctx == old(ctx) && Abstract() == Caught((old(Abstract()), r))
    {
      hide SignContext.Valid, SignContext.Model, Restart, GoIdle, Send;
      match r {
        case Ok(_) =>
        case Throws(e) =>
          if e == ErrAssert {
            Boot();
          } else {
            SendBuf(Failure(e));
            UiIdle();
          }
        case Reset => Boot();
      }
    }

    /** The checks of the main loop, in the order in which they are made. */
    static method CheckHeader(unlocked: bool, header: bytes, data: array<uint8>) returns (error: Option<Error>)
      ensures error == HeaderError(unlocked, header + data[..])
    {
      var request := header + data[..];
      if !unlocked {
        return Some(ErrDeviceLocked);
      }
      if |request| < 5 || |request| != request[4] as nat + 5 {
        return Some(ErrBadRequestHeader);
      }
      if request[0] != CLA {
        return Some(ErrUnknownCla);
      }
      if InstructionOf(request[1]) == NoInstruction {
        return Some(ErrUnknownIns);
      }
      error := None;
    }

    /** A request is only accepted when one is expected.  It comes as the header of five bytes and the payload
        behind it; a shorter request has no payload. */
    method HandleRequest(unlocked: bool, header: bytes, data: array<uint8>, other: OtherStep) returns (r: Result<()>)
      requires Valid() && data !in ctx.Repr() && |header| <= 5 && (|header| < 5 ==> data.Length == 0)
      requires currentIns == SignTx && ioState == ExpectIo ==> Ready()
      modifies this, ctx.Repr()
      ensures Valid()
      ensures (Abstract(), r) == Dispatch(old(Abstract()), unlocked, header + old(data[..]), other, w)
    {
      hide SignContext.Valid, SignContext.Model, Accept, Application.Ready;
      if ioState != ExpectIo {
        return Throws(ErrInvalidState);
      }
      ExpectNothing();
      r := AcceptRequest(unlocked, header, data, other);
    }

    method AcceptRequest(unlocked: bool, header: bytes, data: array<uint8>, other: OtherStep) returns (r: Result<()>)
      requires Valid() && data !in ctx.Repr() && |header| <= 5 && (|header| < 5 ==> data.Length == 0)
      requires currentIns == SignTx ==> Ready()
      modifies this, ctx.Repr()
      ensures Valid()
      ensures (Abstract(), r) == Accept(old(Abstract()), unlocked, header + old(data[..]), other, w)
    {
      hide SignContext.Valid, SignContext.Model, Handle, Application.Ready, InstructionOf, HeaderError;
      if header == [] {
        return Reset;
      }
      var error := CheckHeader(unlocked, header, data);
      if error.Some? {
        return Throws(error.value);
      }
      GoodRequest(unlocked, header, data[..]);
      r := CallHandler(InstructionOf(header[1]), header[2], header[3], data, other);
    }

    method ExpectNothing()
      requires Valid()
      modifies `ioState
      ensures Valid() && ctx.Repr() == old(ctx.Repr()) && Abstract() == old(Abstract()).(io := ExpectNone)
      ensures old(Ready()) ==> Ready()
    {
      hide SignContext.Valid, SignContext.Model, Waiting;
      ioState := ExpectNone;
    }

    /** A new instruction clears the context; a running one must be continued. */
    method CallHandler(ins: Instruction, p1: uint8, p2: uint8, data: array<uint8>, other: OtherStep)
      returns (r: Result<()>)
      requires Valid() && data !in ctx.Repr() && ins != NoInstruction
      requires currentIns == SignTx ==> Ready()
      modifies this, ctx.Repr()
      ensures Valid()
      ensures (Abstract(), r) == Handle(old(Abstract()), ins, p1, p2, old(data[..]), other, w)
    {
      hide SignContext.Valid, SignContext.Model, HandlerFor, Application.Ready;
      if currentIns == NoInstruction {
        StartInstruction(ins);
        r := RunHandler(ins, p1, p2, data, true, other);
      } else if ins != currentIns {
        r := Throws(ErrInvalidState);
      } else {
        r := RunHandler(ins, p1, p2, data, false, other);
      }
    }

    /** The handler of the instruction. */
    method RunHandler(ins: Instruction, p1: uint8, p2: uint8, data: array<uint8>, isNew: bool, other: OtherStep)
      returns (r: Result<()>)
      requires Valid() && data !in ctx.Repr() && (ins == SignTx ==> Ready())
      modifies this, ctx.Repr()
      ensures Valid()
      ensures (Abstract(), r) == HandlerFor(old(Abstract()), ins, p1, p2, old(data[..]), isNew, other, w)
    {
      hide SignContext.Valid, SignContext.Model, SignTransaction, RunOther, Application.Ready;
      assert data[..data.Length] == data[..];
      if ins == SignTx {
        r := HandleSignTransaction(p1, p2, data, data.Length, isNew);
      } else {
        r := RunOtherInstruction(other);
      }
    }

    method StartInstruction(ins: Instruction)
      requires Valid()
      modifies this
      ensures Valid() && Ready() && fresh(ctx.Repr())
      ensures Abstract() == old(Abstract()).(ctx := CLEARED_CONTEXT, ins := ins)
    {
      hide SignContext.Model, Waiting;
      ClearContext();
      currentIns := ins;
    }

    // What happens to the device

    /** Between two events the invariant of the session holds. */
    ghost predicate Running()
      reads this, ctx, ctx.path, ctx.stream, ctx.Repr()
    {
      Valid() && Inv(Abstract(), account, w)
    }

    ghost method Remember(a: Account)
      requires Valid() && Inv(Abstract(), a, w)
      modifies `account
      ensures Running() && Abstract() == old(Abstract())
    {
      hide SignContext.Valid, SignContext.Model, Inv;
      account := a;
    }

    lemma RunningIsReady()
      requires Running() && currentIns == SignTx
      ensures Ready()
    {
      InvReady(Abstract(), account, w);
      hide Inv, Waiting, SignContext.Valid, SignContext.Model;
      ctx.Parts();
    }

    method Receive(request: bytes)
      requires Valid()
      modifies `log
      ensures Valid() && ctx.Repr() == old(ctx.Repr()) && Abstract() == Logged(old(Abstract()), Received(request))
      ensures old(Ready()) ==> Ready()
    {
      hide SignContext.Valid, SignContext.Model, Waiting;
      log := log + [Received(request)];
    }

    /** One round of the main loop. */
    method ExchangeOnce(unlocked: bool, header: bytes, data: array<uint8>, other: OtherStep)
      requires Valid() && data !in ctx.Repr() && |header| <= 5 && (|header| < 5 ==> data.Length == 0)
      requires currentIns == SignTx ==> Ready()
      modifies this, ctx.Repr()
      ensures Valid()
      ensures Abstract() == React(old(Abstract()), Request(unlocked, header + old(data[..]), other), w)
    {
      hide SignContext.Valid, SignContext.Model, Dispatch, Caught, Application.Ready;
      Receive(header + data[..]);
      var r := HandleRequest(unlocked, header, data, other);
      Catch(r);
    }

    method Exchange(unlocked: bool, header: bytes, data: array<uint8>, other: OtherStep)
      requires Running() && data !in ctx.Repr() && |header| <= 5 && (|header| < 5 ==> data.Length == 0)
      modifies this, ctx.Repr()
      ensures Running()
      ensures Abstract() == React(old(Abstract()), Request(unlocked, header + old(data[..]), other), w)
    {
      hide SignContext.Valid, SignContext.Model, Inv, React, Grown, Signed, Application.Ready;
      ghost var st, before, request := Abstract(), account, header + data[..];
      if currentIns == SignTx {
        RunningIsReady();
      }
      ExchangeOnce(unlocked, header, data, other);
      ghost var after := RequestKeeps(st, before, unlocked, request, other, w);
      Remember(after);
    }

    /** The callback of the live screen. */
    method Fire(callback: Callback, other: OtherStep) returns (r: Result<()>)
      requires Valid() && (callback == RunTxStep && ctx.stage == StageFinalize ==> Ready())
      modifies this, ctx`uiStep, ctx`stage
      ensures Valid() && (Abstract(), r) == RunCallback(old(Abstract()), callback, other, w)
    {
      hide SignContext.Valid, SignContext.Model, InitUiStep, TxUiStep, RunOther, RespondReject, Waiting;
      match callback {
        case NoCallback => r := Ok(());
        case RunInitStep => r := RunSignTransactionInitUIStep();
        case RunTxStep => r := RunSignTransactionUIStep();
        case RunOtherStep => r := RunOtherInstruction(other);
        case RespondWithReject =>
          RespondWithUserReject();
          r := Ok(());
      }
    }

    /** `ui_callbackConfirm` and `ui_callbackReject` under the guard of the screen; the state of the callback is
        changed before it runs. */
    method PressButton(callback: Callback, entry: Entry, guard: Guard, other: OtherStep)
      requires Valid() && (callback == RunTxStep && ctx.stage == StageFinalize ==> Ready())
      modifies this, ctx`uiStep, ctx`stage
      ensures Valid() && Abstract() == Button(old(Abstract()), callback, entry, guard, other, w)
    {
      hide SignContext.Valid, SignContext.Model, RunCallback, Restart, Application.Ready;
      if displayState.guard != guard {
        Boot();
        return;
      }
      if callback == NoCallback || displayState.fired {
        return;
      }
      MarkFired(entry);
      var r := Fire(callback, other);
      if !r.Ok? {
        Boot();
      }
    }

    method MarkFired(entry: Entry)
      requires Valid()
      modifies `log, `displayState
      ensures Valid() && ctx.Repr() == old(ctx.Repr())
      ensures Abstract() == Logged(old(Abstract()), entry).(display := old(displayState).(fired := true))
      ensures old(Ready()) ==> Ready()
    {
      hide SignContext.Valid, SignContext.Model, Waiting;
      log := log + [entry];
      displayState := displayState.(fired := true);
    }

    /** The user confirms the live screen; other screens do not react. */
    method PressConfirm(other: OtherStep)
      requires Valid()
      requires displayState.confirm == RunTxStep && (flow == FlowText || flow == FlowPrompt) ==> Ready()
      modifies this, ctx`uiStep, ctx`stage
      ensures Valid() && Abstract() == React(old(Abstract()), Confirm(other), w)
    {
      hide SignContext.Valid, SignContext.Model, Button, Application.Ready;
      match flow {
        case FlowText => PressButton(displayState.confirm, Confirmed, GuardText, other);
        case FlowPrompt => PressButton(displayState.confirm, Confirmed, GuardPrompt, other);
        case _ =>
      }
    }

    method ConfirmScreen(other: OtherStep)
      requires Running()
      modifies this, ctx`uiStep, ctx`stage
      ensures Running() && Abstract() == React(old(Abstract()), Confirm(other), w)
    {
      hide SignContext.Valid, SignContext.Model, Inv, React, Grown, Signed, Application.Ready;
      ghost var st, before := Abstract(), account;
      CallbackIsReady();
      PressConfirm(other);
      ConfirmKeeps(st, before, other, w);
      Remember(before);
    }

    /** The user rejects a prompt. */
    method PressReject()
      requires Valid() && (displayState.reject == RunTxStep && flow == FlowPrompt ==> Ready())
      modifies this, ctx`uiStep, ctx`stage
      ensures Valid() && Abstract() == React(old(Abstract()), Reject, w)
    {
      hide SignContext.Valid, SignContext.Model, Button, Application.Ready;
      if flow == FlowPrompt {
        PressButton(displayState.reject, Rejected, GuardPrompt, OtherResets);
      }
    }

    method RejectPrompt()
      requires Running()
      modifies this, ctx`uiStep, ctx`stage
      ensures Running() && Abstract() == React(old(Abstract()), Reject, w)
    {
      hide SignContext.Valid, SignContext.Model, Inv, React, Grown, Signed, Application.Ready;
      ghost var st, before := Abstract(), account;
      CallbackIsReady();
      PressReject();
      RejectKeeps(st, before, w);
      Remember(before);
    }

    lemma CallbackIsReady()
      requires Running()
      ensures flow == FlowText || flow == FlowPrompt ==>
                displayState.confirm == RunTxStep || displayState.reject == RunTxStep ==> Ready()
    {
      if flow == FlowText || flow == FlowPrompt {
        ScreenOfSession(Abstract(), account, w);
        if currentIns == SignTx {
          RunningIsReady();
        }
      }
    }

    /** The device loses power. */
    method LosePower()
      requires Running()
      modifies this
      ensures Running() && Abstract() == React(old(Abstract()), PowerLoss, w)
    {
      hide SignContext.Valid, SignContext.Model, Inv, Grown, Signed, Restart;
      ghost var st, before := Abstract(), account;
      Boot();
      PowerLossKeeps(st, before, w);
      Remember(before);
    }
  }

  lemma GoodRequest(unlocked: bool, header: bytes, data: bytes)
    requires |header| <= 5 && (|header| < 5 ==> data == []) && HeaderError(unlocked, header + data) == None
    ensures |header| == 5 && (header + data)[5..] == data && InstructionOf(header[1]) != NoInstruction
    ensures (header + data)[1] == header[1] && (header + data)[2] == header[2] && (header + data)[3] == header[3]
  {
  }
}