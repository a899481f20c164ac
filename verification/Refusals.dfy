/** What is wrong with a request, and that the host is told exactly that. */
module Refusals {
  import opened Words
  import opened Numerals
  import opened Errors
  import opened Rlp
  import opened StreamModel
  import opened OneShot
  import opened Bip44
  import opened World
  import opened Session
  import opened UiSteps
  import opened Approval
  import opened Phases
  import opened Transcript
  import opened Safety
  import opened Consequences

  // The table of errors

  /** In this order: the second parameter, the path on the wire, at most ten indexes and nothing behind them, and
      the policy, at least five indexes that begin with 44'/60'. */
  function OpeningError(p2: uint8, data: bytes): Option<Error> {
    if p2 != 0 then Some(ErrInvalidParameters)
    else if data == [] || data[0] > 10 || |data| != 1 + 4 * data[0] then Some(ErrInvalidData)
    else if data[0] < 5 || data[1..9] != [0x80, 0x00, 0x00, 0x2c, 0x80, 0x00, 0x00, 0x3c] then Some(ErrRejectedByPolicy)
    else None
  }

  /** The second parameter, an empty chunk, and a chunk behind which the input `sent` so far can be no transaction. */
  function ChunkError(sent: bytes, p2: uint8, data: bytes): Option<Error> {
    if p2 != 0 then Some(ErrInvalidParameters)
    else if data == [] || ReadTransaction(sent + data, false) == Malformed then Some(ErrInvalidData)
    else None
  }

  /** The second parameter, data where none are due, and a transaction for another chain. */
  ghost function FinalError(sent: bytes, p2: uint8, data: bytes): Option<Error> {
    if p2 != 0 then Some(ErrInvalidParameters)
    else if data != [] || !ForChain(sent) then Some(ErrInvalidData)
    else None
  }

  /** The input begins with a transaction whose V is 250, in at most four bytes. */
  ghost predicate ForChain(s: bytes) {
    var outcome := ReadTransaction(s, false);
    outcome.Complete? && |outcome.items| == 9 && |outcome.items[6]| <= 4 && Eval(256, outcome.items[6]) == 250
  }

  /** The stage a session must have reached for a request. */
  ghost function SigningError(st: State, sent: bytes, p1: uint8, p2: uint8, data: bytes): Option<Error> {
    if p1 != 0x00 && p1 != 0x01 && p1 != 0x80 then Some(ErrInvalidParameters)
    else if p1 == 0x00 then if st.ins == SignTx then Some(ErrInvalidState) else OpeningError(p2, data)
    else if p1 == 0x01 then
      if st.ins == SignTx && st.ctx.stage == StageCollect then ChunkError(sent, p2, data) else Some(ErrInvalidState)
    else
      if st.ins == SignTx && st.ctx.stage == StageFinalize then FinalError(sent, p2, data) else Some(ErrInvalidState)
  }

  /** What is wrong with a request before any instruction sees it: the turn, the lock, the length, the class, the
      instruction, and another instruction running.  A request of no bytes at all resets the device. */
  function HeaderFault(st: State, unlocked: bool, request: bytes): Option<Error> {
    if st.io != ExpectIo then Some(ErrInvalidState)
    else if request == [] then None
    else if !unlocked then Some(ErrDeviceLocked)
    else if |request| < 5 || |request| != 5 + request[4] as nat then Some(ErrBadRequestHeader)
    else if request[0] != 0xe0 then Some(ErrUnknownCla)
    else if request[1] != 0x01 && request[1] != 0x10 && request[1] != 0x11 && request[1] != 0x20 then
      Some(ErrUnknownIns)
    else if st.ins != NoInstruction && st.ins != Named(request[1]) then Some(ErrInvalidState)
    else None
  }

  function Named(ins: uint8): Instruction {
    if ins == 0x01 then GetVersion else if ins == 0x10 then GetKey else if ins == 0x11 then GetAddress else SignTx
  }

  /** The error code a request deserves in a session that has sent `sent` so far; another instruction may throw what it
      likes, but a failed assertion is not passed on. */
  ghost function ErrorFor(st: State, sent: bytes, unlocked: bool, request: bytes, other: OtherStep): Option<Error> {
    var fault := HeaderFault(st, unlocked, request);
    if fault.Some? || |request| < 5 then fault
    else if request[1] == 0x20 then SigningError(st, sent, request[2], request[3], request[5..])
    else if other.OtherThrows? && other.error != ErrAssert then Some(other.error)
    else None
  }

  /** The instruction in whose name the answer is given. */
  function Answering(st: State, unlocked: bool, request: bytes): Instruction {
    if HeaderFault(st, unlocked, request).Some? || |request| < 2 then st.ins else Named(request[1])
  }

  // How a refusal looks

  /** The request is answered with the error code, and the device goes idle. */
  ghost predicate Refused(st: State, request: bytes, ins: Instruction, error: Error, st': State) {
    st'.log == st.log + [Received(request), Replied(ins, Failure(error)), ShownIdle] && Quiet(st')
  }

  /** The request is not answered with an error code. */
  ghost predicate NotRefused(st: State, st': State) {
    Grown(st.log, st'.log, false)
  }

  lemma CaughtThrow(o: Session.Outcome, st: State, request: bytes, ins: Instruction, error: Error)
    requires o.1 == Throws(error) && error != ErrAssert && o.0.ins == ins && o.0.log == st.log + [Received(request)]
    ensures Refused(st, request, ins, error, Caught(o))
  {
    assert (st.log + [Received(request)]) + [Replied(ins, Failure(error))] + [ShownIdle]
        == st.log + [Received(request), Replied(ins, Failure(error)), ShownIdle];
  }

  lemma CaughtElse(o: Session.Outcome, st: State, request: bytes)
    requires !o.1.Throws? && Grown(st.log + [Received(request)], o.0.log, false)
    ensures NotRefused(st, Caught(o))
  {
    hide Grown, Harmless;
    HarmlessEntry(st.log, Received(request));
    HarmlessGrown(st.log, st.log + [Received(request)], false);
    GrownFurther(st.log, st.log + [Received(request)], o.0.log, false);
    ScreensHarmless(o.0, "", "", NoCallback, NoCallback);
    HarmlessGrown(o.0.log, Restart(o.0).log, false);
    GrownFurther(st.log, o.0.log, Restart(o.0).log, false);
  }

  /** A request with a faulty header is answered with what is wrong with it. */
  lemma HeaderRefused(st: State, unlocked: bool, request: bytes, other: OtherStep, w: World)
    requires HeaderFault(st, unlocked, request).Some?
    ensures Refused(st, request, st.ins, HeaderFault(st, unlocked, request).value,
                    React(st, Request(unlocked, request, other), w))
  {
    hide SignTransaction, RunOther, Caught, Refused;
    var st' := Logged(st, Received(request));
    CaughtThrow(Dispatch(st', unlocked, request, other, w), st, request, st.ins,
                HeaderFault(st, unlocked, request).value);
  }

  lemma NoFaultHandled(st: State, unlocked: bool, request: bytes)
    requires HeaderFault(st, unlocked, request).None? && request != []
    ensures Handled(st, unlocked, request) && InstructionOf(request[1]) == Named(request[1])
  {
  }

  // The opening

  lemma {:induction false} IndexAt(data: bytes, n: nat, i: nat)
    requires i < n && 1 + 4 * n <= |data|
    ensures |IndexesAt(data, n)| == n && IndexesAt(data, n)[i] == Eval(256, data[4 * i + 1..4 * i + 5])
  {
    hide ReadWord;
    IndexCount(data, n);
    if i == n - 1 {
      IndexCount(data, n - 1);
      WordIs(data[4 * i + 1..4 * i + 5]);
    } else {
      IndexAt(data, n - 1, i);
    }
  }

  lemma WordIs(b: bytes)
    requires |b| == 4
    ensures ReadWord(b) == Eval(256, b)
  {
    WordRead(b);
  }

  lemma HardenedWord(b: bytes, low: uint8)
    requires |b| == 4
    ensures Eval(256, b) == 0x8000_0000 + low <==> b == [0x80, 0x00, 0x00, low]
  {
    EvalFour(b);
    hide Eval;
    assert b == [b[0], b[1], b[2], b[3]];
  }

  /** The first two indexes are 44' and 60' when the data begin with their bytes. */
  lemma PrefixOnWire(data: bytes)
    requires 9 <= |data|
    ensures Eval(256, data[1..5]) == 0x8000_002c && Eval(256, data[5..9]) == 0x8000_003c
            <==> data[1..9] == [0x80, 0x00, 0x00, 0x2c, 0x80, 0x00, 0x00, 0x3c]
  {
    hide Eval;
    var a: bytes, b: bytes := [0x80, 0x00, 0x00, 0x2c], [0x80, 0x00, 0x00, 0x3c];
    HardenedWord(data[1..5], 0x2c);
    HardenedWord(data[5..9], 0x3c);
    assert data[1..9] == data[1..5] + data[5..9];
    assert a + b == [0x80, 0x00, 0x00, 0x2c, 0x80, 0x00, 0x00, 0x3c];
    SameBlocks(data[1..5], data[5..9], a, b);
  }

  lemma PolicyOnWire(data: bytes)
    requires data != [] && data[0] <= 10 && |data| == 1 + 4 * data[0]
    ensures SignInitPolicy(IndexesAt(data, data[0])) == Deny
            <==> data[0] < 5 || data[1..9] != [0x80, 0x00, 0x00, 0x2c, 0x80, 0x00, 0x00, 0x3c]
  {
    hide *;
    var path := IndexesAt(data, data[0]);
    IndexCount(data, data[0]);
    SignInitPolicyWhen(path);
    if data[0] >= 5 {
      IndexAt(data, data[0], 0);
      IndexAt(data, data[0], 1);
      PrefixOnWire(data);
      assert path[..2] == [path[0], path[1]];
      FirstTwo(path, 0x8000_002c, 0x8000_003c);
    }
  }

  lemma FirstTwo(path: Indexes, x: uint32, y: uint32)
    requires |path| >= 2
    ensures path[..2] == [x, y] <==> path[0] == x && path[1] == y
  {
    assert path[..2] == [path[0], path[1]];
  }

  /** A handler throws exactly what the table says, before it logs anything. */
  ghost predicate Tells(st: State, o: Session.Outcome, error: Option<Error>) {
    if error.Some? then o.1 == Throws(error.value) && o.0.ins == st.ins && o.0.log == st.log else !o.1.Throws?
  }

  lemma OpeningTells(st: State, p2: uint8, data: bytes)
    requires st.ctx == CLEARED_CONTEXT
    ensures Tells(st, SignInit(st, p2, data), OpeningError(p2, data))
  {
    if data != [] && data[0] <= 10 && |data| == 1 + 4 * data[0] {
      PolicyOnWire(data);
      PolicyTells(Prepared(st).(ctx := Prepared(st).ctx.(path := IndexesAt(data, data[0]))));
    }
    hide IndexesAt, SignInitPolicy, ByPolicy;
  }

  lemma PolicyTells(st: State)
    requires st.ctx.stage == StageInit
    ensures if SignInitPolicy(st.ctx.path) == Deny then ByPolicy(st) == (st, Throws(ErrRejectedByPolicy))
            else !ByPolicy(st).1.Throws?
  {
    hide SignInitPolicy, DisplayText, DisplayPrompt;
    ScreensDoNotThrow();
  }

  lemma ScreensDoNotThrow()
    ensures forall st, header, text, c :: !DisplayText(st, header, text, c).1.Throws?
    ensures forall st, header, text, c, d :: !DisplayPrompt(st, header, text, c, d).1.Throws?
  {
  }

  // The chunks

  lemma MalformedIsFault(sent: bytes, data: bytes)
    requires Feed(INITIAL, sent, false).1 == Processing
    ensures Feed(Feed(INITIAL, sent, false).0, data, false).1 == Fault
            <==> ReadTransaction(sent + data, false) == Malformed
  {
    FeedConcat(INITIAL, sent, data, false);
    StreamRefinesOneShot(sent + data, false);
    hide Feed, ReadTransaction, ItemsFit, WithItems;
  }

  lemma ChunkTells(st: State, a: Account, p2: uint8, data: bytes)
    requires st.ctx.stage == StageCollect && st.ctx.stream == Some(Streamed(a).0) && Streamed(a).1 == Processing
    ensures Tells(st, SignCollect(st, p2, data), ChunkError(Flatten(a.chunks), p2, data))
  {
    MalformedIsFault(Flatten(a.chunks), data);
    FeedKeepsWaiting(INITIAL, Flatten(a.chunks), false);
    InitialWaits();
    hide Feed, ReadTransaction, Flatten, Waiting;
  }

  // The signature

  lemma ChainTells(a: Account)
    requires Streamed(a).1 == Finished
    ensures IsExpectedChain(TransactionOf(a).v) <==> ForChain(Flatten(a.chunks))
  {
    var items, used := StreamDecodes(a);
    NumbersOf(items);
    hide Streamed, Flatten, ReadTransaction, WithItems, Eval, NumberOf;
  }

  lemma FinalTells(st: State, a: Account, p2: uint8, data: bytes, w: World)
    requires st.ctx.stage == StageFinalize && st.ctx.stream == Some(Streamed(a).0) && Streamed(a).1 == Finished
    requires |a.path| <= 10 && SignInitPolicy(a.path) != Deny && st.ctx.path == a.path
    ensures Tells(st, SignFinalize(st, p2, data, w), FinalError(Flatten(a.chunks), p2, data))
  {
    ChainTells(a);
    KeyTells(a.path);
    ReviewTells(WithHashSigned(st.(io := ExpectUi), w), w);
    hide Streamed, Flatten, ForChain, IsExpectedChain, TxUiStep, WithSignature, KeyDerivation, Accountable;
  }

  lemma KeyTells(path: Indexes)
    requires |path| <= 10 && SignInitPolicy(path) != Deny
    ensures !KeyDerivation(path).Throws?
  {
  }

  lemma ReviewTells(st: State, w: World)
    requires InReview(st, ShowRecipient)
    ensures !TxUiStep(st, w).1.Throws?
  {
    RecipientStep(st, w);
    ScreensDoNotThrow();
    hide TxUiStep, DisplayText, RecipientText;
  }

  // Any request

  lemma NewSessionTells(st: State, found: State, p1: uint8, p2: uint8, data: bytes, w: World)
    requires st.ins == NoInstruction && found.ctx == CLEARED_CONTEXT
    ensures Tells(found, SignTransaction(found, p1, p2, data, true, w), SigningError(st, [], p1, p2, data))
  {
    hide SignInit, OpeningError;
    OpeningTells(found, p2, data);
  }

  lemma SessionTells(st: State, found: State, a: Account, p1: uint8, p2: uint8, data: bytes, w: World)
    requires Told(st, a, w) && st.ins == SignTx && st.io == ExpectIo && found.ctx == st.ctx
    ensures Tells(found, SignTransaction(found, p1, p2, data, false, w),
                  SigningError(st, Flatten(a.chunks), p1, p2, data))
  {
    hide Streamed, Begun, Review, Asking, Warning, SignCollect, SignFinalize, ChunkError, FinalError, Flatten, Arrived,
         Tells;
    SilentOrBusy(st, a, w);
    if st.ctx.stage == StageCollect {
      ChunkTells(found, a, p2, data);
    } else {
      FinalTells(found, a, p2, data, w);
    }
    OutOfStage(found, p1, p2, data, w);
  }

  /** A session that waits for the host is collecting, or has collected everything. */
  lemma SilentOrBusy(st: State, a: Account, w: World)
    requires Told(st, a, w) && st.io == ExpectIo
    ensures Accountable(a) && st.ctx.path == a.path && st.ctx.stream == Some(Streamed(a).0)
    ensures (st.ctx.stage == StageCollect && Streamed(a).1 == Processing)
            || (st.ctx.stage == StageFinalize && Streamed(a).1 == Finished)
  {
    hide Streamed, Begun, Review, Asking, Warning, IsExpectedChain, AmountOf, FeeOf, SignatureOf;
  }

  lemma OutOfStage(st: State, p1: uint8, p2: uint8, data: bytes, w: World)
    ensures (p1 == 0x00 && st.ctx.stage != StageNone) || (p1 == 0x01 && st.ctx.stage != StageCollect)
            || (p1 == 0x80 && st.ctx.stage != StageFinalize)
            ==> Tells(st, SignTransaction(st, p1, p2, data, false, w), Some(ErrInvalidState))
    ensures p1 != 0x00 && p1 != 0x01 && p1 != 0x80 ==>
              Tells(st, SignTransaction(st, p1, p2, data, false, w), Some(ErrInvalidParameters))
  {
    hide OpenSession, ProcessChunk, SignAndReview;
  }

  /** What the table says of a request that reaches a handler. */
  lemma HandlerTells(st: State, found: State, a: Account, request: bytes, other: OtherStep, w: World)
    requires Inv(st, a, w) && st.io == ExpectIo && WellFormed(request) && InstructionOf(request[1]) != NoInstruction
    requires st.ins == NoInstruction || st.ins == InstructionOf(request[1])
    requires found == Found(Logged(st, Received(request)), request)
    ensures var isNew := st.ins == NoInstruction;
            request[1] == 0x20 ==>
              Tells(found, SignTransaction(found, request[2], request[3], request[5..], isNew, w),
                    SigningError(st, Flatten(a.chunks), request[2], request[3], request[5..]))
  {
    hide Told, SignTransaction, Tells, SigningError, Quiet, Live;
    if request[1] == 0x20 {
      if st.ins == NoInstruction {
        NewSessionTells(st, found, request[2], request[3], request[5..], w);
        SentIsIrrelevant(st, Flatten(a.chunks), request[2], request[3], request[5..]);
      } else {
        SessionTells(st, found, a, request[2], request[3], request[5..], w);
      }
    }
  }

  lemma SentIsIrrelevant(st: State, sent: bytes, p1: uint8, p2: uint8, data: bytes)
    requires st.ins == NoInstruction
    ensures SigningError(st, sent, p1, p2, data) == SigningError(st, [], p1, p2, data)
  {
    hide OpeningError;
  }

  lemma OtherTells(st: State, step: OtherStep)
    requires st.ins != SignTx
    ensures if step.OtherThrows? then RunOther(st, step) == (st, Throws(step.error)) else !RunOther(st, step).1.Throws?
    ensures Grown(st.log, RunOther(st, step).0.log, false)
  {
    OtherHarmless(st, step);
    HarmlessGrown(st.log, RunOther(st, step).0.log, false);
    ScreensDoNotThrow();
    hide Harmless, Grown, DisplayText, DisplayPrompt;
  }

  /** Every request with something wrong is answered with exactly the first thing that is wrong, in the name of the
      running or the named instruction, and the device goes idle; no other request is answered with an error code.
      This holds in every state a run can reach. */
  lemma RequestAnswered(st: State, a: Account, unlocked: bool, request: bytes, other: OtherStep, w: World)
    requires Inv(st, a, w)
    ensures var error, st' := ErrorFor(st, Flatten(a.chunks), unlocked, request, other),
                              React(st, Request(unlocked, request, other), w);
            if error.Some? then Refused(st, request, Answering(st, unlocked, request), error.value, st')
            else NotRefused(st, st')
  {
    var fault := HeaderFault(st, unlocked, request);
    if fault.Some? {
      HeaderRefused(st, unlocked, request, other, w);
    } else if request == [] {
      EmptyResets(st, unlocked, other, w);
    } else {
      NoFaultHandled(st, unlocked, request);
      HandlerAnswers(st, a, unlocked, request, other, w);
    }
  }

  lemma EmptyResets(st: State, unlocked: bool, other: OtherStep, w: World)
    requires st.io == ExpectIo
    ensures React(st, Request(unlocked, [], other), w).log == st.log + [Received([]), Restarted]
    ensures NotRefused(st, React(st, Request(unlocked, [], other), w))
  {
    assert (st.log + [Received([])]) + [Restarted] == st.log + [Received([]), Restarted];
  }

  /** An assertion that fails in another instruction resets the device as a request of no bytes does; the host gets no
      answer. */
  lemma AssertionResets(st: State, unlocked: bool, request: bytes, other: OtherStep, w: World)
    requires HeaderFault(st, unlocked, request).None? && request != [] && request[1] != 0x20
    requires other == OtherThrows(ErrAssert) || other == OtherResets
    ensures var st' := React(st, Request(unlocked, request, other), w);
            Quiet(st') && st'.log == st.log + [Received(request), Restarted]
  {
    NoFaultHandled(st, unlocked, request);
    var st' := Logged(st, Received(request));
    DispatchIs(st', unlocked, request, other, w);
    hide Dispatch, Handled, HeaderFault;
    assert st.log + [Received(request)] + [Restarted] == st.log + [Received(request), Restarted];
  }

  lemma HandlerAnswers(st: State, a: Account, unlocked: bool, request: bytes, other: OtherStep, w: World)
    requires Inv(st, a, w) && request != [] && HeaderFault(st, unlocked, request).None?
    ensures var error, st' := ErrorFor(st, Flatten(a.chunks), unlocked, request, other),
                              React(st, Request(unlocked, request, other), w);
            if error.Some? then Refused(st, request, Named(request[1]), error.value, st')
            else NotRefused(st, st')
  {
    NoFaultHandled(st, unlocked, request);
    hide Inv, SignTransaction, RunOther, Dispatch, Caught, Refused, NotRefused, SigningError, Grown, HeaderFault;
    var st' := Logged(st, Received(request));
    DispatchIs(st', unlocked, request, other, w);
    var o, found := Dispatch(st', unlocked, request, other, w), Found(st', request);
    HandlerTells(st, found, a, request, other, w);
    if request[1] == 0x20 {
      var error := SigningError(st, Flatten(a.chunks), request[2], request[3], request[5..]);
      SignTransactionGrown(found, request[2], request[3], request[5..], st.ins == NoInstruction, w);
      TableHasNoAssert(st, Flatten(a.chunks), request[2], request[3], request[5..]);
      AnswerFollows(st, request, found, o, error);
    } else {
      OtherTells(found, other);
      AnswerOther(st, request, found, o, other);
    }
  }

  lemma TableHasNoAssert(st: State, sent: bytes, p1: uint8, p2: uint8, data: bytes)
    ensures SigningError(st, sent, p1, p2, data) != Some(ErrAssert)
  {
  }

  lemma AnswerFollows(st: State, request: bytes, found: State, o: Session.Outcome, error: Option<Error>)
    requires found.log == st.log + [Received(request)] && error != Some(ErrAssert)
    requires Tells(found, o, error) && Grown(found.log, o.0.log, false)
    ensures if error.Some? then Refused(st, request, found.ins, error.value, Caught(o)) else NotRefused(st, Caught(o))
  {
    hide Refused, NotRefused, Caught, Grown;
    if error.Some? {
      CaughtThrow(o, st, request, found.ins, error.value);
    } else {
      CaughtElse(o, st, request);
    }
  }

  lemma AnswerOther(st: State, request: bytes, found: State, o: Session.Outcome, other: OtherStep)
    requires found.log == st.log + [Received(request)] && Grown(found.log, o.0.log, false)
    requires if other.OtherThrows? then o == (found, Throws(other.error)) else !o.1.Throws?
    ensures if other.OtherThrows? && other.error != ErrAssert then
              Refused(st, request, found.ins, other.error, Caught(o))
            else NotRefused(st, Caught(o))
  {
    if other.OtherThrows? && other.error == ErrAssert {
      CaughtElse((found, Reset), st, request);
    } else {
      hide Refused, NotRefused, Caught, Grown;
      if other.OtherThrows? {
        CaughtThrow(o, st, request, found.ins, other.error);
      } else {
        CaughtElse(o, st, request);
      }
    }
  }
}
