/** Exactly which sessions can be played to their end. */
module Feasibility {
  import opened Words
  import opened Errors
  import opened Rlp
  import opened StreamModel
  import opened RoundTrip
  import opened Bip44
  import opened World
  import opened Addresses
  import opened Session
  import opened Approval
  import opened Phases
  import opened Safety
  import opened Consequences
  import opened Completion
  import opened EndToEnd

  // The log tells the session

  ghost predicate IsRequest(entry: Entry, p1: uint8) {
    entry.Received? && |entry.request| > 2 && entry.request[2] == p1
  }

  ghost predicate NoRequest(l: seq<Entry>, p1: uint8) {
    forall k :: 0 <= k < |l| ==> !IsRequest(l[k], p1)
  }

  lemma NoneInBoth(a: seq<Entry>, b: seq<Entry>, p1: uint8)
    requires NoRequest(a, p1) && NoRequest(b, p1)
    ensures NoRequest(a + b, p1)
  {
  }

  lemma NoneBehind(a: seq<Entry>, x: Entry, r: seq<Entry>, p1: uint8)
    requires NoRequest(r, p1)
    ensures forall k :: |a| < k < |a + [x] + r| ==> !IsRequest((a + [x] + r)[k], p1)
  {
    forall k | |a| < k < |a + [x] + r|
      ensures !IsRequest((a + [x] + r)[k], p1)
    {
      assert (a + [x] + r)[k] == r[k - |a| - 1];
    }
  }

  /** Two logs that are equal have their last request of a kind at the same place. */
  lemma SameLast(a: seq<Entry>, x: Entry, r: seq<Entry>, b: seq<Entry>, y: Entry, s: seq<Entry>, p1: uint8)
    requires a + [x] + r == b + [y] + s
    requires IsRequest(x, p1) && IsRequest(y, p1) && NoRequest(r, p1) && NoRequest(s, p1)
    ensures a == b && x == y && r == s
  {
    NoneBehind(a, x, r, p1);
    NoneBehind(b, y, s, p1);
    var l := a + [x] + r;
    assert l[|a|] == x && l[|b|] == y && l[..|a|] == a && l[..|b|] == b && l[|a| + 1..] == r && l[|b| + 1..] == s;
  }

  /** And their first one. */
  lemma SameFirst(a: seq<Entry>, x: Entry, r: seq<Entry>, b: seq<Entry>, y: Entry, s: seq<Entry>, p1: uint8)
    requires a + [x] + r == b + [y] + s
    requires IsRequest(x, p1) && IsRequest(y, p1) && NoRequest(a, p1) && NoRequest(b, p1)
    ensures a == b
  {
    var l := a + [x] + r;
    assert l[|a|] == x && l[|b|] == y && l[..|a|] == a && l[..|b|] == b;
    assert forall k :: 0 <= k < |a| ==> l[k] == a[k];
    assert forall k :: 0 <= k < |b| ==> l[k] == b[k];
  }

  /** What follows the first request of an opening. */
  function AfterFirst(path: Indexes): seq<Entry> {
    (if SignInitPolicy(path) == Warn then [Shown("Unusual Request", "Be careful!"), Confirmed] else [])
    + [Asked("Start New", "Transaction?"), Confirmed, Replied(SignTx, Success([])), ShownBusy]
  }

  lemma OpeningStarts(path: Indexes)
    requires |path| <= BIP32_MAX_PATH_LENGTH
    ensures |Wire(path)| < 256 && Opening(path) == [Received(Command(0x00, Wire(path)))] + AfterFirst(path)
  {
    WireFits(path);
    hide Wire, Command, SignInitPolicy;
  }

  lemma {:induction false} DeliveredRequests(chunks: seq<bytes>, complete: bool)
    requires forall i :: 0 <= i < |chunks| ==> 0 < |chunks[i]| < 256
    ensures NoRequest(Delivered(chunks, complete), 0x00) && NoRequest(Delivered(chunks, complete), 0x80)
    decreases |chunks|
  {
    if chunks != [] {
      var n := |chunks| - 1;
      DeliveredRequests(chunks[..n], false);
    }
  }

  lemma {:induction false} DeliveredTells(a: seq<bytes>, b: seq<bytes>, complete: bool)
    requires forall i :: 0 <= i < |a| ==> 0 < |a[i]| < 256
    requires forall i :: 0 <= i < |b| ==> 0 < |b[i]| < 256
    requires Delivered(a, complete) == Delivered(b, complete)
    ensures a == b
    decreases |a|
  {
    if a != [] && b != [] {
      var m, n := |a| - 1, |b| - 1;
      var l := Delivered(a, complete);
      assert l[..|l| - 3] == Delivered(a[..m], false) == Delivered(b[..n], false);
      assert l[|l| - 3] == Received(Command(0x01, a[m])) == Received(Command(0x01, b[n]));
      SameData(0x01, a[m], b[n]);
      DeliveredTells(a[..m], b[..n], false);
      assert a == a[..m] + [a[m]] && b == b[..n] + [b[n]];
    }
  }

  lemma SameData(p1: uint8, data: bytes, data': bytes)
    requires |data| < 256 && |data'| < 256 && Command(p1, data) == Command(p1, data')
    ensures data == data'
  {
    CommandParts(p1, data);
    CommandParts(p1, data');
  }

  lemma WireTells(path: Indexes, path': Indexes)
    requires |path| <= BIP32_MAX_PATH_LENGTH && |path'| <= BIP32_MAX_PATH_LENGTH && Wire(path) == Wire(path')
    ensures path == path'
  {
    hide Wire, Parsed;
    ParseInvertsWire(path, Wire(path));
    ParseInvertsWire(path', Wire(path'));
  }

  /** The review behind its request, and the reply. */
  function AfterLast(a: Account, w: World): seq<Entry>
    requires Accountable(a)
  {
    Review(a.path, TransactionOf(a), SendSignature, w)[1..] + [Confirmed, Replied(SignTx, Success(SignatureOf(a, w)))]
  }

  lemma ReviewStarts(a: Account, w: World)
    requires Accountable(a)
    ensures var r := Review(a.path, TransactionOf(a), SendSignature, w);
            r != [] && r[0] == Received(Command(0x80, []))
            && NoRequest(r[1..], 0x00) && NoRequest(AfterLast(a, w), 0x00)
  {
    hide Streamed, RecipientText, AddressText, AmountOf, FeeOf, SignatureOf, Command;
    ReviewInFull(a.path, TransactionOf(a), w);
    var r := Review(a.path, TransactionOf(a), SendSignature, w);
    hide Review;
    assert r == (r + [Confirmed])[..|r|];
  }

  lemma ScriptHasRequests(a: Account, w: World)
    requires Accountable(a)
    ensures |Wire(a.path)| < 256
    ensures Script(a, w) == a.before + [Received(Command(0x00, Wire(a.path)))] + Behind(a, w)
    ensures NoRequest(Behind(a, w), 0x00)
  {
    OpeningStarts(a.path);
    hide Wire, Opening, Delivered, Review, AfterFirst, AfterLast, Command, Script, Accountable, NoRequest;
    ReviewStarts(a, w);
    BehindHasNone(a, w);
    ScriptInParts(a, w);
    var first, last := Received(Command(0x00, Wire(a.path))), Received(Command(0x80, []));
    InParts(a.before, first, AfterFirst(a.path), Delivered(a.chunks, true), last, AfterLast(a, w));
  }

  /** The log of a session behind its first request. */
  function Behind(a: Account, w: World): seq<Entry>
    requires Accountable(a)
  {
    AfterFirst(a.path) + (Delivered(a.chunks, true) + [Received(Command(0x80, []))] + AfterLast(a, w))
  }

  lemma InParts(a: seq<Entry>, x: Entry, b: seq<Entry>, c: seq<Entry>, y: Entry, d: seq<Entry>)
    ensures a + ([x] + b) + c + ([y] + d) == a + [x] + (b + (c + [y] + d))
  {
  }

  lemma ScriptInParts(a: Account, w: World)
    requires Accountable(a)
    ensures Script(a, w)
            == a.before + Opening(a.path) + Delivered(a.chunks, true)
               + ([Received(Command(0x80, []))] + AfterLast(a, w))
  {
    ReviewStarts(a, w);
    hide Opening, Delivered, Review, TransactionOf, SignatureOf, Command;
    var l, r, s := Begun(a, true), Review(a.path, TransactionOf(a), SendSignature, w),
                   [Confirmed, Replied(SignTx, Success(SignatureOf(a, w)))];
    assert r == [r[0]] + r[1..];
    assert l + ([r[0]] + r[1..]) + s == l + ([r[0]] + (r[1..] + s));
  }

  lemma BehindHasNone(a: Account, w: World)
    requires Accountable(a)
    ensures NoRequest(Behind(a, w), 0x00)
  {
    ReviewStarts(a, w);
    DeliveredRequests(a.chunks, true);
    FirstHasNone(a.path);
    LastIsOther();
    hide Delivered, AfterFirst, AfterLast, Command, NoRequest, Review;
    var last := Received(Command(0x80, []));
    NoneInBoth(Delivered(a.chunks, true), [last], 0x00);
    NoneInBoth(Delivered(a.chunks, true) + [last], AfterLast(a, w), 0x00);
    NoneInBoth(AfterFirst(a.path), Delivered(a.chunks, true) + [last] + AfterLast(a, w), 0x00);
  }

  lemma LastIsOther()
    ensures NoRequest([Received(Command(0x80, []))], 0x00) && IsRequest(Received(Command(0x80, [])), 0x80)
  {
    CommandParts(0x80, []);
  }

  lemma FirstHasNone(path: Indexes)
    ensures NoRequest(AfterFirst(path), 0x00)
  {
    hide SignInitPolicy;
  }

  /** The log of a session tells what went before, the path and the chunks. */
  lemma ScriptTellsAccount(a: Account, a': Account, w: World)
    requires Accountable(a) && Accountable(a') && Script(a, w) == Script(a', w)
    ensures a == a'
  {
    ScriptHasRequests(a, w);
    ScriptHasRequests(a', w);
    CommandParts(0x00, Wire(a.path));
    CommandParts(0x00, Wire(a'.path));
    hide Script, Wire, Command, Behind, NoRequest;
    SameLast(a.before, Received(Command(0x00, Wire(a.path))), Behind(a, w),
             a'.before, Received(Command(0x00, Wire(a'.path))), Behind(a', w), 0x00);
    SameData(0x00, Wire(a.path), Wire(a'.path));
    WireTells(a.path, a'.path);
    SameChunks(a, a', w);
  }

  lemma SameChunks(a: Account, a': Account, w: World)
    requires Accountable(a) && Accountable(a') && a.path == a'.path && Behind(a, w) == Behind(a', w)
    ensures a.chunks == a'.chunks
  {
    DeliveredRequests(a.chunks, true);
    DeliveredRequests(a'.chunks, true);
    LastIsOther();
    hide Delivered, AfterFirst, AfterLast, Command, NoRequest;
    var last, d, d' := Received(Command(0x80, [])), Delivered(a.chunks, true), Delivered(a'.chunks, true);
    SameBehind(AfterFirst(a.path), d + [last] + AfterLast(a, w), d' + [last] + AfterLast(a', w));
    SameFirst(d, last, AfterLast(a, w), d', last, AfterLast(a', w), 0x80);
    DeliveredTells(a.chunks, a'.chunks, true);
  }

  lemma SameBehind(a: seq<Entry>, b: seq<Entry>, c: seq<Entry>)
    requires a + b == a + c
    ensures b == c
  {
    assert (a + b)[|a|..] == b && (a + c)[|a|..] == c;
  }

  // Which sessions can be completed

  /** A session whose script is found in a run has passed every check. */
  lemma PlayedIsChecked(events: seq<Event>, a: Account, w: World)
    requires Accountable(a) && Script(a, w) <= Run(BOOT, events, w).log
    ensures Checked(a)
  {
    var l, s := Run(BOOT, events, w).log, Script(a, w);
    var k := |s| - 1;
    SignatureLast(a, w);
    hide Run, Script, Checked, Accountable, IsSignature;
    assert l[k] == s[k] && l[..k + 1] == s;
    var a' := EverySignatureApproved(events, w, k);
    ScriptTellsAccount(a, a', w);
  }

  lemma SignatureLast(a: Account, w: World)
    requires Accountable(a)
    ensures Script(a, w) != [] && IsSignature(Script(a, w)[|Script(a, w)| - 1])
  {
    hide Begun, Review, Streamed;
  }

  /** Whatever happened before: from a quiet device a session can be played to its signature if and only if its path
      has at most nine indexes, its chunks are exactly enough, the chain is the expected one and amount and fee can
      be shown. */
  lemma PlayableWhen(past: seq<Event>, a: Account, w: World)
    requires Accountable(a) && Quiet(Run(BOOT, past, w)) && a.before == Run(BOOT, past, w).log
    ensures (exists events :: Script(a, w) <= Run(BOOT, past + events, w).log) <==> Checked(a)
  {
    hide Run, Script, Checked, Accountable, Quiet;
    if Checked(a) {
      var events := SessionCompletes(Run(BOOT, past, w), a, OtherResets, w);
      RunConcat(BOOT, past, events, w);
      assert Script(a, w) <= Run(BOOT, past + events, w).log;
    }
    forall events | Script(a, w) <= Run(BOOT, past + events, w).log
      ensures Checked(a)
    {
      PlayedIsChecked(past + events, a, w);
    }
  }

  // Ten indexes

  /** Whatever happened before, every presentable transaction, in any chunks, can be signed under an accepted path if
      and only if the path has at most nine indexes. */
  lemma SignableWhen(past: seq<Event>, a: Account, items: seq<bytes>, w: World)
    requires Accountable(a) && Quiet(Run(BOOT, past, w)) && a.before == Run(BOOT, past, w).log
    requires Presentable(items) && Flatten(a.chunks) == EncodeList(items)
    ensures (exists events :: Script(a, w) <= Run(BOOT, past + events, w).log) <==> |a.path| <= 9
  {
    hide Presentable, EncodeList, Run, Script, Checked, Accountable, Quiet, Flatten;
    PresentableIsChecked(a, items);
    PlayableWhen(past, a, w);
  }

  /** Asked for the signature under a path of ten indexes, the device resets, after it has collected everything. */
  lemma TenIndexesReset(st: State, a: Account, w: World)
    requires Accountable(a) && Collected(st, a) && st.ins == SignTx && st.ctx.path == a.path
    requires |a.path| == 10 && IsExpectedChain(TransactionOf(a).v)
    ensures var st' := React(st, Sends(0x80, []), w);
            Quiet(st') && st'.log == st.log + [Received(Command(0x80, [])), Restarted]
  {
    CommandParts(0x80, []);
    AllowedPathHasKeyWhen(a.path);
    hide Streamed, Begun, Command, IsExpectedChain, KeyDerivation, SignInitPolicy, Arrived;
  }

  const TEN_INDEXES: Indexes := [0x8000_002c, 0x8000_003c, 0x8000_0000, 0, 0, 0, 0, 0, 0, 0]

  lemma TenIndexesAccepted()
    ensures Parsed(Wire(TEN_INDEXES)) == Ok((TEN_INDEXES, 41)) && SignInitPolicy(TEN_INDEXES) == Warn
  {
    WireFits(TEN_INDEXES);
    hide Wire, Parsed;
    ParseInvertsWire(TEN_INDEXES, Wire(TEN_INDEXES));
  }

  /** A path of ten indexes that the parser and the policy accept, and that no session gets a signature for. */
  lemma TenIndexesExample(events: seq<Event>, before: seq<Entry>, chunks: seq<bytes>, w: World)
    requires forall i :: 0 <= i < |chunks| ==> 0 < |chunks[i]| < 256
    ensures Parsed(Wire(TEN_INDEXES)) == Ok((TEN_INDEXES, 41)) && SignInitPolicy(TEN_INDEXES) == Warn
    ensures var a := Account(before, TEN_INDEXES, chunks);
            Accountable(a) && !(Script(a, w) <= Run(BOOT, events, w).log)
  {
    TenIndexesAccepted();
    var a := Account(before, TEN_INDEXES, chunks);
    hide Run, Script, Wire, Parsed, SignInitPolicy, Streamed, Arrived, IsExpectedChain, AmountOf, FeeOf;
    if Script(a, w) <= Run(BOOT, events, w).log {
      PlayedIsChecked(events, a, w);
      assert false;
    }
  }
}
