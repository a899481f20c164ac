/** Which inputs can still become a transaction: faults are final, and a waiting stream can finish unless the header
    it is reading is already hopeless. */
module Continuation {
  import opened Words
  import opened Numerals
  import opened Errors
  import opened Rlp
  import opened StreamModel
  import opened FieldEntry
  import opened OneShot

  /** The smallest length that a header beginning with `h` can announce. */
  function LeastLength(h: bytes): nat
    requires h != [] && |h| <= 1 + LengthOfLength(h[0])
  {
    Announced(h + Zeros(1 + LengthOfLength(h[0]) - |h|))
  }

  /** A header that begins with `h` may have at most four length bytes, must announce a list for the envelope and a
      string for every other field, and must leave a length within the limit of the field. */
  ghost predicate CanBecome(h: bytes, field: Field) {
    h == []
    || (LengthOfLength(h[0]) <= 4 && |h| <= 1 + LengthOfLength(h[0])
        && if field == TxEnvelope then AnnouncesList(h[0])
           else !AnnouncesList(h[0]) && LeastLength(h) <= Limit(field))
  }

  /** What is asked of the parser's state. */
  ghost predicate CanFinish(m: Machine) {
    m.field == TxDone || m.processing || CanBecome(m.header, m.field)
  }

  // A hopeless header

  lemma EvalGrows(front: bytes, b: uint8, n: nat)
    ensures Eval(256, front + [0] + Zeros(n)) <= Eval(256, front + [b] + Zeros(n))
  {
    hide Eval, Pow;
    EvalConcat(256, front + [0], Zeros(n));
    EvalConcat(256, front + [b], Zeros(n));
    EvalSnoc(256, front, 0);
    EvalSnoc(256, front, b);
    ProductGrows(Eval(256, front + [0]), Eval(256, front + [b]), Pow(256, n));
  }

  lemma ProductGrows(a: nat, b: nat, c: nat)
    requires a <= b
    ensures a * c <= b * c
  {
  }

  lemma LeastLengthGrows(h: bytes, b: uint8)
    requires h != [] && |h| <= LengthOfLength(h[0])
    ensures LeastLength(h) <= LeastLength(h + [b])
  {
    var n := LengthOfLength(h[0]) - |h|;
    hide Eval;
    EvalGrows(h[1..], b, n);
    assert (h + Zeros(n + 1))[1..] == h[1..] + [0] + Zeros(n);
    assert ((h + [b]) + Zeros(n))[1..] == h[1..] + [b] + Zeros(n);
  }

  lemma HopelessStays(h: bytes, b: uint8, field: Field)
    requires h != [] && !CanBecome(h, field) && |h| <= LengthOfLength(h[0])
    ensures !CanBecome(h + [b], field)
  {
    hide Announced, LeastLength;
    assert (h + [b])[0] == h[0];
    LeastLengthGrows(h, b);
  }

  /** A header that turned out hopeless is refused when it is complete. */
  lemma HopelessRefused(m: Machine, b: uint8, typed: bool)
    requires HeaderRead(m, b) && !CanBecome(m.header, m.field)
    ensures Enter(m, b, typed).1 == Fault
  {
    HeaderDetection(m.header);
    WholeHeaderLength(m.header);
    if m.field.IsString() {
      LimitIs(m.field, Announced(m.header));
    }
    hide Announced, LengthOfLength, CanDecode, Taken, Stored, Completed, DecodeLength, LeastLength, Limit;
  }

  lemma WholeHeaderLength(h: bytes)
    requires h != [] && |h| == 1 + LengthOfLength(h[0])
    ensures LeastLength(h) == Announced(h)
  {
    assert h + Zeros(0) == h;
  }

  lemma {:induction false} HopelessNeverFinishes(m: Machine, t: bytes, typed: bool)
    requires Waiting(m) && !CanFinish(m)
    ensures Feed(m, t, typed).1 != Finished
    decreases |t|
  {
    if t == [] {
      FeedNothing(m, typed);
    } else {
      FeedHeaderByte(m, t, typed);
      HeaderDetection(m.header);
      hide Feed, Enter, CanDecode, CanBecome, Waiting;
      if |m.header| < 5 {
        var h := m.header + [t[0]];
        HeaderDetection(h);
        HopelessStays(m.header, t[0], m.field);
        var m' := m.(header := h, absorbed := m.absorbed + [t[0]]);
        if CanDecode(h) == Ok(Incomplete) {
          HopelessNeverFinishes(m', t[1..], typed);
        } else {
          HopelessRefused(m', t[0], typed);
        }
      }
    }
  }

  // What is missing

  /** An empty string for every field from `field` on. */
  function Blanks(field: Field): bytes
    decreases field.Left()
  {
    if field == TxDone || !field.IsString() then [] else [0x80] + Blanks(field.Next())
  }

  lemma BlankRead(s: bytes)
    requires s != [] && s[0] == 0x80
    ensures ReadHeader(s) == Item(1, 0, false)
  {
  }

  lemma {:induction false} BlanksFinish(m: Machine, typed: bool)
    requires AtBoundary(m) && (m.field.IsString() || m.field == TxDone)
    ensures Feed(m, Blanks(m.field), typed).1 == Finished
    decreases m.field.Left()
  {
    var s := Blanks(m.field);
    if m.field == TxDone {
      FeedEnds(m, s, typed);
    } else {
      BlankRead(s);
      hide Feed, AtBoundary, ReadHeader, WithItem;
      var next := FeedItem(m, s, typed);
      NextIsCloser(m.field);
      BlanksFinish(next, typed);
      assert s[1..] == Blanks(next.field);
    }
  }

  /** Zeros fill up a payload that has begun. */
  lemma PayloadFilled(m: Machine, typed: bool)
    requires Waiting(m) && m.processing
    ensures var m' := Feed(m, Zeros(m.length - m.pos), typed).0; AtBoundary(m') && m'.field == m.field.Next()
    ensures Feed(m, Zeros(m.length - m.pos), typed).1 != Fault
  {
    var rest := Zeros(m.length - m.pos);
    BlockIsBytes(m, rest, typed);
    ProxyIsString(m, rest, typed);
    FieldMoves(Flagged(m), rest);
    hide Feed, Stored, Completed;
    FeedEnds(Proxy(m, rest, typed).0, rest[Taken(m, rest)..], typed);
  }

  lemma FinishesAfter(m: Machine, a: bytes, b: bytes, typed: bool)
    requires var (m', status) := Feed(m, a, typed);
             status == Finished || (status == Processing && Feed(m', b, typed).1 == Finished)
    ensures Feed(m, a + b, typed).1 == Finished
  {
    hide Feed;
    FeedConcat(m, a, b, typed);
  }

  /** Behind a header. */
  ghost predicate BehindHeader(m: Machine) {
    Waiting(m) && (m.processing || (m.header == [] && (m.field.IsString() || m.field == TxDone)))
  }

  lemma BodyFinishes(m: Machine, typed: bool) returns (t: bytes)
    requires BehindHeader(m)
    ensures Feed(m, t, typed).1 == Finished
  {
    hide Feed;
    if m.processing {
      var rest := Zeros(m.length - m.pos);
      PayloadFilled(m, typed);
      FeedKeepsWaiting(m, rest, typed);
      NextIsCloser(m.field);
      t := Blanks(m.field.Next());
      BlanksFinish(Feed(m, rest, typed).0, typed);
      FinishesAfter(m, rest, t, typed);
      t := rest + t;
    } else {
      t := Blanks(m.field);
      BlanksFinish(m, typed);
    }
  }

  /** The rest of a header. */
  function HeaderRest(m: Machine): bytes {
    if m.header == [] then [if m.field == TxEnvelope then 0xc0 else 0x80]
    else Zeros(if |m.header| <= LengthOfLength(m.header[0]) then 1 + LengthOfLength(m.header[0]) - |m.header| else 0)
  }

  lemma {:induction false} HeaderFed(m: Machine, t: bytes, typed: bool)
    requires Waiting(m) && !m.processing && m.field != TxDone && t != []
    requires var h := m.header + t; LengthOfLength(h[0]) <= 4 && |h| == 1 + LengthOfLength(h[0])
    ensures var m' := m.(header := m.header + t, absorbed := m.absorbed + t);
            HeaderRead(m', t[|t| - 1]) && Feed(m, t, typed) == Continued(Enter(m', t[|t| - 1], typed), [], typed)
    decreases |t|
  {
    FeedHeaderByte(m, t, typed);
    var h := m.header + [t[0]];
    assert h[0] == (m.header + t)[0] && h + t[1..] == m.header + t;
    HeaderDetection(h);
    assert (m.absorbed + [t[0]]) + t[1..] == m.absorbed + t;
    hide Feed, Enter, CanDecode, Waiting, LengthOfLength;
    if |t| > 1 {
      HeaderFed(m.(header := h, absorbed := m.absorbed + [t[0]]), t[1..], typed);
    } else {
      assert t == [t[0]];
    }
  }

  lemma HeaderAccepted(m: Machine, b: uint8, typed: bool)
    requires HeaderRead(m, b) && CanBecome(m.header, m.field)
    ensures var (m', status) := Enter(m, b, typed);
            status == Processing && (m'.processing || (m'.header == [] && (m'.field.IsString() || m'.field == TxDone)))
  {
    HeaderDetection(m.header);
    WholeHeaderLength(m.header);
    if m.field.IsString() {
      LimitIs(m.field, Announced(m.header));
    }
    hide Announced, LengthOfLength, CanDecode, DecodeLength, LeastLength, Proxy, Limit;
    var d := DecodeLength(m.header).value.value;
    FieldAccepted(Begin(m, d), ReadAgain(d, b), typed);
  }

  lemma FieldAccepted(m: Machine, avail: bytes, typed: bool)
    requires m.header == [] && (m.field == TxEnvelope || m.field.IsString()) && m.processing
    requires if m.field == TxEnvelope then m.isList else !m.isList && m.field.Admits(m.length)
    ensures var (m', status) := Proxy(m, avail, typed);
            status == Processing && (m'.processing || (m'.header == [] && (m'.field.IsString() || m'.field == TxDone)))
  {
    if m.field.IsString() {
      ProxyIsString(m, avail, typed);
      FieldMoves(Flagged(m), avail);
      hide Stored, Completed;
    }
  }

  lemma RestCompletesHeader(m: Machine)
    requires Waiting(m) && !m.processing && m.field != TxDone && CanBecome(m.header, m.field)
    ensures var t := HeaderRest(m); var h := m.header + t;
            t != [] && LengthOfLength(h[0]) <= 4 && |h| == 1 + LengthOfLength(h[0]) && CanBecome(h, m.field)
  {
    var h := m.header + HeaderRest(m);
    if m.header != [] {
      HeaderDetection(m.header);
      assert h[0] == m.header[0];
    }
    hide CanDecode, Announced;
    WholeHeaderLength(h);
  }

  lemma HeaderFinishes(m: Machine, typed: bool) returns (t: bytes)
    requires Waiting(m) && !m.processing && m.field != TxDone && CanBecome(m.header, m.field)
    ensures Feed(m, t, typed).1 == Finished
  {
    var rest := HeaderRest(m);
    RestCompletesHeader(m);
    HeaderFed(m, rest, typed);
    var at := m.(header := m.header + rest, absorbed := m.absorbed + rest);
    HeaderAccepted(at, rest[|rest| - 1], typed);
    var m' := Enter(at, rest[|rest| - 1], typed).0;
    FeedEnds(m', [], typed);
    FeedKeepsWaiting(m, rest, typed);
    hide Feed, Enter, CanBecome, Waiting, HeaderRest;
    var body := BodyFinishes(m', typed);
    FinishesAfter(m, rest, body, typed);
    t := rest + body;
  }

  /** A stream that waits can be brought to its end exactly when it is inside a field, or when the header bytes it
      holds can still become a header of the expected field. */
  lemma FinishesWhen(m: Machine, typed: bool)
    requires Waiting(m)
    ensures (exists t :: Feed(m, t, typed).1 == Finished) <==> CanFinish(m)
  {
    hide Feed, CanBecome;
    if m.field == TxDone {
      FeedEnds(m, [], typed);
      assert Feed(m, [], typed).1 == Finished;
    } else if m.processing {
      var t := BodyFinishes(m, typed);
    } else if CanFinish(m) {
      var t := HeaderFinishes(m, typed);
    } else {
      forall t
        ensures Feed(m, t, typed).1 != Finished
      {
        HopelessNeverFinishes(m, t, typed);
      }
    }
  }

  // The same for whole inputs

  /** The input is the beginning of one that the one-shot decoder accepts. */
  ghost predicate Completable(s: bytes, typed: bool) {
    exists t :: ReadTransaction(s + t, typed).Complete?
  }

  lemma CompleteIsFinished(s: bytes, t: bytes, typed: bool)
    ensures ReadTransaction(s + t, typed).Complete? <==>
              Feed(INITIAL, s, typed).1 == Finished
              || (Feed(INITIAL, s, typed).1 == Processing && Feed(Feed(INITIAL, s, typed).0, t, typed).1 == Finished)
  {
    StreamRefinesOneShot(s + t, typed);
    FeedConcat(INITIAL, s, t, typed);
    hide Feed, ReadTransaction, ItemsFit, WithItems;
  }

  lemma CompletedBy(s: bytes, t: bytes, typed: bool)
    requires Feed(INITIAL, s, typed).1 != Fault && Feed(Feed(INITIAL, s, typed).0, t, typed).1 == Finished
    ensures Completable(s, typed)
  {
    CompleteIsFinished(s, t, typed);
    hide Feed, ReadTransaction;
    assert ReadTransaction(s + t, typed).Complete?;
  }

  lemma DoneCanFinish(m: Machine)
    ensures m.field == TxDone ==> CanFinish(m)
  {
  }

  /** An input can still become a transaction exactly when the stream has not faulted on it and can finish from the
      state it is in. */
  lemma CompletableWhen(s: bytes, typed: bool)
    ensures var (m, status) := Feed(INITIAL, s, typed);
            Completable(s, typed) <==> status != Fault && CanFinish(m)
  {
    InitialWaits();
    FeedKeepsWaiting(INITIAL, s, typed);
    var (m, status) := Feed(INITIAL, s, typed);
    hide Feed, ReadTransaction, CanFinish, Waiting;
    if status != Fault {
      FinishesWhen(m, typed);
    }
    if status != Fault && CanFinish(m) {
      var t: bytes :| Feed(m, t, typed).1 == Finished;
      CompletedBy(s, t, typed);
    }
    forall t: bytes | ReadTransaction(s + t, typed).Complete?
      ensures status != Fault && CanFinish(m)
    {
      CompleteIsFinished(s, t, typed);
      DoneCanFinish(m);
    }
  }

  /** What the decoder calls malformed stays so, whatever follows. */
  lemma MalformedStays(s: bytes, t: bytes, typed: bool)
    requires ReadTransaction(s, typed) == Malformed
    ensures ReadTransaction(s + t, typed) == Malformed
  {
    StreamRefinesOneShot(s, typed);
    StreamRefinesOneShot(s + t, typed);
    FeedConcat(INITIAL, s, t, typed);
    hide Feed, ReadTransaction, ItemsFit, WithItems;
  }

  lemma FeedFirst(m: Machine, s: bytes, typed: bool)
    requires m.field != TxDone && s != [] && Step(m, s[0], typed).1 == Processing
    ensures Feed(m, s, typed) == Feed(Step(m, s[0], typed).0, s[1..], typed)
  {
  }

  /** An envelope with five length bytes, and a list where the nonce is due: the stream waits for their headers, but
      nothing can complete them. */
  lemma WaitsInVainExample()
    ensures ReadTransaction([0xfc], false) == NotYet && !Completable([0xfc], false)
    ensures ReadTransaction([0xc9, 0xf9], false) == NotYet && !Completable([0xc9, 0xf9], false)
  {
    EnvelopeTooLong();
    ListForNonce();
    CompletableWhen([0xfc], false);
    CompletableWhen([0xc9, 0xf9], false);
    StreamRefinesOneShot([0xfc], false);
    StreamRefinesOneShot([0xc9, 0xf9], false);
    hide Feed, ReadTransaction, Completable, ItemsFit, WithItems;
  }

  lemma EnvelopeTooLong()
    ensures var (m, status) := Feed(INITIAL, [0xfc], false);
            status == Processing && !m.processing && m.field == TxEnvelope && m.header == [0xfc]
  {
    assert [0xfc][1..] == [];
    FeedFirst(INITIAL, [0xfc], false);
    FeedEnds(Step(INITIAL, 0xfc, false).0, [], false);
  }

  lemma ListForNonce()
    ensures var (m, status) := Feed(INITIAL, [0xc9, 0xf9], false);
            status == Processing && !m.processing && m.field == TxNonce && m.header == [0xf9]
  {
    var s: bytes := [0xc9, 0xf9];
    var m := Step(INITIAL, 0xc9, false).0;
    assert s[1..] == [0xf9] && [0xf9][1..] == [];
    FeedFirst(INITIAL, s, false);
    FeedFirst(m, [0xf9], false);
    FeedEnds(Step(m, 0xf9, false).0, [], false);
  }
}
