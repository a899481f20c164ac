/** A decoder that sees the whole input at once, and the proof that the stream refines it.

    The input must be a list header and then one string item per expected field, each within its size bound.
    The length the list header announces is not compared with the items; bytes behind the last item are ignored.
 */
module OneShot {
  import opened Words
  import opened Errors
  import opened Rlp
  import opened StreamModel
  import opened FieldEntry

  /** `size` is the number of bytes in front of the payload. */
  datatype Header = NeedMore | TooLong | Item(size: nat, length: nat, isList: bool)

  function ReadHeader(s: bytes): Header {
    if s == [] then NeedMore
    else
      var n := LengthOfLength(s[0]);
      if n > 4 then if |s| >= 6 then TooLong else NeedMore
      else if |s| < 1 + n then NeedMore
      else Item(if s[0] <= 0x7f then 0 else 1 + n, Announced(s[..1 + n]), AnnouncesList(s[0]))
  }

  datatype Outcome = Complete(items: seq<bytes>, used: nat) | NotYet | Malformed
  {
    /** The outcome when `n` more bytes with the items `front` precede. */
    function Behind(n: nat, front: seq<bytes>): (outcome: Outcome)
      ensures outcome.Complete? <==> Complete?
    {
      if Complete? then Complete(front + items, n + used) else this
    }
  }

  /** How many bytes an item may have: 20 for the recipient, any number that fits a word for data, R and S, and 32
      for every other field. */
  function Limit(field: Field): nat {
    match field
    case TxRecipient => 20
    case TxData => 0xffff_ffff
    case TxR => 0xffff_ffff
    case TxS => 0xffff_ffff
    case _ => 32
  }

  lemma LimitIs(field: Field, length: nat)
    requires field.IsString() && length < W32
    ensures field.Admits(length) <==> length <= Limit(field)
  {
    WordSizes();
  }

  /** The items of `field` and of all fields behind it. */
  function ReadItems(s: bytes, field: Field): Outcome
    requires field.IsString() || field == TxDone
    decreases field.Left()
  {
    if field == TxDone then Complete([], 0)
    else
      match ReadHeader(s)
      case NeedMore => NotYet
      case TooLong => Malformed
      case Item(size, length, isList) =>
        if isList || length > Limit(field) then Malformed
        else if |s| < size + length then NotYet
        else
          ReadItems(s[size + length..], field.Next()).Behind(size + length, [s[size..size + length]])
  }

  function FirstField(typed: bool): Field {
    if typed then TxType else TxNonce
  }

  function ReadTransaction(s: bytes, typed: bool): Outcome {
    match ReadHeader(s)
    case NeedMore => NotYet
    case TooLong => Malformed
    case Item(size, _, isList) =>
      if !isList then Malformed
      else
        ReadItems(s[size..], FirstField(typed)).Behind(size, [])
  }

  /** A transaction record with the item of a field stored in it. */
  function WithItem(tx: Record, field: Field, item: bytes): Record {
    Completed(Stored(if field == TxData then tx.(isContractCall := IsContractCall(|item|)) else tx, field, 0, item),
              field, |item|)
  }

  function WithItems(tx: Record, field: Field, items: seq<bytes>): Record
    decreases |items|
  {
    if items == [] then tx else WithItems(WithItem(tx, field, items[0]), field.Next(), items[1..])
  }

  /** The stream stands between two fields. */
  ghost predicate AtBoundary(m: Machine) {
    Waiting(m) && !m.processing && m.header == []
  }

  /** A stream that has read the header bytes `h` so far. */
  function Peeked(m: Machine, h: bytes): Machine {
    m.(header := m.header + h, absorbed := m.absorbed + h)
  }

  /** Reading the rest `t` of a header that began with `h`. */
  lemma {:induction false} FeedHeader(m: Machine, h: bytes, t: bytes, typed: bool)
    requires AtBoundary(m) && m.field != TxDone && |h| <= 5
    requires h == [] || CanDecode(h) == Ok(Incomplete)
    ensures var s, r := h + t, Feed(Peeked(m, h), t, typed);
            if ReadHeader(s) == NeedMore then r == (Peeked(m, s), Processing)
            else if ReadHeader(s) == TooLong then r.1 == Fault
            else
              var k := 1 + LengthOfLength(s[0]);
              HeaderRead(Peeked(m, s[..k]), s[k - 1])
              && r == Continued(Enter(Peeked(m, s[..k]), s[k - 1], typed), s[k..], typed)
    decreases |t|
  {
    hide Enter, Feed, CanDecode, DecodeLength, Announced, Peeked, HeaderRead, Waiting;
    var s, at := h + t, Peeked(m, h);
    PeekedSoFar(m, h);
    if h != [] {
      HeaderDetection(h);
    }
    if t == [] {
      assert s == h;
      FeedEnds(at, t, typed);
    } else {
      FeedHeaderByte(at, t, typed);
      var h' := h + [t[0]];
      OneMore(m, h, t);
      if |h| < 5 {
        HeaderDetection(h');
        if CanDecode(h') == Ok(Incomplete) {
          FeedHeader(m, h', t[1..], typed);
        }
      }
    }
  }

  lemma PeekedSoFar(m: Machine, h: bytes)
    requires AtBoundary(m) && m.field != TxDone && |h| <= 5 && (h == [] || CanDecode(h) == Ok(Incomplete))
    ensures var at := Peeked(m, h); Waiting(at) && at.header == h && at.field == m.field && !at.processing
    ensures m.absorbed + h == Peeked(m, h).absorbed
  {
    assert m.header + h == h;
  }

  lemma OneMore(m: Machine, h: bytes, t: bytes)
    requires t != [] && m.header == []
    ensures var s, h', at := h + t, h + [t[0]], Peeked(m, h);
            h' + t[1..] == s && s[..|h'|] == h' && s[|h'|..] == t[1..] && s[|h'| - 1] == t[0] && s[0] == h'[0]
            && at.(header := at.header + [t[0]], absorbed := at.absorbed + [t[0]]) == Peeked(m, h')
            && Peeked(m, h').header == h'
  {
    var h' := h + [t[0]];
    assert (m.header + h) + [t[0]] == m.header + h' == h';
    assert (m.absorbed + h) + [t[0]] == m.absorbed + h';
  }

  /** A field begun with its header complete takes its payload from `avail`. */
  lemma TakePayload(began: Machine, avail: bytes, typed: bool)
    requires began.field.IsString() && began.pos == 0 && began.processing && began.tx.Sized() && began.header == []
    requires began.single ==> began.length == 1 && avail != []
    ensures var (m', status) := Proxy(began, avail, typed);
            if began.isList || !began.field.Admits(began.length) then status == Fault
            else
              status == Processing && Taken(began, avail) == Min(began.length, |avail|)
              && if |avail| < began.length then
                m'.field == began.field && (!began.single ==> m'.absorbed == began.absorbed + avail)
              else
                var item := avail[..began.length];
                m'.field == began.field.Next() && !m'.processing && m'.header == []
                && m'.tx == WithItem(began.tx, began.field, item)
                && m'.absorbed == if began.single then began.absorbed else began.absorbed + item
  {
    ProxyIsString(began, avail, typed);
    FieldMoves(Flagged(began), avail);
    hide Stored, Completed, IsContractCall;
    if !(began.isList || !began.field.Admits(began.length)) && |avail| < began.length {
      assert avail[..|avail|] == avail;
    }
  }

  /** The header of an item that is complete in `s`. */
  lemma HeaderOf(m: Machine, s: bytes, size: nat, length: nat, isList: bool) returns (k: nat, d: Decoded)
    requires ReadHeader(s) == Item(size, length, isList) && AtBoundary(m) && m.field != TxDone
    ensures k == 1 + LengthOfLength(s[0]) <= |s| && HeaderRead(Peeked(m, s[..k]), s[k - 1])
    ensures d.fieldLength == length && d.isList == isList && (d.offset == 0 <==> size == 0)
    ensures DecodeLength(Peeked(m, s[..k]).header) == Ok(Some(d))
    ensures size <= k && s[size..] == ReadAgain(d, s[k - 1]) + s[k..]
    ensures size == 0 ==> k == 1 && length == 1 && !isList
    ensures size != 0 ==> size == k
  {
    k := 1 + LengthOfLength(s[0]);
    var header := s[..k];
    assert m.header + header == header;
    HeaderDetection(header);
    d := DecodeLength(header).value.value;
  }

  /** One item: its header and payload take the stream to the next boundary with the item stored and everything
      hashed once. */
  lemma FeedItem(m: Machine, s: bytes, typed: bool) returns (m': Machine)
    requires AtBoundary(m) && m.field.IsString()
    ensures var r, header := Feed(m, s, typed), ReadHeader(s);
            if header == NeedMore then r.1 == Processing && r.0.absorbed == m.absorbed + s
            else if header == TooLong || header.isList || !m.field.Admits(header.length) then r.1 == Fault
            else
              var start, end := header.size, header.size + header.length;
              if |s| < end then r.1 == Processing && r.0.absorbed == m.absorbed + s
              else
                AtBoundary(m') && m'.field == m.field.Next() && m'.tx == WithItem(m.tx, m.field, s[start..end])
                && m'.absorbed == m.absorbed + s[..end] && r == Feed(m', s[end..], typed)
  {
    hide ReadHeader, LengthOfLength, Continued, Enter, Feed, WithItem, AtBoundary, Peeked;
    WholeHeader(m, s, typed);
    m' := m;
    var header := ReadHeader(s);
    if header.Item? {
      m' := FeedPayload(m, s, header.size, header.length, header.isList, typed);
    }
  }

  lemma WholeHeader(m: Machine, s: bytes, typed: bool)
    requires AtBoundary(m) && m.field != TxDone
    ensures var r := Feed(m, s, typed);
            if ReadHeader(s) == NeedMore then r.1 == Processing && r.0.absorbed == m.absorbed + s
            else if ReadHeader(s) == TooLong then r.1 == Fault
            else
              var k := 1 + LengthOfLength(s[0]);
              r == Continued(Enter(Peeked(m, s[..k]), s[k - 1], typed), s[k..], typed)
  {
    var nothing: bytes := [];
    assert nothing + s == s && m.header + nothing == m.header && m.absorbed + nothing == m.absorbed;
    assert Peeked(m, nothing) == m;
    hide Feed, Enter, Waiting, HeaderRead;
    FeedHeader(m, nothing, s, typed);
  }

  lemma FeedPayload(m: Machine, s: bytes, size: nat, length: nat, isList: bool, typed: bool) returns (m': Machine)
    requires AtBoundary(m) && m.field.IsString() && ReadHeader(s) == Item(size, length, isList)
    ensures var k := 1 + LengthOfLength(s[0]);
            var r := Continued(Enter(Peeked(m, s[..k]), s[k - 1], typed), s[k..], typed);
            if isList || !m.field.Admits(length) then r.1 == Fault
            else if |s| < size + length then r.1 == Processing && r.0.absorbed == m.absorbed + s
            else
              AtBoundary(m') && m'.field == m.field.Next()
              && m'.tx == WithItem(m.tx, m.field, s[size..size + length])
              && m'.absorbed == m.absorbed + s[..size + length]
              && r == Feed(m', s[size + length..], typed)
  {
    var k, d := HeaderOf(m, s, size, length, isList);
    hide ReadHeader, LengthOfLength, DecodeLength, Proxy, Enter, Feed, Waiting, WithItem;
    var pm, b := Peeked(m, s[..k]), s[k - 1];
    EnterIsProxy(pm, b, d, s[k..], typed);
    var began, avail := Begin(pm, d), s[size..];
    TakePayload(began, avail, typed);
    m' := Proxy(began, avail, typed).0;
    if !(isList || !m.field.Admits(length)) {
      Pieces(m.absorbed, s, size, k, length);
      FeedEnds(m', avail[Taken(began, avail)..], typed);
    }
  }

  /** Header and payload together are the item's stretch of the input. */
  lemma Pieces(absorbed: bytes, s: bytes, size: nat, k: nat, length: nat)
    requires size <= k <= |s| && (size == 0 ==> k == 1 && length == 1) && (size != 0 ==> size == k)
    ensures var avail := s[size..];
            if |avail| < length then absorbed + s[..k] + avail == absorbed + s
            else
              avail[..length] == s[size..size + length] && avail[length..] == s[size + length..]
              && (size == 0 ==> absorbed + s[..k] == absorbed + s[..size + length])
              && (size != 0 ==> absorbed + s[..k] + avail[..length] == absorbed + s[..size + length])
  {
  }

  /** The items are as many as the fields still to come, each within its bound. */
  ghost predicate ItemsFit(items: seq<bytes>, field: Field)
    decreases field.Left()
  {
    if field == TxDone then items == []
    else field.IsString() && items != [] && |items[0]| <= Limit(field) && ItemsFit(items[1..], field.Next())
  }

  /** The nine items of a transaction, within the sizes the parser has room for. */
  ghost predicate NineSized(items: seq<bytes>) {
    |items| == 9
    && |items[0]| <= 32 && |items[1]| <= 32 && |items[2]| <= 32 && |items[3]| <= 20 && |items[4]| <= 32
    && |items[5]| < 0x1_0000_0000 && |items[6]| <= 32 && |items[7]| < 0x1_0000_0000 && |items[8]| < 0x1_0000_0000
  }

  /** The same with the type in front of a typed transaction. */
  ghost predicate WellSized(items: seq<bytes>, typed: bool) {
    if typed then |items| == 10 && |items[0]| <= 32 && NineSized(items[1..]) else NineSized(items)
  }

  lemma FitUnfolds(items: seq<bytes>, i: nat, field: Field)
    requires i <= |items| && field.IsString()
    ensures ItemsFit(items[i..], field) <==>
              i < |items| && |items[i]| <= Limit(field) && ItemsFit(items[i + 1..], field.Next())
  {
    hide Limit, Field.Next;
    if i < |items| {
      assert items[i..][1..] == items[i + 1..];
    }
  }

  lemma {:induction false} FitCount(items: seq<bytes>, field: Field)
    requires (field.IsString() || field == TxDone) && ItemsFit(items, field)
    ensures |items| == field.Left()
    decreases field.Left()
  {
    hide Limit;
    if field != TxDone {
      FitCount(items[1..], field.Next());
    }
  }

  lemma NineFit(items: seq<bytes>)
    ensures ItemsFit(items, TxNonce) <==> NineSized(items)
  {
    if |items| != 9 {
      hide ItemsFit, NineSized;
      NineOnly(items);
    } else {
      hide ItemsFit;
      FitUnfolds(items, 0, TxNonce);
      FitUnfolds(items, 1, TxGasPrice);
      FitUnfolds(items, 2, TxStartGas);
      FitUnfolds(items, 3, TxRecipient);
      FitUnfolds(items, 4, TxValue);
      FitUnfolds(items, 5, TxData);
      FitUnfolds(items, 6, TxV);
      FitUnfolds(items, 7, TxR);
      FitUnfolds(items, 8, TxS);
      NothingFits(items);
      assert items[0..] == items;
    }
  }

  lemma NineOnly(items: seq<bytes>)
    requires |items| != 9
    ensures !ItemsFit(items, TxNonce) && !NineSized(items)
  {
    hide ItemsFit;
    if ItemsFit(items, TxNonce) {
      FitCount(items, TxNonce);
      assert false;
    }
  }

  lemma NothingFits(items: seq<bytes>)
    requires |items| == 9
    ensures ItemsFit(items[9..], TxDone)
  {
  }

  /** The decoder takes exactly the items of these sizes. */
  lemma ItemsFitWhen(items: seq<bytes>, typed: bool)
    ensures ItemsFit(items, FirstField(typed)) <==> WellSized(items, typed)
  {
    if typed {
      FitUnfolds(items, 0, TxType);
      hide ItemsFit, NineSized;
      assert items[0..] == items;
      if items != [] {
        NineFit(items[1..]);
        TenSized(items);
      }
    } else {
      NineFit(items);
      hide ItemsFit, NineSized;
    }
  }

  lemma TenSized(items: seq<bytes>)
    ensures items != [] && NineSized(items[1..]) ==> |items| == 10
  {
  }

  lemma LengthFitsWord(s: bytes)
    ensures ReadHeader(s).Item? ==> ReadHeader(s).length < W32
  {
    if ReadHeader(s).Item? {
      HeaderDetection(s[..1 + LengthOfLength(s[0])]);
    }
  }

  /** A stream that fed `s` from `m` on and ended with `r` agrees with what the one-shot reader says of the items
      of `field` and of all fields behind it. */
  ghost predicate Agrees(m: Machine, s: bytes, field: Field, r: (Machine, Status), outcome: Outcome) {
    match outcome
    case Complete(items, used) =>
      r.1 == Finished && used <= |s| && ItemsFit(items, field)
      && r.0.tx == WithItems(m.tx, field, items) && r.0.absorbed == m.absorbed + s[..used]
    case NotYet => r.1 == Processing && r.0.absorbed == m.absorbed + s
    case Malformed => r.1 == Fault
  }

  /** One step of the decoder. */
  lemma ReadUnfolds(s: bytes, field: Field)
    requires field.IsString()
    ensures ReadHeader(s) == NeedMore ==> ReadItems(s, field) == NotYet
    ensures ReadHeader(s) == TooLong ==> ReadItems(s, field) == Malformed
    ensures ReadHeader(s).Item? ==>
              var size, length := ReadHeader(s).size, ReadHeader(s).length;
              ReadItems(s, field)
              == if ReadHeader(s).isList || length > Limit(field) then Malformed
                 else if |s| < size + length then NotYet
                 else ReadItems(s[size + length..], field.Next()).Behind(size + length, [s[size..size + length]])
  {
    hide ReadHeader, Outcome.Behind, Limit, Field.Next;
  }

  /** The item of the next field is there and within its bound. */
  ghost predicate ItemThere(s: bytes, field: Field) {
    var header := ReadHeader(s);
    header.Item? && !header.isList && header.length <= Limit(field) && header.size + header.length <= |s|
  }

  /** One item takes the stream to the next boundary; without one the stream and the decoder end alike. */
  lemma ItemRefined(m: Machine, s: bytes, typed: bool) returns (m': Machine)
    requires AtBoundary(m) && m.field.IsString()
    ensures !ItemThere(s, m.field) ==> Agrees(m, s, m.field, Feed(m, s, typed), ReadItems(s, m.field))
    ensures ItemThere(s, m.field) ==>
              var start, n := ReadHeader(s).size, ReadHeader(s).size + ReadHeader(s).length;
              AtBoundary(m') && m'.field == m.field.Next() && (m'.field.IsString() || m'.field == TxDone)
              && m'.tx == WithItem(m.tx, m.field, s[start..n])
              && m'.absorbed == m.absorbed + s[..n] && Feed(m, s, typed) == Feed(m', s[n..], typed)
              && ReadItems(s, m.field) == ReadItems(s[n..], m'.field).Behind(n, [s[start..n]])
  {
    LengthFitsWord(s);
    ReadUnfolds(s, m.field);
    assert m.field.Next().IsString() || m.field.Next() == TxDone;
    hide Feed, ReadHeader, ReadItems, WithItem, Agrees, AtBoundary, Limit, Field.Admits, Field.Next, Field.IsString;
    m' := FeedItem(m, s, typed);
    if ReadHeader(s).Item? {
      LimitIs(m.field, ReadHeader(s).length);
    }
    AgreesEnd(m, s, Feed(m, s, typed));
  }

  /** From a boundary on, the stream does what the one-shot reader of the remaining items says. */
  lemma {:induction false} ItemsRefined(m: Machine, s: bytes, typed: bool)
    requires AtBoundary(m) && (m.field.IsString() || m.field == TxDone)
    ensures Agrees(m, s, m.field, Feed(m, s, typed), ReadItems(s, m.field))
    decreases m.field.Left()
  {
    hide *;
    if m.field == TxDone {
      NothingRefined(m, s, typed);
    } else {
      var next := ItemRefined(m, s, typed);
      if ItemThere(s, m.field) {
        ThereIs(s, m.field);
        var size, length := ReadHeader(s).size, ReadHeader(s).length;
        NextIsCloser(m.field);
        ItemsRefined(next, s[size + length..], typed);
        AgreesBehind(m, next, s, size, length, Feed(m, s, typed));
      }
    }
  }

  lemma ThereIs(s: bytes, field: Field)
    requires ItemThere(s, field)
    ensures ReadHeader(s).Item? && ReadHeader(s).size + ReadHeader(s).length <= |s|
    ensures ReadHeader(s).length <= Limit(field)
  {
  }

  lemma NothingRefined(m: Machine, s: bytes, typed: bool)
    requires m.field == TxDone
    ensures Agrees(m, s, TxDone, Feed(m, s, typed), ReadItems(s, TxDone))
  {
    FeedEnds(m, s, typed);
    assert s[..0] == [] && m.absorbed + s[..0] == m.absorbed;
  }

  lemma AgreesEnd(m: Machine, s: bytes, r: (Machine, Status))
    ensures r.1 == Fault ==> Agrees(m, s, m.field, r, Malformed)
    ensures r.1 == Processing && r.0.absorbed == m.absorbed + s ==> Agrees(m, s, m.field, r, NotYet)
  {
  }

  lemma AgreesBehind(m: Machine, next: Machine, s: bytes, size: nat, length: nat, r: (Machine, Status))
    requires size + length <= |s| && m.field.IsString() && length <= Limit(m.field)
    requires next.field == m.field.Next() && next.tx == WithItem(m.tx, m.field, s[size..size + length])
    requires next.absorbed == m.absorbed + s[..size + length]
    requires Agrees(next, s[size + length..], next.field, r, ReadItems(s[size + length..], next.field))
    ensures Agrees(m, s, m.field, r,
                   ReadItems(s[size + length..], next.field).Behind(size + length, [s[size..size + length]]))
  {
    var rest := ReadItems(s[size + length..], next.field);
    hide ReadItems, WithItem, WithItems, ItemsFit, Limit;
    ItemsJoin(m.absorbed, s, size, length, rest);
    if rest.Complete? {
      OneItemMore(m.tx, m.field, s[size..size + length], rest.items);
    }
  }

  lemma OneItemMore(tx: Record, field: Field, item: bytes, items: seq<bytes>)
    requires field.IsString() && |item| <= Limit(field) && ItemsFit(items, field.Next())
    ensures ItemsFit([item] + items, field)
    ensures WithItems(tx, field, [item] + items) == WithItems(WithItem(tx, field, item), field.Next(), items)
  {
    hide WithItem, Limit, Field.Next;
    assert ([item] + items)[0] == item && ([item] + items)[1..] == items;
  }

  lemma ItemsJoin(absorbed: bytes, s: bytes, size: nat, length: nat, rest: Outcome)
    requires size + length <= |s|
    ensures absorbed + s[..size + length] + s[size + length..] == absorbed + s
    ensures rest.Complete? && rest.used <= |s| - (size + length) ==>
              absorbed + s[..size + length] + s[size + length..][..rest.used]
              == absorbed + s[..size + length + rest.used]
  {
  }

  /** The list header of the envelope brings the stream to the first field. */
  lemma FeedEnvelope(s: bytes, typed: bool) returns (m': Machine)
    ensures var r, header := Feed(INITIAL, s, typed), ReadHeader(s);
            if header == NeedMore then r.1 == Processing && r.0.absorbed == s
            else if header == TooLong || !header.isList then r.1 == Fault
            else
              var size := header.size;
              size <= |s| && AtBoundary(m') && m'.field == FirstField(typed) && m'.tx == EMPTY_RECORD
              && m'.dataLength == header.length
              && m'.absorbed == s[..size] && r == Feed(m', s[size..], typed)
  {
    WholeHeader(INITIAL, s, typed);
    m' := INITIAL;
    var header := ReadHeader(s);
    if header.Item? {
      var k, d := HeaderOf(INITIAL, s, header.size, header.length, header.isList);
      var pm, b := Peeked(INITIAL, s[..k]), s[k - 1];
      EnterIsProxy(pm, b, d, s[k..], typed);
      m' := Proxy(Begin(pm, d), s[header.size..], typed).0;
      hide Feed, Enter, ReadHeader, DecodeLength, LengthOfLength;
      if header.isList {
        assert INITIAL.absorbed + s[..header.size] == s[..header.size];
      }
    }
  }

  /** The streaming parser refines the one-shot decoder on every input: it finishes exactly when the input starts
      with a complete well-bounded transaction, with its items stored and exactly its bytes hashed; it faults
      exactly when the decoder calls the input malformed; otherwise it has hashed everything and waits, whether or
      not anything can complete the input (Continuation.dfy says when). */
  lemma StreamRefinesOneShot(s: bytes, typed: bool)
    ensures Agrees(INITIAL, s, FirstField(typed), Feed(INITIAL, s, typed), ReadTransaction(s, typed))
  {
    var header := ReadHeader(s);
    var first := FeedEnvelope(s, typed);
    if header.Item? && header.isList {
      hide *;
      FirstIsString(typed);
      ItemsRefined(first, s[header.size..], typed);
      EnvelopeRead(s, typed);
      var rest := ReadItems(s[header.size..], FirstField(typed));
      AgreesBehindEnvelope(first, s, header.size, FirstField(typed), Feed(INITIAL, s, typed), rest);
    } else {
      hide Feed, ReadHeader, ReadItems;
      assert INITIAL.absorbed + s == s;
    }
  }

  lemma FirstIsString(typed: bool)
    ensures FirstField(typed).IsString()
  {
  }

  lemma EnvelopeRead(s: bytes, typed: bool)
    requires ReadHeader(s).Item? && ReadHeader(s).isList && ReadHeader(s).size <= |s|
    ensures ReadTransaction(s, typed)
            == ReadItems(s[ReadHeader(s).size..], FirstField(typed)).Behind(ReadHeader(s).size, [])
  {
    hide ReadHeader, ReadItems, Outcome.Behind;
  }

  lemma AgreesBehindEnvelope(first: Machine, s: bytes, size: nat, field: Field, r: (Machine, Status), rest: Outcome)
    requires size <= |s| && first.tx == EMPTY_RECORD && first.absorbed == s[..size]
    requires Agrees(first, s[size..], field, r, rest)
    ensures Agrees(INITIAL, s, field, r, rest.Behind(size, []))
  {
    hide WithItems, ItemsFit;
    NothingInFront(rest, size);
    assert s[..size] + s[size..] == INITIAL.absorbed + s;
    if rest.Complete? {
      assert s[..size] + s[size..][..rest.used] == INITIAL.absorbed + s[..size + rest.used];
    }
  }

  lemma NothingInFront(rest: Outcome, size: nat)
    ensures rest.Complete? ==> rest.Behind(size, []) == Complete(rest.items, size + rest.used)
  {
  }
}
