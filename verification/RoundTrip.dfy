/** Encoding a transaction as Appendix B of the Ethereum Yellow Paper says and streaming the bytes gives it back. */
module RoundTrip {
  import opened Words
  import opened Numerals
  import opened Printing
  import opened Rlp
  import opened StreamModel
  import opened FieldEntry
  import opened OneShot

  const STRING_BASE: uint8 := 0x80
  const LIST_BASE: uint8 := 0xc0

  // The encoder

  function BigEndian(n: nat): (b: bytes)
    ensures Eval(256, b) == n && Canonical(256, b)
    ensures |b| <= 4 <==> n < W32
    ensures b == [] <==> n == 0
  {
    DigitsCanonical(256, n);
    DigitCount(256, n, 4);
    Pow256(4);
    WordSizes();
    Digits(256, n)
  }

  /** The header of a payload of `n` bytes; longer payloads than `2^32` bytes do not occur. */
  function EncodeHeader(base: uint8, n: nat): bytes
    requires base == STRING_BASE || base == LIST_BASE
    requires n < W32
  {
    if n <= 55 then [base + n] else var length := BigEndian(n); [base + 55 + |length|] + length
  }

  function EncodeItem(x: bytes): bytes
    requires |x| < W32
  {
    if |x| == 1 && x[0] <= 0x7f then x else EncodeHeader(STRING_BASE, |x|) + x
  }

  ghost predicate Encodable(items: seq<bytes>) {
    (forall i :: 0 <= i < |items| ==> |items[i]| < W32) && |EncodeItems(items)| < W32
  }

  function EncodeItems(items: seq<bytes>): bytes
    requires forall i :: 0 <= i < |items| ==> |items[i]| < W32
  {
    if items == [] then [] else EncodeItem(items[0]) + EncodeItems(items[1..])
  }

  function EncodeList(items: seq<bytes>): bytes
    requires Encodable(items)
  {
    EncodeHeader(LIST_BASE, |EncodeItems(items)|) + EncodeItems(items)
  }

  // Reading an encoding

  lemma Prefixes(a: bytes, b: bytes, s: bytes)
    requires a + b <= s
    ensures a <= s && b <= s[|a|..]
  {
    assert s[..|a| + |b|] == a + b;
    assert s[..|a|] == a && s[|a|..][..|b|] == b;
  }

  lemma HeaderReads(base: uint8, n: nat, s: bytes)
    requires base == STRING_BASE || base == LIST_BASE
    requires n < W32 && EncodeHeader(base, n) <= s
    ensures ReadHeader(s) == Item(|EncodeHeader(base, n)|, n, base == LIST_BASE)
  {
    hide Eval, Digits, Pow, BigEndian;
    var h := EncodeHeader(base, n);
    assert s[..|h|] == h;
    if n > 55 {
      var length := BigEndian(n);
      assert s[0] == base + 55 + |length| && h[1..] == length;
    }
  }

  lemma ItemReads(x: bytes, s: bytes)
    requires |x| < W32 && EncodeItem(x) <= s
    ensures var size := |EncodeItem(x)| - |x|;
            size >= 0 && ReadHeader(s) == Item(size, |x|, false) && s[size..size + |x|] == x
  {
    if |x| == 1 && x[0] <= 0x7f {
      assert s[..1] == x;
    } else {
      hide EncodeHeader, ReadHeader;
      Prefixes(EncodeHeader(STRING_BASE, |x|), x, s);
      HeaderReads(STRING_BASE, |x|, s);
    }
  }

  lemma ReadOne(s: bytes, field: Field, size: nat, length: nat)
    requires field.IsString() && length <= Limit(field) && ReadHeader(s) == Item(size, length, false)
    requires size + length <= |s|
    ensures ReadItems(s, field)
            == ReadItems(s[size + length..], field.Next()).Behind(size + length, [s[size..size + length]])
  {
    hide *;
    ReadUnfolds(s, field);
  }

  lemma EncodeFirst(items: seq<bytes>)
    requires items != [] && forall i :: 0 <= i < |items| ==> |items[i]| < W32
    ensures EncodeItems(items) == EncodeItem(items[0]) + EncodeItems(items[1..]) && items == [items[0]] + items[1..]
  {
    hide EncodeItem;
  }

  lemma FitFirst(items: seq<bytes>, field: Field)
    requires field.IsString() && ItemsFit(items, field)
    ensures items != [] && |items[0]| <= Limit(field) && ItemsFit(items[1..], field.Next())
    ensures field.Next().IsString() || field.Next() == TxDone
  {
    hide Limit;
  }

  lemma NoItems(items: seq<bytes>, s: bytes)
    requires ItemsFit(items, TxDone)
    ensures items == [] && EncodeItems(items) == [] && ReadItems(s, TxDone) == Complete([], 0)
  {
  }

  lemma {:induction false} ItemsRead(items: seq<bytes>, field: Field, s: bytes)
    requires field.IsString() || field == TxDone
    requires ItemsFit(items, field) && forall i :: 0 <= i < |items| ==> |items[i]| < W32
    requires EncodeItems(items) <= s
    ensures ReadItems(s, field) == Complete(items, |EncodeItems(items)|)
    decreases |items|
  {
    hide EncodeItem, EncodeItems, ReadHeader, ReadItems, ItemsFit, Limit, Field.Next;
    if field == TxDone {
      NoItems(items, s);
    } else {
      FitFirst(items, field);
      EncodeFirst(items);
      NextIsCloser(field);
      var x, rest := items[0], EncodeItems(items[1..]);
      var e := EncodeItem(x);
      Prefixes(e, rest, s);
      ItemReads(x, s);
      ReadOne(s, field, |e| - |x|, |x|);
      ItemsRead(items[1..], field.Next(), s[|e|..]);
    }
  }

  lemma ReadEnvelope(s: bytes, size: nat, length: nat, typed: bool)
    requires ReadHeader(s) == Item(size, length, true) && size <= |s|
    ensures ReadTransaction(s, typed) == ReadItems(s[size..], FirstField(typed)).Behind(size, [])
  {
    hide ReadHeader, ReadItems;
  }

  /** The one-shot decoder reads an encoded transaction back, whatever follows it. */
  lemma TransactionReads(items: seq<bytes>, typed: bool, s: bytes)
    requires Encodable(items) && WellSized(items, typed) && EncodeList(items) <= s
    ensures ReadTransaction(s, typed) == Complete(items, |EncodeList(items)|)
  {
    ItemsFitWhen(items, typed);
    hide EncodeHeader, EncodeItems, ReadHeader, ReadItems, ReadTransaction, WellSized, ItemsFit;
    var payload := EncodeItems(items);
    var h := EncodeHeader(LIST_BASE, |payload|);
    Prefixes(h, payload, s);
    HeaderReads(LIST_BASE, |payload|, s);
    ItemsRead(items, FirstField(typed), s[|h|..]);
    ReadEnvelope(s, |h|, |payload|, typed);
    NothingInFront(Complete(items, |payload|), |h|);
  }

  /** An encoded transaction whose items have the sizes the parser has room for, followed by anything and cut into
      any nonempty chunks, finishes the stream with every item stored and with exactly the encoding hashed. */
  lemma RoundTrip(items: seq<bytes>, typed: bool, chunks: seq<bytes>)
    requires Encodable(items) && WellSized(items, typed)
    requires EncodeList(items) <= Flatten(chunks)
    requires forall i :: 0 <= i < |chunks| ==> chunks[i] != []
    ensures var (m, status) := ProcessChunks(INITIAL, chunks, typed);
            status == Finished && m.tx == WithItems(EMPTY_RECORD, FirstField(typed), items)
            && m.absorbed == EncodeList(items)
  {
    var s := Flatten(chunks);
    TransactionReads(items, typed, s);
    StreamRefinesOneShot(s, typed);
    ChunkingIndependence(INITIAL, chunks, typed);
    hide ReadTransaction, WithItems, EncodeList, Feed, ItemsFit, WellSized, ProcessChunks;
    assert INITIAL.absorbed + s[..|EncodeList(items)|] == EncodeList(items);
  }

  /** No encoding is the beginning of another transaction's. */
  lemma EncodingsDiffer(a: seq<bytes>, b: seq<bytes>, typed: bool)
    requires Encodable(a) && Encodable(b) && WellSized(a, typed) && WellSized(b, typed)
    requires EncodeList(b) <= EncodeList(a)
    ensures a == b
  {
    hide EncodeList, ReadTransaction, WellSized;
    TransactionReads(a, typed, EncodeList(a));
    TransactionReads(b, typed, EncodeList(a));
  }

  // When accepted bytes are an encoding

  /** The shortest header was chosen for the item at the front. */
  ghost predicate Minimal(s: bytes)
    requires ReadHeader(s).Item?
  {
    (s[0] == 0x81 && |s| > 1 ==> s[1] > 0x7f)
    && (LengthOfLength(s[0]) > 0 ==> s[1] != 0 && ReadHeader(s).length > 55)
  }

  function BaseOf(isList: bool): uint8 {
    if isList then LIST_BASE else STRING_BASE
  }

  lemma ShortHeader(s: bytes)
    requires ReadHeader(s).Item? && s[0] > 0x7f && LengthOfLength(s[0]) == 0
    ensures ReadHeader(s).length <= 55 && EncodeHeader(BaseOf(ReadHeader(s).isList), ReadHeader(s).length) <= s
  {
    hide BigEndian;
  }

  lemma LongHeader(s: bytes)
    requires ReadHeader(s).Item? && LengthOfLength(s[0]) > 0 && ReadHeader(s).length > 55
    requires ReadHeader(s).length < W32
    ensures var k, n := 1 + LengthOfLength(s[0]), ReadHeader(s).length;
            2 <= k <= |s|
            && EncodeHeader(BaseOf(ReadHeader(s).isList), n) == [s[0] - (k - 1) + |BigEndian(n)|] + BigEndian(n)
            && Eval(256, s[1..k]) == n
  {
    hide BigEndian, Eval;
    var k := 1 + LengthOfLength(s[0]);
    assert s[..k][1..] == s[1..k];
  }

  lemma SameDigits(n: nat, b: bytes)
    requires Eval(256, b) == n && b != []
    ensures BigEndian(n) == b <==> b[0] != 0
  {
    hide Eval, Digits;
    if b[0] != 0 {
      DigitsUnique(256, b);
    }
  }

  lemma PrefixOfBoth(lead: uint8, digits: bytes, k: nat, s: bytes)
    requires 1 <= k <= |s| && |digits| < 0x80 && k < 0x80 && k - 1 <= s[0]
    requires s[0] - (k - 1) + |digits| == lead
    ensures [lead] + digits <= s <==> s[1..k] == digits
  {
    var e := [lead] + digits;
    assert s[..k] == [s[0]] + s[1..k] && e[0] == lead && e[1..] == digits;
    if e <= s {
      assert s[..k] == e;
    }
  }

  lemma HeaderReencodes(s: bytes)
    requires ReadHeader(s).Item? && s[0] > 0x7f && ReadHeader(s).length < W32
    ensures EncodeHeader(BaseOf(ReadHeader(s).isList), ReadHeader(s).length) <= s
            <==> (LengthOfLength(s[0]) > 0 ==> s[1] != 0 && ReadHeader(s).length > 55)
  {
    var k, n := 1 + LengthOfLength(s[0]), ReadHeader(s).length;
    if k == 1 {
      ShortHeader(s);
    } else if n <= 55 {
      assert EncodeHeader(BaseOf(ReadHeader(s).isList), n)[0] != s[0];
    } else {
      LongHeader(s);
      hide EncodeHeader, ReadHeader, BigEndian;
      SameDigits(n, s[1..k]);
      PrefixOfBoth(s[0] - (k - 1) + |BigEndian(n)|, BigEndian(n), k, s);
    }
  }

  /** An item is what the encoder makes of its payload exactly when its header is the shortest. */
  lemma ItemReencodes(s: bytes, size: nat, x: bytes)
    requires |x| < W32 && ReadHeader(s) == Item(size, |x|, false) && size + |x| <= |s| && s[size..size + |x|] == x
    ensures EncodeItem(x) <= s <==> Minimal(s)
    ensures Minimal(s) ==> |EncodeItem(x)| == size + |x|
  {
    if s[0] <= 0x7f {
      assert x == [s[0]];
    } else {
      HeaderReencodes(s);
      var h := EncodeHeader(STRING_BASE, |x|);
      if h <= s {
        HeaderReads(STRING_BASE, |x|, s);
        assert s[..|h|] == h && h + x == s[..size + |x|];
      } else if h + x <= s {
        Prefixes(h, x, s);
      }
      if |x| == 1 {
        assert x[0] == s[size];
      }
    }
  }

  /** The shortest header was chosen for every item. */
  ghost predicate MinimalItems(s: bytes, field: Field)
    requires field.IsString() || field == TxDone
    decreases field.Left()
  {
    if field == TxDone then true
    else
      var header := ReadHeader(s);
      header.Item? && header.size + header.length <= |s| && Minimal(s)
      && MinimalItems(s[header.size + header.length..], field.Next())
  }

  /** What the reader of the items found, item by item. */
  lemma FoundFirst(s: bytes, field: Field)
    requires field.IsString() && ReadItems(s, field).Complete?
    ensures var header, outcome := ReadHeader(s), ReadItems(s, field);
            header.Item? && !header.isList && header.length <= Limit(field) && header.size + header.length <= |s|
            && (field.Next().IsString() || field.Next() == TxDone)
            && outcome == ReadItems(s[header.size + header.length..], field.Next())
                            .Behind(header.size + header.length, [s[header.size..header.size + header.length]])
  {
    hide ReadHeader, Limit, Outcome.Behind;
  }

  lemma {:induction false} FoundFits(s: bytes, field: Field)
    requires (field.IsString() || field == TxDone) && ReadItems(s, field).Complete?
    ensures var outcome := ReadItems(s, field);
            outcome.used <= |s| && forall i :: 0 <= i < |outcome.items| ==> |outcome.items[i]| < W32
    decreases field.Left()
  {
    hide ReadHeader, ReadItems, Limit;
    if field == TxDone {
      NoItems([], s);
    } else {
      FoundFirst(s, field);
      LengthFitsWord(s);
      NextIsCloser(field);
      FoundFits(s[ReadHeader(s).size + ReadHeader(s).length..], field.Next());
    }
  }

  lemma PrefixParts(a: bytes, b: bytes, n: nat, s: bytes)
    requires n <= |s| && (a <= s ==> |a| == n)
    ensures a + b <= s <==> a <= s && b <= s[n..]
  {
    if a + b <= s {
      Prefixes(a, b, s);
    }
    if a <= s && b <= s[n..] {
      assert s == a + s[n..];
      assert s[n..] == b + s[n..][|b|..];
    }
  }

  /** One item in front of others. */
  lemma FirstReencodes(s: bytes, size: nat, x: bytes, items: seq<bytes>)
    requires |x| < W32 && size + |x| <= |s| && ReadHeader(s) == Item(size, |x|, false) && s[size..size + |x|] == x
    requires forall i :: 0 <= i < |items| ==> |items[i]| < W32
    ensures EncodeItems([x] + items) <= s <==> Minimal(s) && EncodeItems(items) <= s[size + |x|..]
    ensures Minimal(s) ==> |EncodeItems([x] + items)| == size + |x| + |EncodeItems(items)|
  {
    hide ReadHeader, EncodeItem, EncodeItems, Minimal;
    EncodeFirst([x] + items);
    assert ([x] + items)[1..] == items;
    ItemReencodes(s, size, x);
    PrefixParts(EncodeItem(x), EncodeItems(items), size + |x|, s);
  }

  lemma MinimalFirst(s: bytes, field: Field)
    requires field.IsString() && (field.Next().IsString() || field.Next() == TxDone)
    requires ReadHeader(s).Item? && ReadHeader(s).size + ReadHeader(s).length <= |s|
    ensures MinimalItems(s, field) <==>
              Minimal(s) && MinimalItems(s[ReadHeader(s).size + ReadHeader(s).length..], field.Next())
  {
    hide ReadHeader, Minimal;
  }

  lemma {:induction false} ItemsReencode(s: bytes, field: Field)
    requires (field.IsString() || field == TxDone) && ReadItems(s, field).Complete?
    requires forall i :: 0 <= i < |ReadItems(s, field).items| ==> |ReadItems(s, field).items[i]| < W32
    ensures EncodeItems(ReadItems(s, field).items) <= s <==> MinimalItems(s, field)
    ensures MinimalItems(s, field) ==> |EncodeItems(ReadItems(s, field).items)| == ReadItems(s, field).used
    decreases field.Left()
  {
    hide *;
    if field == TxDone {
      NothingReencoded(s);
    } else {
      var x, rest, n := FirstAndRest(s, field);
      ItemsReencode(s[n..], field.Next());
      FirstReencodes(s, n - |x|, x, rest.items);
    }
  }

  lemma NothingReencoded(s: bytes)
    ensures ReadItems(s, TxDone) == Complete([], 0) && EncodeItems([]) == [] && MinimalItems(s, TxDone) && [] <= s
  {
  }

  /** What the reader found, as the first item and the rest. */
  lemma FirstAndRest(s: bytes, field: Field) returns (x: bytes, rest: Outcome, n: nat)
    requires field.IsString() && ReadItems(s, field).Complete?
    requires forall i :: 0 <= i < |ReadItems(s, field).items| ==> |ReadItems(s, field).items[i]| < W32
    ensures |x| <= n <= |s| && |x| < W32 && ReadHeader(s) == Item(n - |x|, |x|, false) && s[n - |x|..n] == x
    ensures (field.Next().IsString() || field.Next() == TxDone) && field.Next().Left() < field.Left()
    ensures rest == ReadItems(s[n..], field.Next()) && rest.Complete?
    ensures forall i :: 0 <= i < |rest.items| ==> |rest.items[i]| < W32
    ensures ReadItems(s, field) == Complete([x] + rest.items, n + rest.used)
    ensures MinimalItems(s, field) <==> Minimal(s) && MinimalItems(s[n..], field.Next())
  {
    hide *;
    FoundFirst(s, field);
    NextIsCloser(field);
    MinimalFirst(s, field);
    var size := ReadHeader(s).size;
    n := size + ReadHeader(s).length;
    x, rest := s[size..n], ReadItems(s[n..], field.Next());
    BehindOne(rest, n, x);
    RestFits(x, rest.items);
  }

  lemma BehindOne(rest: Outcome, n: nat, x: bytes)
    requires rest.Behind(n, [x]).Complete?
    ensures rest.Complete? && rest.Behind(n, [x]) == Complete([x] + rest.items, n + rest.used)
  {
  }

  lemma RestFits(x: bytes, items: seq<bytes>)
    requires forall i :: 0 <= i < |[x] + items| ==> |([x] + items)[i]| < W32
    ensures |x| < W32 && forall i :: 0 <= i < |items| ==> |items[i]| < W32
  {
    assert ([x] + items)[0] == x;
    forall i | 0 <= i < |items|
      ensures |items[i]| < W32
    {
      assert ([x] + items)[i + 1] == items[i];
    }
  }

  lemma FoundEnvelope(s: bytes, typed: bool)
    requires ReadTransaction(s, typed).Complete?
    ensures var header := ReadHeader(s);
            header.Item? && header.isList && header.size <= |s|
            && ReadTransaction(s, typed) == ReadItems(s[header.size..], FirstField(typed)).Behind(header.size, [])
  {
    hide ReadItems;
  }

  lemma EnvelopeReencodes(s: bytes, length: nat)
    requires length < W32 && ReadHeader(s).Item? && ReadHeader(s).isList && ReadHeader(s).length < W32
    ensures EncodeHeader(LIST_BASE, length) <= s <==> Minimal(s) && ReadHeader(s).length == length
    ensures EncodeHeader(LIST_BASE, length) <= s ==> |EncodeHeader(LIST_BASE, length)| == ReadHeader(s).size
  {
    HeaderReencodes(s);
    if EncodeHeader(LIST_BASE, length) <= s {
      HeaderReads(LIST_BASE, length, s);
    }
  }

  lemma PrefixLength(a: bytes, b: bytes, size: nat, used: nat, s: bytes)
    requires size <= used <= |s| && (a <= s ==> |a| == size)
    ensures a + b == s[..used] <==> a <= s && b <= s[size..] && |a| + |b| == used
  {
    PrefixParts(a, b, size, s);
    if a + b <= s {
      assert s[..|a + b|] == a + b;
    }
  }

  /** The bytes that finish the stream are the encoding of the fields it stored exactly when every header in them
      is the shortest one and the list header announces the length of the nine items. */
  lemma FinishedIsEncoding(s: bytes, typed: bool)
    requires ReadTransaction(s, typed).Complete?
    ensures var outcome, header := ReadTransaction(s, typed), ReadHeader(s);
            header.Item? && header.size <= outcome.used <= |s|
            && (Encodable(outcome.items) && EncodeList(outcome.items) == s[..outcome.used]
                <==> Minimal(s) && MinimalItems(s[header.size..], FirstField(typed))
                     && header.length == outcome.used - header.size)
  {
    hide ReadHeader, ReadItems, ReadTransaction, Minimal, MinimalItems, EncodeHeader, EncodeItems;
    FoundEnvelope(s, typed);
    LengthFitsWord(s);
    var header, outcome := ReadHeader(s), ReadTransaction(s, typed);
    var body := s[header.size..];
    FoundFits(body, FirstField(typed));
    ItemsReencode(body, FirstField(typed));
    var items := ReadItems(body, FirstField(typed)).items;
    assert outcome.items == items;
    var payload := EncodeItems(items);
    if |payload| < W32 {
      EnvelopeReencodes(s, |payload|);
      PrefixLength(EncodeHeader(LIST_BASE, |payload|), payload, header.size, outcome.used, s);
    }
  }

  function Copies<T>(x: T, n: nat): seq<T> {
    seq(n, _ => x)
  }

  lemma CopiesFirst<T>(x: T, n: nat)
    requires n > 0
    ensures Copies(x, n) == [x] + Copies(x, n - 1) && Copies(x, n)[0] == x && Copies(x, n)[1..] == Copies(x, n - 1)
  {
  }

  lemma EmptyItem()
    ensures EncodeItem([]) == [0x80]
  {
  }

  lemma {:induction false} EmptyItems(field: Field)
    requires field.IsString() || field == TxDone
    ensures ItemsFit(Copies([], field.Left()), field)
    ensures EncodeItems(Copies([], field.Left())) == Copies(0x80, field.Left())
    decreases field.Left()
  {
    if field != TxDone {
      EmptyItems(field.Next());
      EmptyItem();
      CopiesFirst<bytes>([], field.Left());
      CopiesFirst<uint8>(0x80, field.Left());
      hide Copies, EncodeItem;
    }
  }

  lemma ExampleReads(s: bytes)
    requires s == [0xc0] + Copies(0x80, 9)
    ensures ReadHeader(s) == Item(1, 0, true) && ReadTransaction(s, false) == Complete(Copies([], 9), 10)
  {
    assert ReadHeader(s) == Item(1, 0, true);
    EmptyItems(TxNonce);
    hide ReadHeader, ReadItems, ReadTransaction, EncodeItems, ItemsFit;
    assert s[1..] == Copies(0x80, 9);
    ItemsRead(Copies([], 9), TxNonce, s[1..]);
    ReadEnvelope(s, 1, 0, false);
    NothingInFront(Complete(Copies([], 9), 9), 1);
  }

  lemma CompleteFinishes(s: bytes, typed: bool)
    requires ReadTransaction(s, typed).Complete?
    ensures Feed(INITIAL, s, typed).1 == Finished
  {
    hide ReadTransaction, Feed, ItemsFit, WithItems;
    StreamRefinesOneShot(s, typed);
  }

  /** A list header that announces no payload may still be followed by nine empty strings. */
  lemma NotEveryEncodingExample()
    ensures var s: bytes := [0xc0] + Copies(0x80, 9);
            var outcome := ReadTransaction(s, false);
            Feed(INITIAL, s, false).1 == Finished && outcome.Complete? && outcome.used == 10
            && !(Encodable(outcome.items) && EncodeList(outcome.items) == s)
  {
    var s: bytes := [0xc0] + Copies(0x80, 9);
    hide ReadHeader, ReadTransaction, Feed, EncodeList, MinimalItems, Minimal, ItemsFit, WithItems, Encodable;
    ExampleReads(s);
    CompleteFinishes(s, false);
    FinishedIsEncoding(s, false);
    assert s[..10] == s;
  }
}
