/** From an encoded transaction to its signature. */
module EndToEnd {
  import opened Words
  import opened Numerals
  import opened Rlp
  import opened StreamModel
  import opened OneShot
  import opened RoundTrip
  import opened Amounts
  import opened Bip44
  import opened World
  import opened Session
  import opened Approval
  import opened Phases
  import opened Consequences
  import opened Completion

  /** A transaction of nine well-sized items for the expected chain with an amount and a fee below 10^37. */
  ghost predicate Presentable(items: seq<bytes>) {
    NineSized(items) && Encodable(items)
    && |items[6]| <= 4 && Eval(256, items[6]) == 250
    && Eval(256, items[4]) < Pow(10, 37) && Times(Eval(256, items[1]), Eval(256, items[2])) < Pow(10, 37)
  }

  lemma EncodedStreams(a: Account, items: seq<bytes>)
    requires NineSized(items) && Encodable(items) && Flatten(a.chunks) == EncodeList(items)
    ensures Streamed(a).1 == Finished && Streamed(a).0.absorbed == EncodeList(items)
    ensures TransactionOf(a) == WithItems(EMPTY_RECORD, TxNonce, items)
    ensures ReadTransaction(Flatten(a.chunks), false) == Complete(items, |EncodeList(items)|)
  {
    var s := Flatten(a.chunks);
    TransactionReads(items, false, s);
    StreamRefinesOneShot(s, false);
    hide ReadTransaction, WithItems, EncodeList, Feed, ItemsFit, NineSized, Flatten, Encodable;
    assert INITIAL.absorbed + s[..|s|] == s;
  }

  lemma SomeChunk(items: seq<bytes>, chunks: seq<bytes>)
    requires Encodable(items) && Flatten(chunks) == EncodeList(items)
    ensures chunks != []
  {
    hide EncodeItems;
  }

  lemma AbsorbsNoMore(a: Account)
    requires Streamed(a).1 == Finished
    ensures |Streamed(a).0.absorbed| <= |Flatten(a.chunks)|
  {
    var _, used := StreamDecodes(a);
  }

  lemma LongerByLast(chunks: seq<bytes>, chunk: bytes)
    requires chunk != []
    ensures |Flatten(chunks + [chunk])| > |Flatten(chunks)|
  {
    FlattenSnoc(chunks, chunk);
  }

  /** Everything but the last chunk leaves the stream waiting. */
  lemma OnlyTheLastFinishes(a: Account, items: seq<bytes>)
    requires NineSized(items) && Encodable(items) && Flatten(a.chunks) == EncodeList(items)
    requires a.chunks != [] && a.chunks[|a.chunks| - 1] != []
    ensures Streamed(a.(chunks := a.chunks[..|a.chunks| - 1])).1 == Processing
  {
    hide ReadTransaction, NineSized, WithItems, Encodable, EncodeList, Flatten, Streamed;
    var n := |a.chunks| - 1;
    var front, last := a.(chunks := a.chunks[..n]), a.chunks[n];
    assert a.chunks == front.chunks + [last];
    EncodedStreams(a, items);
    LongerByLast(front.chunks, last);
    if Streamed(front).1 != Processing {
      SameEndWhenEarly(front, last);
      AbsorbsNoMore(front);
    }
  }

  /** A stream that does not wait for the last chunk ends as if it had not been sent. */
  lemma SameEndWhenEarly(a: Account, chunk: bytes)
    requires Streamed(a).1 != Processing
    ensures Streamed(a.(chunks := a.chunks + [chunk])) == Streamed(a)
  {
    FlattenSnoc(a.chunks, chunk);
    FeedConcat(INITIAL, Flatten(a.chunks), chunk, false);
    hide Feed, Flatten;
  }

  lemma PresentableIsShown(a: Account, items: seq<bytes>)
    requires Presentable(items) && TransactionOf(a) == WithItems(EMPTY_RECORD, TxNonce, items)
    ensures var tx := TransactionOf(a); IsExpectedChain(tx.v) && AmountOf(tx).Ok? && FeeOf(tx).Ok?
  {
    NumbersOf(items);
    hide TransactionOf, WithItems, Encodable, Eval, Pow, AmountShown, FeeShown, Times, NumberOf;
    AmountIsShown(Eval(256, items[4]));
    FeeIsShown(Eval(256, items[1]), Eval(256, items[2]));
  }

  lemma PresentableIsChecked(a: Account, items: seq<bytes>)
    requires Presentable(items) && Flatten(a.chunks) == EncodeList(items) && Accountable(a)
    ensures Arrived(a) && (Checked(a) <==> |a.path| <= 9)
  {
    EncodedStreams(a, items);
    SomeChunk(items, a.chunks);
    OnlyTheLastFinishes(a, items);
    PresentableIsShown(a, items);
    hide Streamed, Presentable, NineSized, WithItems, Encodable, EncodeList, Flatten, ReadTransaction, IsExpectedChain,
         AmountOf, FeeOf, TransactionOf;
  }

  lemma AmountIsShown(n: nat)
    requires n < Pow(10, 37)
    ensures AmountShown(n).Ok?
  {
    AmountShownWhen(n);
  }

  lemma FeeIsShown(price: nat, limit: nat)
    requires Times(price, limit) < Pow(10, 37)
    ensures FeeShown(price, limit).Ok?
  {
    hide Pow;
    FeeShownExact(price, limit);
  }

  /** The script is approved for the transaction that was encoded. */
  lemma ScriptApproves(a: Account, items: seq<bytes>, w: World) returns (amount: string, fee: string)
    requires Presentable(items) && Flatten(a.chunks) == EncodeList(items) && Accountable(a) && Checked(a)
    ensures Approved(Script(a, w), a, items, |EncodeList(items)|, amount, fee, w)
  {
    EncodedStreams(a, items);
    hide Presentable, EncodeList, Flatten, Checked, Script, Accountable, ReadTransaction, Streamed;
    var items', used;
    items', used, amount, fee := ScriptIsApproved(a, w);
    HeldIsRead(Flatten(a.chunks), items', used);
    hide Approved;
  }

  lemma HeldIsRead(s: bytes, items: seq<bytes>, used: nat)
    requires HoldsTransaction(s, items, used)
    ensures ReadTransaction(s, false) == Complete(items, used)
  {
  }

  /** Every presentable transaction, encoded as the Yellow Paper says and sent in any chunks that fit a request,
      can be signed under every path of at most nine indexes that the policy allows: there is a run that ends with
      the approved signature of the hash of exactly its encoding. */
  lemma EncodedIsSigned(items: seq<bytes>, path: Indexes, chunks: seq<bytes>, w: World)
    returns (events: seq<Event>, log: seq<Entry>, amount: string, fee: string)
    requires Presentable(items) && Flatten(chunks) == EncodeList(items)
    requires Accountable(Account([], path, chunks)) && |path| <= 9
    ensures Run(BOOT, events, w).log == log + [ShownIdle]
    ensures Approved(log, Account([], path, chunks), items, |EncodeList(items)|, amount, fee, w)
    ensures EncodeList(items) == Flatten(chunks)[..|EncodeList(items)|]
  {
    hide *;
    var a := Account([], path, chunks);
    PresentableIsChecked(a, items);
    BootIsQuiet();
    events := SessionCompletes(BOOT, a, OtherResets, w);
    log := Script(a, w);
    amount, fee := ScriptApproves(a, items, w);
  }

  lemma BootIsQuiet()
    ensures Quiet(BOOT) && BOOT.log == []
  {
  }
}
