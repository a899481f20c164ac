/** What the transaction record holds when the stream has finished. */
module StoredFields {
  import opened Rlp
  import opened StreamModel
  import opened OneShot

  function SizeOf(f: Field): nat {
    if f == TxRecipient then 20 else 32
  }

  /** An item of at most `size` bytes in cleared storage. */
  function Kept(item: bytes, size: nat): Store
    requires |item| <= size && |item| < 256
  {
    Store(item + Cleared(size - |item|).value, |item|)
  }

  lemma StoredFresh(tx: Record, f: Field, item: bytes)
    requires f.IsKept() && tx.Get(f) == Cleared(SizeOf(f)) && |item| <= SizeOf(f)
    ensures WithItem(tx, f, item).Get(f) == Kept(item, SizeOf(f))
  {
    assert Cleared(SizeOf(f)).value[|item|..] == Cleared(SizeOf(f) - |item|).value;
    assert Splice(Cleared(SizeOf(f)).value, 0, item) == item + Cleared(SizeOf(f) - |item|).value;
  }

  lemma OthersUntouched(tx: Record, f: Field, item: bytes, g: Field)
    requires g.IsKept() && g != f
    ensures WithItem(tx, f, item).Get(g) == tx.Get(g)
  {
    hide Splice;
  }

  lemma FlagUntouched(tx: Record, f: Field, item: bytes)
    ensures WithItem(tx, f, item).isContractCall == if f == TxData then IsContractCall(|item|) else tx.isContractCall
  {
    hide Splice, IsContractCall;
  }

  lemma FirstStored(tx: Record, field: Field, items: seq<bytes>)
    requires items != []
    ensures WithItems(tx, field, items) == WithItems(WithItem(tx, field, items[0]), field.Next(), items[1..])
  {
    hide WithItem, Field.Next;
  }

  lemma LeftOnce(f: Field, g: Field)
    requires f.Left() == g.Left()
    ensures f == g
  {
  }

  lemma NextLeft(f: Field)
    requires f.IsString()
    ensures f.Next().Left() == f.Left() - 1 && (f.Next().IsString() || f.Next() == TxDone)
  {
  }

  lemma {:induction false} ItemCount(items: seq<bytes>, field: Field)
    requires (field.IsString() || field == TxDone) && ItemsFit(items, field)
    ensures |items| == field.Left()
    decreases field.Left()
  {
    if field != TxDone {
      NextLeft(field);
      ItemCount(items[1..], field.Next());
    }
  }

  lemma {:induction false} BehindUntouched(tx: Record, field: Field, items: seq<bytes>, g: Field)
    requires (field.IsString() || field == TxDone) && ItemsFit(items, field) && g.IsKept() && field.Left() < g.Left()
    ensures WithItems(tx, field, items).Get(g) == tx.Get(g)
    decreases |items|
  {
    hide WithItem, Limit, Record.Get;
    if field != TxDone {
      NextLeft(field);
      FirstStored(tx, field, items);
      BehindUntouched(WithItem(tx, field, items[0]), field.Next(), items[1..], g);
      OthersUntouched(tx, field, items[0], g);
    }
  }

  lemma AdmittedFits(f: Field, length: nat)
    requires f.IsKept() && length <= Limit(f)
    ensures length <= SizeOf(f)
  {
  }

  /** A kept field holds its own item, padded with zeros behind it, and the item's length. */
  lemma {:induction false} FieldHoldsItem(tx: Record, field: Field, items: seq<bytes>, g: Field)
    requires field.IsString() && ItemsFit(items, field) && g.IsKept() && g.Left() <= field.Left()
    requires tx.Get(g) == Cleared(SizeOf(g))
    ensures var at := field.Left() - g.Left();
            at < |items| && |items[at]| <= SizeOf(g)
            && WithItems(tx, field, items).Get(g) == Kept(items[at], SizeOf(g))
    decreases |items|
  {
    hide WithItem, Limit, Record.Get, SizeOf, Kept;
    NextLeft(field);
    FirstStored(tx, field, items);
    var tx' := WithItem(tx, field, items[0]);
    if field == g {
      AdmittedFits(g, |items[0]|);
      StoredFresh(tx, g, items[0]);
      BehindUntouched(tx', field.Next(), items[1..], g);
    } else {
      if field.Left() == g.Left() {
        LeftOnce(field, g);
      }
      OthersUntouched(tx, field, items[0], g);
      FieldHoldsItem(tx', field.Next(), items[1..], g);
    }
  }

  /** The contract-call flag is decided by the length of the data. */
  lemma {:induction false} FlagFromData(tx: Record, field: Field, items: seq<bytes>)
    requires (field.IsString() || field == TxDone) && ItemsFit(items, field)
    ensures |items| == field.Left()
    ensures WithItems(tx, field, items).isContractCall
            == if 4 <= |items| then IsContractCall(|items[|items| - 4]|) else tx.isContractCall
    decreases |items|
  {
    hide WithItem, Limit, IsContractCall;
    ItemCount(items, field);
    if field != TxDone {
      NextLeft(field);
      FirstStored(tx, field, items);
      FlagUntouched(tx, field, items[0]);
      FlagFromData(WithItem(tx, field, items[0]), field.Next(), items[1..]);
      if field.Left() == 4 {
        LeftOnce(field, TxData);
      }
    }
  }

  /** The length of a selector and `words` parameters. */
  function CallLength(words: nat): nat {
    4 + 32 * words
  }

  /** Data count as a contract call when they are four bytes and any number of whole words. */
  lemma CallWhen(length: nat)
    ensures IsContractCall(length) <==> length % 32 == 4
    ensures IsContractCall(length) <==> exists n: nat :: length == CallLength(n)
  {
    if length % 32 == 4 {
      assert length == CallLength(length / 32);
    }
  }

  lemma FlagOfRecord(items: seq<bytes>)
    requires NineSized(items)
    ensures |items| == 9
    ensures WithItems(EMPTY_RECORD, TxNonce, items).isContractCall <==> |items[5]| % 32 == 4
    ensures WithItems(EMPTY_RECORD, TxNonce, items).isContractCall <==> exists n: nat :: |items[5]| == CallLength(n)
  {
    hide *;
    NineFit(items);
    NineLeft();
    FlagFromData(EMPTY_RECORD, TxNonce, items);
    CallWhen(|items[5]|);
  }

  lemma NineLeft()
    ensures TxNonce.IsString() && TxNonce.Left() == 9
  {
  }

  /** The fields of a finished untyped transaction: nonce, gas price, gas limit, recipient, value, data, V, R, S.
      It counts as a contract call when its data are a selector and whole words. */
  lemma FinishedRecord(items: seq<bytes>)
    requires NineSized(items)
    ensures WithItems(EMPTY_RECORD, TxNonce, items)
            == Record(Kept(items[1], 32), Kept(items[2], 32), Kept(items[3], 20), Kept(items[4], 32),
                      Kept(items[6], 32), |items[5]| % 32 == 4)
    ensures WithItems(EMPTY_RECORD, TxNonce, items).isContractCall <==> exists n: nat :: |items[5]| == CallLength(n)
  {
    hide WithItems, ItemsFit, IsContractCall, CallLength, Kept, Cleared;
    NineFit(items);
    FlagOfRecord(items);
    FieldHoldsItem(EMPTY_RECORD, TxNonce, items, TxGasPrice);
    FieldHoldsItem(EMPTY_RECORD, TxNonce, items, TxStartGas);
    FieldHoldsItem(EMPTY_RECORD, TxNonce, items, TxRecipient);
    FieldHoldsItem(EMPTY_RECORD, TxNonce, items, TxValue);
    FieldHoldsItem(EMPTY_RECORD, TxNonce, items, TxV);
  }

  /** The type in front of a typed transaction is not kept. */
  lemma FinishedTyped(items: seq<bytes>)
    requires WellSized(items, true)
    ensures WithItems(EMPTY_RECORD, TxType, items) == WithItems(EMPTY_RECORD, TxNonce, items[1..])
  {
    FirstStored(EMPTY_RECORD, TxType, items);
  }

  /** The number a kept field shows is the number its item denotes. */
  lemma KeptNumber(item: bytes, size: nat)
    requires |item| <= size && |item| < 256
    ensures var store := Kept(item, size); store.value[..store.length] == item
  {
  }
}
