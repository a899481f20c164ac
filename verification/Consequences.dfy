/** What the safety of all runs means for the host and for the user. */
module Consequences {
  import opened Words
  import opened Numerals
  import opened Errors
  import opened Rlp
  import opened StreamModel
  import opened OneShot
  import opened StoredFields
  import opened Decimals
  import opened Amounts
  import opened Bip44
  import opened World
  import opened Addresses
  import opened Session
  import opened Approval
  import opened Phases
  import opened Safety

  /** The screens of the review for the items of a transaction, from the last request to the last confirmation. */
  function Screens(path: Indexes, items: seq<bytes>, amount: string, fee: string, w: World): seq<Entry>
    requires |items| == 9 && |items[3]| <= 20
  {
    [Received(Command(0x80, [])),
     Shown("Send To",
           if items[3] == [] then "New Contract"
           else AddressText(items[3] + Cleared(20 - |items[3]|).value, |items[3]|, w)), Confirmed,
     Shown("Send From", AddressText(w.address(path), 20, w)), Confirmed,
     Shown("Amount (FTM)", amount), Confirmed,
     Shown("Max Fee (FTM)", fee), Confirmed]
    + (if |items[5]| % 32 == 4 then [Shown("Smart Contract", "Alert"), Confirmed] else [])
    + [Asked("Send", "Transaction?"), Confirmed]
  }

  lemma StreamDecodes(a: Account) returns (items: seq<bytes>, used: nat)
    requires Streamed(a).1 == Finished
    ensures ReadTransaction(Flatten(a.chunks), false) == Complete(items, used) && used <= |Flatten(a.chunks)|
    ensures NineSized(items) && TransactionOf(a) == WithItems(EMPTY_RECORD, TxNonce, items)
    ensures Streamed(a).0.absorbed == Flatten(a.chunks)[..used]
  {
    var s := Flatten(a.chunks);
    StreamRefinesOneShot(s, false);
    hide ReadTransaction, Feed, Flatten, ItemsFit, WithItems, NineSized;
    var outcome := ReadTransaction(s, false);
    items, used := outcome.items, outcome.used;
    NineFit(items);
    assert INITIAL.absorbed + s[..used] == s[..used];
  }

  lemma KeptIs(item: bytes, size: nat)
    requires |item| <= size && |item| < 256
    ensures NumberOf(Kept(item, size)) == Eval(256, item) && Kept(item, size).length == |item|
  {
    KeptNumber(item, size);
  }

  /** The numbers in the record are those of the items. */
  lemma NumbersOf(items: seq<bytes>)
    requires NineSized(items)
    ensures var tx := WithItems(EMPTY_RECORD, TxNonce, items);
            NumberOf(tx.gasPrice) == Eval(256, items[1]) && NumberOf(tx.startGas) == Eval(256, items[2])
            && NumberOf(tx.value) == Eval(256, items[4]) && NumberOf(tx.v) == Eval(256, items[6])
            && tx.v.length == |items[6]| && tx.recipient == Kept(items[3], 20)
            && (tx.isContractCall <==> |items[5]| % 32 == 4)
  {
    FinishedRecord(items);
    hide WithItems, Kept, Eval;
    KeptIs(items[1], 32);
    KeptIs(items[2], 32);
    KeptIs(items[4], 32);
    KeptIs(items[6], 32);
  }

  lemma RecipientShown(item: bytes, w: World)
    requires |item| <= 20
    ensures RecipientText(Kept(item, 20), w)
            == if item == [] then "New Contract" else AddressText(item + Cleared(20 - |item|).value, |item|, w)
  {
    hide AddressText;
  }

  lemma ReviewInFull(path: Indexes, tx: Record, w: World)
    ensures Review(path, tx, SendSignature, w) + [Confirmed]
            == [Received(Command(0x80, [])), Shown("Send To", RecipientText(tx.recipient, w)), Confirmed,
                Shown("Send From", AddressText(w.address(path), 20, w)), Confirmed,
                Shown("Amount (FTM)", TextOf(AmountOf(tx))), Confirmed,
                Shown("Max Fee (FTM)", TextOf(FeeOf(tx))), Confirmed]
               + (if tx.isContractCall then [Shown("Smart Contract", "Alert"), Confirmed] else [])
               + [Asked("Send", "Transaction?"), Confirmed]
  {
    hide RecipientText, AddressText, AmountOf, FeeOf, Command;
    ReviewGrows(path, tx, ShowSender, w);
    ReviewGrows(path, tx, ShowAmount, w);
    ReviewGrows(path, tx, ShowFee, w);
    ReviewGrows(path, tx, ShowContractCall, w);
    ReviewEnds(path, tx, w);
  }

  /** A log that ends with a signature and the session that led to it:
      - the path was announced, allowed by the policy and confirmed,
      - the chunks of the session, put together, begin with a complete transaction for chain 250,
      - recipient, sender, amount and fee were shown as that transaction has them, each was confirmed, then the
        contract alert if the data look like a call, and then the prompt,
      - and what was sent is the signature, under the key of the path, of the hash of exactly the bytes the
        transaction takes up.
      The amount shown is exact, and the fee is exactly when the true fee is below 10^37. */
  ghost predicate Approved(log: seq<Entry>, a: Account, items: seq<bytes>, used: nat, amount: string, fee: string,
                           w: World)
  {
    Accountable(a) && HoldsTransaction(Flatten(a.chunks), items, used)
    && ShownExactly(Eval(256, items[4]), Eval(256, items[1]), Eval(256, items[2]), amount, fee)
    && Carries(SignatureOn(a.path, Flatten(a.chunks)[..used], w), w.sign(a.path, w.keccak(Flatten(a.chunks)[..used])))
    && log == a.before + Opening(a.path) + Delivered(a.chunks, true) + Screens(a.path, items, amount, fee, w)
              + [Replied(SignTx, Success(SignatureOn(a.path, Flatten(a.chunks)[..used], w)))]
  }

  /** The bytes begin with nine items of the right sizes for chain 250. */
  ghost predicate HoldsTransaction(s: bytes, items: seq<bytes>, used: nat) {
    ReadTransaction(s, false) == Complete(items, used) && used <= |s|
    && NineSized(items) && |items[6]| <= 4 && Eval(256, items[6]) == 250
  }

  ghost predicate ShownExactly(value: nat, price: nat, limit: nat, amount: string, fee: string) {
    AmountShown(value) == Ok(amount) && Denotes(amount, value, 18)
    && FeeShown(price, limit) == Ok(fee)
    && (Denotes(fee, Times(price, limit), 18) <==> Times(price, limit) < Pow(10, 37))
  }

  function SignatureOn(path: Indexes, s: bytes, w: World): bytes {
    SignatureBytes(w.sign(path, w.keccak(s)))
  }

  /** The 65 bytes are v, r and s of an ECDSA signature: 27 and its two bits, and both numbers in 32 bytes each. */
  ghost predicate Carries(b: bytes, e: Ecdsa) {
    |b| == 65 && b[0] == 27 + (if e.odd then 1 else 0) + (if e.overflow then 2 else 0)
    && Eval(256, b[1..33]) == e.r && Eval(256, b[33..65]) == e.s
  }

  lemma SignatureCarries(e: Ecdsa)
    ensures Carries(SignatureBytes(e), e)
  {
    var b, r, s := SignatureBytes(e), Bytes32(e.r), Bytes32(e.s);
    hide Eval, Bytes32;
    assert b[1..33] == r && b[33..65] == s;
  }

  /** In every run, whatever the host and the user do, a signature is only sent at the end of an approved session. */
  lemma SignedIsApproved(events: seq<Event>, w: World, k: nat)
    returns (a: Account, items: seq<bytes>, used: nat, amount: string, fee: string)
    requires k < |Run(BOOT, events, w).log| && IsSignature(Run(BOOT, events, w).log[k])
    ensures Approved(Run(BOOT, events, w).log[..k + 1], a, items, used, amount, fee, w)
  {
    hide Run, Script, Accountable, Approved;
    a := EverySignatureApproved(events, w, k);
    items, used, amount, fee := ScriptIsApproved(a, w);
  }

  lemma ExactTexts(value: nat, price: nat, limit: nat)
    requires AmountShown(value).Ok? && FeeShown(price, limit).Ok?
    ensures ShownExactly(value, price, limit, AmountShown(value).value, FeeShown(price, limit).value)
  {
    hide AmountShown, FeeShown, Denotes, Pow;
    AmountShownExact(value);
    FeeShownCorrectWhen(price, limit, Times(price, limit));
  }

  lemma ScriptIsApproved(a: Account, w: World) returns (items: seq<bytes>, used: nat, amount: string, fee: string)
    requires Accountable(a) && Checked(a)
    ensures Approved(Script(a, w), a, items, used, amount, fee, w)
  {
    items, used := StreamDecodes(a);
    hide Streamed, Flatten, ReadTransaction, WithItems, Opening, Delivered, Review, AmountShown, FeeShown,
         Eval, Pow, Denotes, RecipientText, AddressText, Kept, ShownExactly, NumberOf, Carries;
    var tx := TransactionOf(a);
    SignatureCarries(w.sign(a.path, w.keccak(Flatten(a.chunks)[..used])));
    NumbersOf(items);
    RecipientShown(items[3], w);
    amount, fee := AmountOf(tx).value, FeeOf(tx).value;
    ExactTexts(Eval(256, items[4]), Eval(256, items[1]), Eval(256, items[2]));
    ReviewInFull(a.path, tx, w);
    ScriptEnds(a, w);
  }

  lemma ScriptEnds(a: Account, w: World)
    requires Accountable(a)
    ensures Script(a, w) == a.before + Opening(a.path) + Delivered(a.chunks, true)
                            + (Review(a.path, TransactionOf(a), SendSignature, w) + [Confirmed])
                            + [Replied(SignTx, Success(SignatureOf(a, w)))]
  {
    hide Opening, Delivered, Review, TransactionOf, SignatureOf;
    var l, r, reply := Begun(a, true), Review(a.path, TransactionOf(a), SendSignature, w),
                       Replied(SignTx, Success(SignatureOf(a, w)));
    assert l + r + [Confirmed, reply] == l + (r + [Confirmed]) + [reply];
  }
}
