/** What the screen says about the recipient, and when it is the recipient that is signed. */
module Recipients {
  import opened Words
  import opened Numerals
  import opened Rlp
  import opened StreamModel
  import opened StoredFields
  import opened RoundTrip
  import opened Bip44
  import opened World
  import opened Addresses
  import opened Session
  import opened Consequences
  import opened EndToEnd

  /** The item at the front of its 20 bytes of storage. */
  function Padded(item: bytes): (b: bytes)
    requires |item| <= 20
    ensures |b| == 20
  {
    item + Zeros(20 - |item|)
  }

  /** The bytes that the digits on the recipient screen stand for, when the stream has stored `item`. */
  function RecipientShownAs(item: bytes, w: World): seq<nat>
    requires |item| <= 20
  {
    var text := RecipientText(Kept(item, 20), w);
    if |text| == 42 then ShownBytes(text) else []
  }

  lemma PaddedIsShown(item: bytes, w: World)
    requires 0 < |item| <= 20
    ensures RecipientShownAs(item, w) == Padded(item)
  {
    assert Kept(item, 20).value == Padded(item);
    AddressReadsBack(Padded(item), |item|, w);
    hide AddressText, ShownBytes;
  }

  /** The bytes shown are the bytes signed if and only if the recipient has 20 of them. */
  lemma RecipientShownWhen(item: bytes, w: World)
    requires 0 < |item| <= 20
    ensures RecipientShownAs(item, w) == item <==> |item| == 20
  {
    PaddedIsShown(item, w);
  }

  /** Two recipients are shown with the same digits if and only if they differ in zeros at the end. */
  lemma RecipientsLookAlikeWhen(item: bytes, item': bytes, w: World)
    requires 0 < |item| <= |item'| <= 20
    ensures RecipientShownAs(item, w) == RecipientShownAs(item', w) <==> item' == item + Zeros(|item'| - |item|)
  {
    PaddedIsShown(item, w);
    PaddedIsShown(item', w);
    hide RecipientShownAs;
    var a, b := Padded(item), Padded(item');
    if a == b {
      assert item' == b[..|item'|] == item + Zeros(|item'| - |item|);
    }
    if item' == item + Zeros(|item'| - |item|) {
      assert a == b;
    }
  }

  // Two transactions with the same review

  /** A payment of one wei. */
  function Payment(recipient: bytes): seq<bytes> {
    [[], [1], [1], recipient, [1], [], [250], [], []]
  }

  lemma {:induction false} ShortItemsEncode(items: seq<bytes>)
    requires forall i :: 0 <= i < |items| ==> |items[i]| <= 55
    ensures |EncodeItems(items)| <= 56 * |items|
  {
    if items != [] {
      ShortItemsEncode(items[1..]);
    }
  }

  lemma PaymentEncodable(recipient: bytes)
    requires |recipient| <= 20
    ensures Encodable(Payment(recipient))
  {
    var p := Payment(recipient);
    assert |p| == 9 && forall i :: 0 <= i < 9 ==> |p[i]| <= 20;
    ShortItemsEncode(p);
    WordSizes();
    hide EncodeItems, Payment;
  }

  lemma PaymentNumbers()
    ensures Eval(256, [1]) == 1 && Eval(256, [250]) == 250 && 1 < Pow(10, 37) && Times(1, 1) == 1
  {
    EvalFour([1]);
    EvalFour([250]);
    PowMonotone(10, 1, 37);
    hide Eval;
    assert Pow(10, 1) == 10;
  }

  lemma PaymentPresentable(recipient: bytes)
    requires |recipient| <= 20
    ensures Presentable(Payment(recipient))
  {
    PaymentEncodable(recipient);
    PaymentNumbers();
    hide Encodable, Eval, Times, Pow;
  }

  lemma PaymentsDiffer(recipient: bytes, recipient': bytes)
    requires |recipient| <= 20 && |recipient'| <= 20 && recipient != recipient'
    requires Encodable(Payment(recipient)) && Encodable(Payment(recipient'))
    ensures EncodeList(Payment(recipient)) != EncodeList(Payment(recipient'))
  {
    hide Encodable, EncodeList;
    assert Payment(recipient)[3] == recipient && Payment(recipient')[3] == recipient';
    if EncodeList(Payment(recipient)) == EncodeList(Payment(recipient')) {
      EncodingsDiffer(Payment(recipient), Payment(recipient'), false);
    }
  }

  /** The text buffer happens to hold zeros. */
  ghost predicate LeftoverZeros(w: World) {
    w.leftover == seq(40, _ => 48)
  }

  /** The digits that are hashed for the checksum are the same, and so is the text. */
  lemma SameText(w: World)
    requires LeftoverZeros(w)
    ensures AddressText(Kept([0xaa], 20).value, 1, w) == AddressText(Kept([0xaa, 0x00], 20).value, 2, w)
  {
    var a, b := Kept([0xaa], 20).value, Kept([0xaa, 0x00], 20).value;
    assert a == b;
    assert LowerHex(a, 1, w.leftover) == LowerHex(a, 2, w.leftover);
  }

  lemma SameButRecipient()
    ensures var p, q := Payment([0xaa]), Payment([0xaa, 0x00]);
            |p| == |q| == 9 && p[3] == [0xaa] && q[3] == [0xaa, 0x00] && p[5] == q[5]
            && p[3] + Cleared(20 - |p[3]|).value == Kept([0xaa], 20).value
            && q[3] + Cleared(20 - |q[3]|).value == Kept([0xaa, 0x00], 20).value
  {
  }

  lemma SameScreens(path: Indexes, amount: string, fee: string, w: World)
    requires LeftoverZeros(w)
    ensures Screens(path, Payment([0xaa]), amount, fee, w) == Screens(path, Payment([0xaa, 0x00]), amount, fee, w)
  {
    SameText(w);
    SameButRecipient();
    hide AddressText, LeftoverZeros, Payment, Cleared;
  }

  /** The payment to the byte 0xaa and the payment to the bytes 0xaa, 0x00 are different transactions, both can be
      signed, and their reviews are the same to the letter when the text buffer happens to hold zeros. */
  lemma SameReviewExample(path: Indexes, amount: string, fee: string, w: World)
    requires LeftoverZeros(w)
    ensures Presentable(Payment([0xaa])) && Presentable(Payment([0xaa, 0x00]))
    ensures EncodeList(Payment([0xaa])) != EncodeList(Payment([0xaa, 0x00]))
    ensures Screens(path, Payment([0xaa]), amount, fee, w) == Screens(path, Payment([0xaa, 0x00]), amount, fee, w)
  {
    hide *;
    PaymentPresentable([0xaa]);
    PaymentPresentable([0xaa, 0x00]);
    PaymentEncodable([0xaa]);
    PaymentEncodable([0xaa, 0x00]);
    PaymentsDiffer([0xaa], [0xaa, 0x00]);
    SameScreens(path, amount, fee, w);
  }
}
