# A verified model of the Fantom Ledger application

The Fantom Ledger application signs transactions of the Fantom network on a hardware wallet.  A host opens a signing
session with a derivation path, streams an RLP encoded transaction in chunks and asks for the signature; the device
parses and hashes the stream while it arrives, shows recipient, sender, amount and fee on its screen, and sends a
signature once the user has confirmed all of them.  This project models that application in Dafny and proves what the
host and the user rely on.

The model follows the build with `HAVE_BAGL` and without `FUZZING` or `DEVEL`.

## How the model is organised

Four layers, each proved against the one below it.

* **Numbers.** `Words`, `Numerals`, `ShiftLaws`, `Uint256`, `Division`, `Schoolbook`, `Multiplication`, `Printing`,
  `Decimals` and `Amounts` hold the 256-bit integers of `src/uint256.c` as cells that are updated in place (a target
  may be one of the operands), and the texts of `src/transaction.c`.
* **The stream.** `Rlp` holds the header functions; `StreamModel` says what one byte does to the parser; `TxStream` is
  the parser as a class working on chunks, proved to do the same; `OneShot` is a decoder that sees the whole input, and
  the proof that the stream refines it; `Continuation` says which inputs can still become a transaction;
  `StoredFields` says what the record then holds; `RoundTrip` has the encoder.
* **The session.** `Session` is the device as a state machine: requests, buttons, resets.  `Approval` is the script of a
  session as host and user experience it; `Phases`, `Transcript` and `Safety` prove that every run keeps to it,
  `Consequences` says what that means, `SessionProperties` has the other properties of all runs, `Completion` and
  `EndToEnd` prove that the script can be played to its end, `Feasibility` says exactly when, `Refusals` and `Replies`
  say what the host is told, and `Recipients` says when the recipient on the screen is the one that is signed.
* **The device.** `SigningContext` and `Device` are the handlers, the screens and one round of the main loop on state
  updated in place; every method is proved to do what the function of `Session` says.

`Bip44`, `Signature`, `Addresses`, `UiSteps`, `World` and `Errors` are shared.  A failed `VALIDATE` is a thrown error, a
failed `ASSERT` a reset of the device.  Keccak, key derivation and ECDSA are function-valued fields of `World`; the hash
context is the sequence of bytes it has absorbed.

## What the proofs found

* `shiftRight128` in place by exactly 64 places loses the number: the upper half is cleared before it is copied.  The
  exact condition is `ShiftRight128ExactWhen`.  Nothing in the application shifts that way.
* `mul256` adds the carry of its third column at `2^192` where it belongs at `2^128`.  `ProductExactWhen` says exactly
  when the product is right, `ProductWrongExample` has a wrong one, and `SmallProductExact` shows that every product
  below `2^128` is right.
* The fee shown is the true fee exactly when the true fee is below `10^37` wei; `FeeShownWrongExample` has a larger one
  that is shown as `0`.  An amount that cannot be shown is refused.
* The parser does not compare the length in the list header with the items and accepts headers that are not the
  shortest ones.  `FinishedIsEncoding` says exactly when the accepted bytes are the encoding of the fields,
  `NotEveryEncodingExample` has bytes that are not.
* The path parser and the policy accept ten indexes, but `derivePrivateKey` and `bip44_pathToStr` assert that there are
  at most nine.  A session under ten indexes takes the whole transaction and then resets the device
  (`TenIndexesReset`); an accepted path can be signed under if and only if it has at most nine (`SignableWhen`), and
  `TenIndexesExample` has one that cannot.  `doc/cmd_sign_tx.md` asks for a path of two to ten indexes; the policy in
  the code refuses fewer than five.
* The parser waits for some headers that nothing can complete: more than four length bytes, a list where a string is
  due or a string in place of the envelope, or a length already above the bound of the field.  `FinishesWhen` and
  `CompletableWhen` say exactly when a waiting stream can still finish, `WaitsInVainExample` has two that cannot.
* Left padding of a short r or s relies on the context having been cleared (`FieldHoldsNumber`); the session theorems
  show that it always has been.
* A recipient shorter than 20 bytes is shown with the zeros of its storage behind it, as if it were 20 bytes long.  The
  recipient shown is the recipient signed if and only if it has 20 bytes (`RecipientShownWhen`), two are shown with the
  same digits if and only if they differ in zeros at the end (`RecipientsLookAlikeWhen`), and `SameReviewExample` has
  two different transactions with the same review.

## Model

| member | source | states |
|---|---|---|
| Consequences.SignedIsApproved | src/get_tx_sign.c:65-565 | in every run, whatever host and user do, a signature reply ends a session that announced an allowed path and confirmed it, delivered chunks that begin with nine items of the right sizes for chain 250, and confirmed recipient, sender, exact amount, fee, the contract alert when the data are a selector and whole words, and the prompt in this order; what is sent are v, r and s of the signature of the hash of exactly the transaction's bytes |
| Safety.EverySignatureApproved | src/get_tx_sign.c:237-530 | the log up to any signature is the complete script of one session, whose path has at most nine indexes, whose chunks were exactly enough, and whose chain id, amount and fee passed their checks |
| Safety.RunKeeps | src/main.c:29-155 | every reachable state satisfies the session invariant: what the device is doing and what the log tells agree |
| Safety.ReactKeeps | src/main.c:29-155 | one request, button or reset keeps the invariant; it logs no signature except as the end of a script, and an error code only when the device is quiet afterwards |
| Safety.ConfirmKeeps | src/ui_helpers.c:38-58 | a confirmed screen brings the next one of the script, the end of the session or a reset, and never an error code |
| Safety.RejectKeeps | src/ui_helpers.c:191-198 | a rejected prompt adds exactly the rejection, the error code ErrRejectedByUser and the idle screen to the log, and the device is quiet |
| Phases.SessionOpens | src/get_tx_sign.c:65-110 | an accepted first request carries exactly the encoding of the path, the path is allowed, and the warning is shown when the policy asks for it |
| Phases.ChunkCollected | src/get_tx_sign.c:195-231 | an accepted chunk leaves the stream as if all chunks had been one input; the reply tells whether the transaction is complete |
| Phases.SignatureComputed | src/get_tx_sign.c:237-284 | for a finished stream the handler signs only for the expected chain and a path of at most nine indexes, over the absorbed bytes and the path of the session, with zero padding, and begins the review |
| Phases.ScreenConfirmed | src/get_tx_sign.c:287-437 | confirming a screen of the review shows the next one in the fixed order, or stops the session |
| Phases.SignatureSent | src/get_tx_sign.c:501-521 | confirming the last prompt sends the signature of the session and goes idle |
| SessionProperties.LiveScreens | src/ui_helpers.c:38-172 | in every reachable state a live screen means that the user is expected and none of its callbacks has fired; without an instruction nothing is live |
| SessionProperties.StageOrder | src/get_tx_sign.c:32-34 | within a session the stage only moves from opening to collecting to the review, one at a time, and a session begins with the opening |
| Refusals.RequestAnswered | src/main.c:54-153 | in every reachable state a request is answered with exactly the first thing wrong with it, from an explicit table of turn, lock, length, class, instruction, state, parameters, path, policy, chunk and chain, and then the idle screen; with nothing wrong no error code is sent |
| Refusals.PolicyOnWire | src/policy.c:55-76 | the policy refuses a path exactly when it has fewer than five indexes on the wire or does not begin with the bytes 80 00 00 2c 80 00 00 3c |
| Refusals.AssertionResets | src/main.c:129-139 | a failed assertion restarts the device without an answer |
| Replies.FailuresDeserved | src/main.c:140-153 | in every run an error code is only sent for a request that deserves exactly it by the table, or ErrRejectedByUser for a rejected prompt |
| Replies.EverySuccessEarned | src/get_tx_sign.c:113-530 | in every run a success of the signing instruction is empty behind the confirmed opening, 2 or 4 behind a chunk that leaves the transaction incomplete or complete, or the signature behind the confirmed review |
| Replies.LargeAmountResets | src/get_tx_sign.c:353-437 | an amount of 10^37 or more, or a fee that cannot be shown, resets the device when its screen is due, without an answer |
| SessionProperties.FailuresGoIdle | src/main.c:131-153 | a step that sends an error code leaves the device quiet |
| SessionProperties.NothingLeftBehind | src/main.c:97-108 | from a quiet state on, what an earlier instruction left in the context or on the display makes no visible difference in any run |
| Completion.SessionCompletes | src/get_tx_sign.c:65-565 | from every quiet state, for every allowed path of at most nine indexes and every chunking of a transaction whose chain, amount and fee pass their checks, there is a run whose log ends with exactly the script |
| EndToEnd.EncodedIsSigned | src/get_tx_sign.c:65-565 | every presentable transaction, RLP encoded and sent in any chunks, can be signed under every allowed path of at most nine indexes: the run ends approved, with the signature of the hash of exactly the encoding |
| Feasibility.PlayableWhen | src/get_tx_sign.c:65-565 | whatever happened before, a session can be played from a quiet device to its signature if and only if the path has at most nine indexes, the chunks are exactly enough, the chain is the expected one and amount and fee can be shown |
| Feasibility.ScriptTellsAccount | src/get_tx_sign.c:65-231 | what host and user saw of a signed session determines what went before, the path and the chunks |
| Feasibility.SignableWhen | src/transaction.c:78 | a presentable transaction can be signed under an accepted path if and only if the path has at most nine indexes |
| Feasibility.TenIndexesReset | src/derive_key.c:24-30 | asked for a signature under ten indexes the device resets after it has collected the whole transaction |
| Feasibility.TenIndexesExample | src/derive_key.c:30 | a path of ten indexes that the parser and the policy accept; no run gets a signature for it |
| Device.Application.constructor | src/main.c:188-223 | after the boot code the device is quiet with a cleared context |
| Device.Application.Exchange | src/main.c:42-151 | one round of the main loop does what the state machine says for that request and keeps the invariant |
| Device.Application.ConfirmScreen | src/ui_basic_flows_bagl.c:16-25 | a confirmation does what the state machine says and keeps the invariant |
| Device.Application.RejectPrompt | src/ui_basic_flows_bagl.c:101-112 | a rejection does what the state machine says and keeps the invariant |
| Device.Application.LosePower | src/main.c:194-223 | a reset restarts the device and keeps the invariant |
| Safety.DispatchIs | src/main.c:54-122 | a handler is reached exactly by a request that comes in turn to an unlocked device, is well formed and names a known instruction, the running one if there is one; any other request fails and changes nothing but the turn |
| Device.Application.HandleRequest | src/main.c:54-122 | a request out of turn, an empty, locked, malformed or unknown one, a new and a continued instruction |
| Device.Application.CallHandler | src/main.c:97-122 | a new instruction starts from a cleared context, a running one must be continued |
| Device.Application.HandleSignTransaction | src/get_tx_sign.c:533-565 | the request goes to the sub-handler its parameter names, after clearing the context on a new call |
| Device.Application.HandleSignTxInit | src/get_tx_sign.c:65-110 | new state and result of opening a session, with every error |
| Device.Application.HandleSignTxCollect | src/get_tx_sign.c:195-231 | new state and result of a chunk, with every error |
| Device.Application.HandleSignTxFinalize | src/get_tx_sign.c:237-284 | new state and result of asking for the signature, with every error and the reset for a path of ten indexes |
| Device.Application.RunSignTransactionInitUIStep | src/get_tx_sign.c:113-190 | each step of the opening screens |
| Device.Application.RunSignTransactionUIStep | src/get_tx_sign.c:287-529 | each step of the review and the final reply |
| Device.Application.PressButton | src/ui_helpers.c:38-83 | a callback fires only under its guard and only once, and is marked before it runs |
| SigningContext.SignContext.GetSignature | src/transaction.c:46-169 | nothing changes when the key cannot be derived; otherwise the sender is the address of the path, and v, r and s are those of the signature, r and s written over the end of their fields |
| SigningContext.SignContext.Process | src/get_tx_sign.c:204-205 | the stream of the context processes the chunk and nothing else changes |
| TxStream.Stream.constructor | src/tx_stream.c:21-44 | an initialised stream expects the envelope and has absorbed nothing |
| TxStream.Stream.ReadByte | src/tx_stream.c:49-71 | the byte read is hashed, except while a self-encoded byte is processed |
| TxStream.Stream.CopyData | src/tx_stream.c:75-105 | the bytes are stored at the field position, hashed unless self-encoded, and passed |
| TxStream.Stream.ProcessEnvelope | src/tx_stream.c:109-121 | the envelope must be a list; its length is only kept |
| TxStream.Stream.ProcessStringField | src/tx_stream.c:124-290 | list, too long, partial and complete fields; what is stored, hashed and consumed |
| TxStream.Stream.ParseFieldProxy | src/tx_stream.c:293-360 | each field goes to its processor; the call flag is decided at the first byte of the data |
| TxStream.Stream.DetectField | src/tx_stream.c:363-397 | the peek buffer is fed until it holds a header, the chunk ends or the header is too long |
| TxStream.Stream.BeginField | src/tx_stream.c:425-461 | the header starts its field; a self-encoded byte is unread inside the chunk to be copied without a second hash |
| TxStream.Stream.Parse | src/tx_stream.c:400-468 | the loop ends on every chunk and does what feeding the bytes one by one does |
| TxStream.Stream.Process | src/tx_stream.c:471-510 | a chunk has the effect and status of its bytes; an empty or unexpected chunk is a fault |
| StreamModel.ChunkingIndependence | src/tx_stream.c:400-511 | every split of the input into nonempty chunks gives the status, parser state, fields, call flag and transcript of the whole input |
| StreamModel.TwoChunks | src/tx_stream.c:471-510 | a chunk that leaves the stream processing and the next one do what both together do |
| StreamModel.NothingMore | src/tx_stream.c:471-510 | a finished stream faults on every further chunk, and every stream on an empty one |
| StreamModel.BlockIsBytes | src/tx_stream.c:75-105 | copying a block of a field is feeding its bytes one by one |
| StreamModel.FeedKeepsWaiting | src/tx_stream.c:400-468 | between bytes the stream is always in a state from which it can go on: an expected field, a header that is incomplete, a position inside the field |
| FieldEntry.EnterIsProxy | src/tx_stream.c:425-461 | entering a field with the rest of the chunk at hand is entering it with its first byte and feeding the rest |
| OneShot.StreamRefinesOneShot | src/tx_stream.c:293-468 | on every input the stream finishes, faults or waits as the decoder that sees the whole input says, which takes strings of at most 20 bytes for the recipient, 32 for other numbers and any that fit a word for data, R and S: finished, the items are stored and exactly their bytes hashed once; waiting, everything is hashed |
| OneShot.ItemsFitWhen | src/tx_stream.c:293-360 | the items the decoder takes are exactly nine of at most 32, 32, 32, 20, 32, 2^32-1, 32, 2^32-1 and 2^32-1 bytes, with one of at most 32 in front when typed |
| Continuation.CompletableWhen | src/tx_stream.c:363-468 | an input can still become a transaction if and only if the stream has not faulted on it and is inside a field or holds header bytes that can become a header of the expected field |
| Continuation.FinishesWhen | src/tx_stream.c:363-468 | the same for every waiting stream and what it can still be fed |
| Continuation.MalformedStays | src/tx_stream.c:400-468 | what is faulty stays faulty, whatever follows |
| Continuation.WaitsInVainExample | src/tx_stream.c:363-397 | two inputs that are not refused although nothing can complete them |
| StoredFields.FinishedRecord | src/tx_stream.c:124-345 | each kept field holds its own item, zero padded, with its length, and the call flag is set exactly when the data are four bytes and whole words |
| StoredFields.FinishedTyped | src/tx_stream.c:304-308 | the type in front of a typed transaction changes nothing in the record |
| RoundTrip.RoundTrip | src/tx_stream.c:124-360 | an encoded transaction with items of these sizes, in any chunks, finishes the stream with every item stored and exactly the encoding hashed |
| RoundTrip.TransactionReads | src/rlp_utils.c:22-174 | the decoder reads an encoded transaction back, whatever follows it |
| RoundTrip.EncodingsDiffer | src/tx_stream.c:400-468 | no encoding is the beginning of another transaction's |
| RoundTrip.FinishedIsEncoding | src/tx_stream.c:109-121 | accepted bytes are the encoding of the stored items if and only if every header is the shortest and the list length is right |
| RoundTrip.NotEveryEncodingExample | src/tx_stream.c:109-121 | a list header announcing nothing, followed by nine empty strings, is accepted |
| Rlp.HeaderDetection | src/rlp_utils.c:22-174 | byte by byte the probe first succeeds after exactly the header, never reports an invalid one within five bytes, and the decoder then gives the length and kind of Appendix B of the Yellow Paper |
| Uint256.Add256 | src/uint256.c:242-253 | the sum modulo 2^256, also in place |
| Uint256.Minus256 | src/uint256.c:264-275 | the difference modulo 2^256, also in place |
| Uint256.Add128 | src/uint256.c:234-239 | the sum modulo 2^128, also in place |
| Uint256.Minus128 | src/uint256.c:256-261 | the difference modulo 2^128, also in place |
| Uint256.Or256 | src/uint256.c:284-287 | the bitwise or of the numbers |
| Uint256.ShiftLeft128 | src/uint256.c:58-76 | the product with 2^n modulo 2^128 for every n, also in place |
| Uint256.ShiftLeft256 | src/uint256.c:79-102 | the product with 2^n modulo 2^256 for every n, also in place |
| Uint256.ShiftRight128 | src/uint256.c:105-125 | the quotient by 2^n for every n, except in place by 64 |
| Uint256.ShiftRight128ExactWhen | src/uint256.c:105-125 | the shift is exact if and only if it is not in place, not by 64, or the number is below 2^64 |
| Uint256.ShiftRight128WrongExample | src/uint256.c:105-125 | 2^64 shifted in place by 64 gives 0 instead of 1 |
| Uint256.ShiftRight256 | src/uint256.c:128-151 | the quotient by 2^n for every n, also in place |
| Uint256.Gt256 | src/uint256.c:216-221 | the order of the numbers |
| Uint256.Gte256 | src/uint256.c:229-231 | the order of the numbers, or equality |
| Division.Bits128 | src/uint256.c:154-171 | the number of binary digits |
| Division.Bits256 | src/uint256.c:174-193 | the number of binary digits |
| Division.DivMod256 | src/uint256.c:462-492 | quotient and remainder for every nonzero divisor, also when the results overwrite the operands |
| Division.SubtractShifted | src/uint256.c:481-488 | the loop ends with quotient and remainder |
| Division.DivisionSubtracts | src/uint256.c:482-485 | the lower quotient bits are clear, so the bitwise or adds, and the remainder stays below two shifted divisors |
| Division.DivMod128 | src/uint256.c:428-459 | quotient and remainder for every nonzero divisor, also in place |
| Multiplication.Mul128 | src/uint256.c:290-330 | the product modulo 2^128 |
| Multiplication.Mul256 | src/uint256.c:333-425 | the product plus c * (2^192 - 2^128), modulo 2^256, for the upper half c of the third column |
| Multiplication.MisplacedAtMostTwo | src/uint256.c:416 | that upper half is at most two |
| Multiplication.ProductExactWhen | src/uint256.c:333-425 | the product is right modulo 2^256 if and only if the third column fits its 64 bits |
| Multiplication.ProductWrongExample | src/uint256.c:416 | two factors whose product is computed wrongly |
| Multiplication.SmallProductExact | src/uint256.c:333-425 | every product below 2^128 is exact |
| Printing.StringReverse | src/uint256.c:495-503 | the first characters are exactly reversed in place |
| Printing.ReadUint64IsEval | src/uint256.c:564-569 | the eight shifted bytes are the big-endian number |
| Printing.ReadUint128BE | src/uint256.c:572-579 | the big-endian number of sixteen bytes |
| Printing.ReadUint256BE | src/uint256.c:582-589 | the big-endian number of the first 32 bytes; a shorter buffer is refused |
| Printing.Uint256ConvertBE | src/uint256.c:506-520 | the big-endian number of at most 32 bytes; more are refused |
| Printing.Uint256ToString | src/uint256.c:523-560 | the numeral with its terminator and its length, or 0 exactly when the digits outnumber the space |
| Printing.NumeralReadsBack | src/uint256.c:523-560 | the printed text has no leading zero and denotes the number, in every base from 2 to 16 |
| Printing.NumeralIsPrinted | src/uint256.c:523-560 | every numeral without leading zeros is the printed text of its number |
| Decimals.AdjustDecimals | src/transaction.c:175-274 | the text with its point placed and its trailing zeros cut, or an error exactly when it lacks room |
| Decimals.RoomWhen | src/transaction.c:183-224 | there is room when the space is at least 3 and, for a number that is not zero, three more than the digits and four more than the decimals |
| Decimals.AdjustedExact | src/transaction.c:175-274 | the text denotes exactly the number divided by 10^decimals, in canonical form |
| Decimals.AdjustedDistinct | src/transaction.c:175-274 | two numbers never share a text |
| Amounts.FormattedAmount | src/transaction.c:277-294 | what the buffer holds, or which error, for every field |
| Amounts.FormattedFee | src/transaction.c:297-320 | what the buffer holds, or which error, for every pair of fields |
| Amounts.AmountTextWhen | src/transaction.c:277-294 | for every number, scale and space: the text when it has at most 40 digits and there is room, else an error |
| Amounts.AmountShownWhen | src/get_tx_sign.c:353-375 | amounts below 10^37 are shown and larger ones refused |
| Amounts.AmountShownExact | src/get_tx_sign.c:353-375 | what is shown denotes exactly the amount, in canonical form |
| Amounts.AmountsDistinct | src/get_tx_sign.c:353-375 | distinct amounts never share a text |
| Amounts.FeeShownExact | src/transaction.c:297-320 | a true fee below 10^37 is shown exactly |
| Amounts.FeeShownCorrectWhen | src/transaction.c:297-320 | a fee that is shown is the true one if and only if the true one is below 10^37 |
| Amounts.FeeShownWrongExample | src/transaction.c:297-320 | a gas price of 2^255 and a limit of 2 are shown as a fee of 0 |
| Signature.GetV | src/transaction.c:24-43 | the V field as a number; more than four bytes are refused |
| Signature.StoreSignature | src/transaction.c:113-152 | the parity byte, and both numbers written over the end of their fields, or the error |
| Signature.ExtractedWhen | src/transaction.c:121-152 | from arbitrary signature data two numbers are taken exactly when each stands behind its length byte, or behind 33 and a byte of padding, and within the length; otherwise there is an error |
| Signature.ExtractionInvertsDer | src/transaction.c:121-152 | from the DER encoding of any r and s in [1, 2^256) exactly these are taken, with sign padding and short numbers |
| Signature.SignificantDenotes | src/transaction.c:121-152 | at most 32 bytes are taken, and they denote the number |
| Signature.FieldHoldsNumber | src/transaction.c:139-152 | the 32-byte field holds the number if and only if the bytes in front of the copied ones were zero |
| Consequences.SignatureCarries | src/get_tx_sign.c:501-521 | the 65 bytes sent are 27 plus the parity and twice the overflow bit, and 32 bytes each that denote r and s |
| Bip44.ParseFromWire | src/bip44.c:19-48 | the path and the bytes it takes, or the error |
| Bip44.ParseInvertsWire | src/bip44.c:19-48 | data is parsed as a path if and only if it begins with the encoding of that path |
| Bip44.PathToStr | src/bip44.c:151-201 | the text of the path, or a reset exactly when it has too many indexes or too little room |
| Bip44.PathTextReadsBack | src/bip44.c:151-201 | the text is read back as the same indexes, an apostrophe standing for 2147483648 |
| Bip44.ComponentShows | src/bip44.c:190-199 | an index is shown in decimal without its top bit, and ends in an apostrophe exactly when it is at least 2147483648 |
| Bip44.PathTextsDiffer | src/bip44.c:151-201 | different paths are shown differently |
| Bip44.SignInitPolicyWhen | src/policy.c:55-76 | exactly which paths are allowed without a warning and which are refused, in numbers |
| Bip44.AllowedPathHasKeyWhen | src/derive_key.c:18-30 | of the paths the policy allows exactly those of at most nine indexes have a key |
| Addresses.AddressTextIs | src/address_utils.c:89-144 | the text is the only one of "0x" and 40 digits that shows the 20 bytes of storage and whose letters are capitals exactly where the half-byte of the hash is at least 8; hashed are the lower-case digits of the address and, behind a short one, what the buffer held |
| Addresses.CapitalsAreChecksum | src/address_utils.c:113-137 | in the text of a full address a letter is a capital exactly when its half-byte of the hash of the lower-cased text is at least 8 |
| Addresses.AddressReadsBack | src/address_utils.c:89-144 | whatever the length given, the digits of the text are those of all 20 bytes of storage |
| Addresses.AddressTextsDiffer | src/address_utils.c:89-144 | two addresses that share a text have the same 20 bytes |
| Recipients.RecipientShownWhen | src/get_tx_sign.c:297-320 | the bytes on the recipient screen are those of the transaction if and only if there are 20 of them |
| Recipients.RecipientsLookAlikeWhen | src/address_utils.c:89-144 | two recipients are shown with the same digits if and only if they differ in zeros at the end |
| Recipients.SameReviewExample | src/address_utils.c:101-115 | two different transactions that can both be signed and whose reviews are the same to the letter |

## Left out

- TxStream.Stream.ProcessStringField: the V field has 32 bytes of storage here, as `src/tx_stream.c:346` allows it that
  length, where `src/transaction.h:10` reserves four; what a longer V overwrites is not modelled.  A V of more than four
  bytes is never signed.
- SigningContext.SignContext.GetSignature: the device delivers the DER encoding of two numbers in [1, 2^256), so the
  errors for other signature data do not occur here; `Signature.StoreSignature` has them for arbitrary data.
- Printing.Uint256ToString: requires a spare slot when the digits fill `outLength`, because the code checks the space for
  digits but not for the terminator, and a nonempty buffer; `Amounts.ShowNumber` gives its 40-digit buffer 41 slots.
- Division.DivMod256: requires a nonzero divisor, as the loop does not end for zero, and two separate results.
- Division.DivMod128: requires a nonzero divisor, for the same reason.
- Uint256.Add256: two cells are the same or do not overlap; partly overlapping ones do not occur.  The same holds for
  the other 256-bit operations.
- `memset` of a context is a fresh cleared context taking its place; the union of the contexts of all instructions is
  not overlaid in memory, they are only cleared together.
- The request buffer comes as the five header bytes and an array with the payload behind them.
- The other three instructions (`src/get_version.c`, `src/get_pub_key.c`, `src/get_address.c`): each step may reply,
  show a screen, throw or reset as the environment chooses; they never reply in the name of the signing instruction.
- Bip44.PathToStr: for an empty path the buffer is untouched and so not terminated; the policies refuse such a path.
- Keccak, BIP32 derivation and ECDSA are functions of the environment; that they are secure is not stated.
- What an uninitialised text buffer holds when a recipient of fewer than 20 bytes is shown is a field of `World`, the
  same at every call.
- `EXCEPTION_IO_RESET` and a reset by the processor are one step that keeps the memory; the proof that leftovers make no
  difference covers both.
- Leaving the application from the idle menu, USB, BLE and SPI transport, tickers, heartbeats, wiping of keys, the
  layouts of the screens and paging through a long text, and the NBGL build.
- The path is not shown during signing by the code, and so not by the model.
- Predicates of `src/bip44.c` and policies of `src/policy.c` that the signing instruction does not use.
