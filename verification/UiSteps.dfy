/** The steps of the final review, one by one. */
module UiSteps {
  import opened Errors
  import opened Amounts
  import opened World
  import opened Addresses
  import opened Session

  /** A text is shown when its header has at most 29 characters and itself at most 199, a prompt when both have at most
      29, and either only while no request is expected. */
  lemma ScreensFit(st: State, header: string, text: string, confirm: Callback, reject: Callback)
    ensures DisplayText(st, header, text, confirm).1
            == if |header| <= 29 && |text| <= 199 && st.io != ExpectIo then Ok(()) else Reset
    ensures DisplayPrompt(st, header, text, confirm, reject).1
            == if |header| <= 29 && |text| <= 29 && st.io != ExpectIo then Ok(()) else Reset
  {
  }

  ghost predicate InReview(st: State, step: UiStep) {
    st.ctx.stage == StageFinalize && st.ctx.stream.Some? && st.ctx.uiStep == step
  }

  lemma RecipientStep(st: State, w: World)
    requires InReview(st, ShowRecipient)
    ensures var recipient := st.ctx.stream.value.tx.recipient;
            TxUiStep(st, w)
            == if recipient.length > 20 then (st, Reset)
               else WithUiStep(DisplayText(st, "Send To", RecipientText(recipient, w), RunTxStep), ShowSender)
  {
    hide RecipientText, DisplayText, WithUiStep;
  }

  lemma SenderStep(st: State, w: World)
    requires InReview(st, ShowSender)
    ensures TxUiStep(st, w)
            == if !(0 < st.ctx.senderLength <= 20) then (st, Reset)
               else
                 WithUiStep(DisplayText(st, "Send From", AddressText(st.ctx.sender, st.ctx.senderLength, w), RunTxStep),
                            ShowAmount)
  {
    hide AddressText, DisplayText, WithUiStep;
  }

  lemma AmountStep(st: State, w: World)
    requires InReview(st, ShowAmount)
    ensures var value := st.ctx.stream.value.tx.value;
            TxUiStep(st, w)
            == if value.length > 32 then (st, Reset)
               else WithUiStep(DisplayResult(st, "Amount (FTM)", AmountShown(NumberOf(value))), ShowFee)
  {
    hide AmountShown, NumberOf, DisplayResult, WithUiStep;
  }

  lemma FeeStep(st: State, w: World)
    requires InReview(st, ShowFee)
    ensures var tx := st.ctx.stream.value.tx;
            TxUiStep(st, w)
            == if tx.gasPrice.length > 32 || tx.startGas.length > 32 then (st, Reset)
               else
                 WithUiStep(DisplayResult(st, "Max Fee (FTM)", FeeShown(NumberOf(tx.gasPrice), NumberOf(tx.startGas))),
                            if tx.isContractCall then ShowContractCall else AskSend)
  {
    hide FeeShown, NumberOf, DisplayResult, WithUiStep;
  }

  lemma AlertStep(st: State, w: World)
    requires InReview(st, ShowContractCall)
    ensures TxUiStep(st, w) == WithUiStep(DisplayText(st, "Smart Contract", "Alert", RunTxStep), AskSend)
  {
    hide DisplayText, WithUiStep;
  }

  lemma AskStep(st: State, w: World)
    requires InReview(st, AskSend)
    ensures TxUiStep(st, w)
            == WithUiStep(DisplayPrompt(st, "Send", "Transaction?", RunTxStep, RespondWithReject), SendSignature)
  {
    hide DisplayPrompt, WithUiStep;
  }

  lemma RespondStep(st: State, w: World)
    requires InReview(st, SendSignature)
    ensures TxUiStep(st, w)
            == if st.ctx.responseReady != RESPONSE_READY_TAG then (st, Throws(ErrInvalidData))
               else
                 var done := st.(ctx := st.ctx.(stage := StageDone));
                 WithUiStep((GoIdle(Send(done, Success([st.ctx.sigV] + st.ctx.sigR + st.ctx.sigS))), Ok(())), InvalidTx)
  {
    hide GoIdle, Send, WithUiStep;
  }

  lemma NoFurtherStep(st: State, w: World)
    requires st.ctx.stage == StageFinalize && st.ctx.stream.Some?
    requires st.ctx.uiStep
             !in {ShowRecipient, ShowSender, ShowAmount, ShowFee, ShowContractCall, AskSend, SendSignature}
    ensures TxUiStep(st, w) == (st, Reset)
  {
  }
}
