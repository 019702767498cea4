/**
Quoting an onchain payment and paying the quote. Amounts are u64 in the SDK; a subtraction that would
underflow there is the error Underflow here.
*/
module OnchainPayment {
  import opened Wrappers
  import opened FeeMath

  /** An outgoing chain pair: the service rate, the server's own onchain fee, its claim estimate and limits. */
  datatype Pair = Pair(rate: Rate, serverFee: nat, claimEstimate: nat, minimal: nat, maximal: nat)

  /** The wallet as both calls see it; the fee estimates are the wallet's. */
  datatype Wallet = Wallet(balance: nat, pendingSend: nat, pendingReceive: nat, lockupFee: nat -> nat, drainFee: nat)

  datatype Amount = Bitcoin(receiver: nat) | Drain

  datatype Quote = Quote(receiver: nat, claimFee: nat, totalFees: nat)

  datatype PaymentError = OutOfLimits | PendingPayments | InsufficientFunds | InvalidOrExpiredFees | Underflow

  const CLAIM_TX_VSIZE := 111

  predicate Within(pair: Pair, amount: nat) {
    pair.minimal <= amount <= pair.maximal
  }

  function ClaimFee(pair: Pair, satPerVbyte: Option<nat>): nat {
    if satPerVbyte.Some? then CLAIM_TX_VSIZE * satPerVbyte.value else pair.claimEstimate
  }

  /** prepare_pay_onchain. */
  function Prepare(pair: Pair, w: Wallet, amount: Amount, satPerVbyte: Option<nat>): Result<Quote, PaymentError> {
    var claimFee := ClaimFee(pair, satPerVbyte);
    match amount
    case Bitcoin(receiver) =>
      var net := receiver + claimFee + pair.serverFee;
      var lockup := Lockup(pair.rate, net);
      if !Within(pair, lockup) then Err(OutOfLimits)
      else if lockup < net then Err(Underflow)
      else
        var total := (lockup - net) + w.lockupFee(lockup) + claimFee + pair.serverFee;
        if receiver + total > w.balance then Err(InsufficientFunds) else Ok(Quote(receiver, claimFee, total))
    case Drain =>
      if w.pendingReceive != 0 || w.pendingSend != 0 then Err(PendingPayments)
      else if w.balance < w.drainFee then Err(Underflow)
      else
        var lockup := w.balance - w.drainFee;
        if !Within(pair, lockup) then Err(OutOfLimits)
        else
          var total := ServiceFee(pair.rate, lockup) + w.drainFee + claimFee + pair.serverFee;
          if w.balance < total then Err(Underflow) else Ok(Quote(w.balance - total, claimFee, total))
  }

  /** The amount a payment locks up and the one the swapper is asked to lock up in return. */
  datatype Payment = Payment(userLockup: nat, serverLockup: nat, payer: nat)

  /** pay_onchain, up to the creation of the swap. */
  function Pay(pair: Pair, w: Wallet, q: Quote): Result<Payment, PaymentError> {
    var net := q.receiver + q.claimFee + pair.serverFee;
    var lockup := Lockup(pair.rate, net);
    var payer := q.totalFees + q.receiver;
    if lockup < net then Err(Underflow)
    else if !Within(pair, lockup) then Err(OutOfLimits)
    else
      var fee := if payer == w.balance then w.drainFee else w.lockupFee(lockup);
      if q.totalFees != (lockup - net) + fee + q.claimFee + pair.serverFee then Err(InvalidOrExpiredFees)
      else if payer > w.balance then Err(InsufficientFunds)
      else Ok(Payment(lockup, q.receiver + q.claimFee, payer))
  }

  function QuotedNet(pair: Pair, q: Quote): nat {
    q.receiver + q.claimFee + pair.serverFee
  }

  /**
  A receiver amount is quoted exactly if its lockup is within the limits and the balance; nothing underflows.
  The claim fee is that of 111 vbytes at the chosen rate, or the pair's estimate.
  */
  lemma QuotedIff(pair: Pair, w: Wallet, receiver: nat, satPerVbyte: Option<nat>)
    ensures var claimFee := if satPerVbyte.Some? then 111 * satPerVbyte.value else pair.claimEstimate;
            var lockup := Lockup(pair.rate, receiver + claimFee + pair.serverFee);
            var within, payer := pair.minimal <= lockup <= pair.maximal, lockup + w.lockupFee(lockup);
            var quoted := Prepare(pair, w, Bitcoin(receiver), satPerVbyte);
            && (quoted == Err(OutOfLimits) <==> !within)
            && (quoted == Err(InsufficientFunds) <==> within && payer > w.balance)
            && (within && payer <= w.balance ==>
                  && quoted.Ok? && quoted.value.receiver == receiver && quoted.value.claimFee == claimFee
                  && quoted.value.receiver + quoted.value.totalFees == payer)
  {
    LockupIsLeast(pair.rate, receiver + ClaimFee(pair, satPerVbyte) + pair.serverFee);
  }

  /**
  A drain is quoted exactly without pending payments, if the balance less the drain fee is within the limits
  and covers the fees; the fees are the service fee of what is locked up, the drain, claim and server fees.
  */
  lemma DrainQuotedIff(pair: Pair, w: Wallet, satPerVbyte: Option<nat>)
    ensures var claimFee := if satPerVbyte.Some? then 111 * satPerVbyte.value else pair.claimEstimate;
            var pending, lockup := w.pendingReceive != 0 || w.pendingSend != 0, w.balance - w.drainFee;
            var within := lockup >= 0 && pair.minimal <= lockup <= pair.maximal;
            var quoted := Prepare(pair, w, Drain, satPerVbyte);
            && (quoted == Err(PendingPayments) <==> pending)
            && (quoted == Err(OutOfLimits) <==> !pending && lockup >= 0 && !within)
            && (!pending && within ==>
                  var total := ServiceFee(pair.rate, lockup) + w.drainFee + claimFee + pair.serverFee;
                  quoted == if total > w.balance then Err(Underflow)
                            else Ok(Quote(w.balance - total, claimFee, total)))
            && (!pending && lockup < 0 ==> quoted == Err(Underflow))
  {
  }

  /** Which quotes can be paid, whatever they were computed from: limits, fees and balance are checked in turn. */
  lemma PaidIff(pair: Pair, w: Wallet, q: Quote)
    ensures var net := q.receiver + q.claimFee + pair.serverFee;
            var lockup, payer := Lockup(pair.rate, net), q.receiver + q.totalFees;
            var within := pair.minimal <= lockup <= pair.maximal;
            var due := lockup - q.receiver + if payer == w.balance then w.drainFee else w.lockupFee(lockup);
            && (Pay(pair, w, q) == Err(OutOfLimits) <==> !within)
            && (Pay(pair, w, q) == Err(InvalidOrExpiredFees) <==> within && q.totalFees != due)
            && (Pay(pair, w, q) == Err(InsufficientFunds) <==> within && q.totalFees == due && payer > w.balance)
            && (within && q.totalFees == due && payer <= w.balance ==>
                  Pay(pair, w, q) == Ok(Payment(lockup, q.receiver + q.claimFee, payer)))
  {
    LockupIsLeast(pair.rate, q.receiver + q.claimFee + pair.serverFee);
  }

  /**
  A quote for a receiver amount locks up the least amount whose net covers the receiver, claim and server
  amounts, meets it exactly, and charges the lockup and its onchain fee and nothing else.
  */
  lemma QuoteLocksUpLeast(pair: Pair, w: Wallet, receiver: nat, satPerVbyte: Option<nat>)
    requires Prepare(pair, w, Bitcoin(receiver), satPerVbyte).Ok?
    ensures var q := Prepare(pair, w, Bitcoin(receiver), satPerVbyte).value;
            var lockup := Lockup(pair.rate, QuotedNet(pair, q));
            && q.receiver == receiver && Within(pair, lockup)
            && Net(pair.rate, lockup) == QuotedNet(pair, q)
            && (forall other: nat :: Net(pair.rate, other) >= QuotedNet(pair, q) <==> other >= lockup)
            && q.receiver + q.totalFees == lockup + w.lockupFee(lockup) <= w.balance
  {
    LockupIsLeast(pair.rate, receiver + ClaimFee(pair, satPerVbyte) + pair.serverFee);
  }

  /**
  With unchanged estimates a quote for a receiver amount is accepted, except that a payment which happens
  to take the whole balance is accepted exactly if both fee estimates agree.
  */
  lemma PayAcceptsQuoteIff(pair: Pair, w: Wallet, receiver: nat, satPerVbyte: Option<nat>)
    requires Prepare(pair, w, Bitcoin(receiver), satPerVbyte).Ok?
    ensures var q := Prepare(pair, w, Bitcoin(receiver), satPerVbyte).value;
            var lockup := Lockup(pair.rate, QuotedNet(pair, q));
            && (Pay(pair, w, q).Ok? <==> q.receiver + q.totalFees != w.balance || w.drainFee == w.lockupFee(lockup))
            && (Pay(pair, w, q).Ok? ==> Pay(pair, w, q).value
                                        == Payment(lockup, receiver + q.claimFee, lockup + w.lockupFee(lockup)))
  {
    LockupIsLeast(pair.rate, receiver + ClaimFee(pair, satPerVbyte) + pair.serverFee);
  }

  /** A drain quote takes the whole balance, and its net amount is what the drained lockup leaves. */
  lemma DrainQuote(pair: Pair, w: Wallet, satPerVbyte: Option<nat>)
    requires Prepare(pair, w, Drain, satPerVbyte).Ok?
    ensures var q := Prepare(pair, w, Drain, satPerVbyte).value;
            && q.receiver + q.totalFees == w.balance
            && w.balance >= w.drainFee && QuotedNet(pair, q) == Net(pair.rate, w.balance - w.drainFee)
  {
  }

  /**
  A drain quote is accepted exactly if no smaller lockup leaves the same net amount, which is decided by
  the slack of the lockup; the recomputed lockup never exceeds the drained one.
  */
  lemma PayAcceptsDrainIff(pair: Pair, w: Wallet, satPerVbyte: Option<nat>)
    requires Prepare(pair, w, Drain, satPerVbyte).Ok?
    ensures var q := Prepare(pair, w, Drain, satPerVbyte).value;
            var drained := w.balance - w.drainFee;
            var lockup := Lockup(pair.rate, QuotedNet(pair, q));
            && drained >= 0
            && (Pay(pair, w, q).Ok? <==> Slack(pair.rate, drained) < pair.rate.whole - pair.rate.num)
            && (Pay(pair, w, q).Ok? <==> lockup == drained)
            && (Pay(pair, w, q).Ok? <==> drained == 0 || Net(pair.rate, drained - 1) < Net(pair.rate, drained))
            && lockup <= drained
            && (2 * pair.rate.num <= pair.rate.whole ==> lockup >= drained - 1)
            && (Pay(pair, w, q).Ok? ==> Pay(pair, w, q).value.payer == w.balance)
  {
    DrainQuote(pair, w, satPerVbyte);
    var drained := w.balance - w.drainFee;
    LockupOfNet(pair.rate, drained);
    LockupIsLeast(pair.rate, Net(pair.rate, drained));
    if 2 * pair.rate.num <= pair.rate.whole {
      LockupOfNetClose(pair.rate, drained);
    }
  }

  /** At half a percent a wallet that can lock up 201 sat is quoted a drain it cannot pay. */
  lemma DrainQuoteRefused()
    ensures var pair := Pair(RateValue(1, 200), 10, 20, 1, 1000);
            var w := Wallet(241, 0, 0, _ => 40, 40);
            && Prepare(pair, w, Drain, None) == Ok(Quote(169, 20, 72))
            && Pay(pair, w, Quote(169, 20, 72)) == Err(InvalidOrExpiredFees)
  {
    assert ServiceFee(RateValue(1, 200), 201) == 2;
    assert Lockup(RateValue(1, 200), 199) == 200;
  }
}
