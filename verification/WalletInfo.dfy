/** The wallet totals: the usable balance and the pending amounts, folded over transactions and payments. */
module WalletInfo {
  import opened Wrappers
  import opened Sums
  import opened SwapTypes

  /** A wallet transaction and its L-BTC balance, if it has one. */
  datatype WalletTx = WalletTx(id: TxId, confirmed: bool, lbtc: Option<int>)

  datatype PaymentType = Receive | Send

  datatype Payment = Payment(
    kind: PaymentType,
    state: PaymentState,
    isLbtc: bool,
    amount: nat,
    fees: nat,
    txId: Option<TxId>,
    refundAmount: Option<nat>)

  datatype Totals = Totals(balance: nat, pendingSend: nat, pendingReceive: nat)

  /** Confirmed amounts, and unconfirmed spends. */
  function Counted(tx: WalletTx): int {
    if tx.lbtc.Some? && (tx.confirmed || tx.lbtc.value < 0) then tx.lbtc.value else 0
  }

  /** What a send takes out of the L-BTC balance. */
  function Cost(p: Payment): nat {
    if p.isLbtc then p.amount + p.fees else p.fees
  }

  /** A send that is neither refunded nor yet seen in the wallet's transactions. */
  predicate Unseen(p: Payment, known: set<TxId>) {
    p.kind.Send? && p.refundAmount.None? && p.txId.Some? && p.txId.value !in known
  }

  function Deducted(known: set<TxId>): Payment -> int {
    (p: Payment) => if Unseen(p, known) then Cost(p) else 0
  }

  function Sending(p: Payment): int {
    if p.kind.Send? && p.refundAmount.None? then Cost(p) else 0
  }

  function Receiving(p: Payment): int {
    if p.kind.Send? then (if p.refundAmount.Some? then p.refundAmount.value else 0)
    else if p.isLbtc && !p.state.RefundPending? then p.amount else 0
  }

  function Known(txs: seq<WalletTx>): set<TxId> {
    set i | 0 <= i < |txs| :: txs[i].id
  }

  function Abs(x: int): nat {
    if x < 0 then -x else x
  }

  function Max0(x: int): nat {
    if x < 0 then 0 else x
  }

  lemma {:induction false} SumNonNegative<T>(s: seq<T>, f: T -> int)
    requires forall x :: f(x) >= 0
    ensures Sum(s, f) >= 0
    decreases |s|
  {
    if s != [] {
      SumNonNegative(s[..|s| - 1], f);
    }
  }

  /** The wallet's on-chain L-BTC balance. */
  method OnchainBalance(txs: seq<WalletTx>) returns (balance: nat)
    ensures balance == Abs(Sum(txs, Counted))
    ensures Sum(txs, Counted) >= 0 ==> balance == Sum(txs, Counted)
  {
    var acc := 0;
    for i := 0 to |txs|
      invariant acc == Sum(txs[..i], Counted)
    {
      assert txs[..i + 1][..i] == txs[..i];
      if txs[i].lbtc.Some? && (txs[i].confirmed || txs[i].lbtc.value < 0) {
        acc := acc + txs[i].lbtc.value;
      }
    }
    assert txs[..|txs|] == txs;
    balance := Abs(acc);
  }

  /**
  update_wallet_info: deducting payment by payment with saturation amounts to deducting all unseen sends
  at once.
  */
  method WalletTotals(txs: seq<WalletTx>, payments: seq<Payment>) returns (totals: Totals)
    ensures totals.balance == Max0(Abs(Sum(txs, Counted)) - Sum(payments, Deducted(Known(txs))))
    ensures totals.pendingSend == Sum(payments, Sending)
    ensures totals.pendingReceive == Sum(payments, Receiving)
  {
    var known := Known(txs);
    var onchain := OnchainBalance(txs);
    var balance, pendingSend, pendingReceive := onchain, 0, 0;
    for i := 0 to |payments|
      invariant balance == Max0(onchain - Sum(payments[..i], Deducted(known)))
      invariant pendingSend == Sum(payments[..i], Sending)
      invariant pendingReceive == Sum(payments[..i], Receiving)
    {
      var p := payments[i];
      assert payments[..i + 1][..i] == payments[..i];
      SumNonNegative(payments[..i], Deducted(known));
      if p.kind.Send? {
        if p.refundAmount.Some? {
          pendingReceive := pendingReceive + p.refundAmount.value;
        } else {
          var total := if p.isLbtc then p.amount + p.fees else p.fees;
          if p.txId.Some? && p.txId.value !in known {
            balance := if balance < total then 0 else balance - total;
          }
          pendingSend := pendingSend + total;
        }
      } else if p.isLbtc && !p.state.RefundPending? {
        pendingReceive := pendingReceive + p.amount;
      }
    }
    assert payments[..|payments|] == payments;
    SumNonNegative(payments, Sending);
    SumNonNegative(payments, Receiving);
    totals := Totals(balance, pendingSend, pendingReceive);
  }

  /** What one more transaction counts: confirmed amounts and unconfirmed spends of L-BTC. */
  lemma OneMoreTx(txs: seq<WalletTx>, tx: WalletTx)
    ensures Sum(txs + [tx], Counted) ==
            Sum(txs, Counted) + match tx.lbtc case None => 0 case Some(x) => if tx.confirmed || x < 0 then x else 0
    ensures Known(txs + [tx]) == Known(txs) + {tx.id}
  {
    assert (txs + [tx])[..|txs|] == txs;
    assert forall i | 0 <= i < |txs| :: (txs + [tx])[i] == txs[i];
    assert (txs + [tx])[|txs|] == tx;
    assert Known(txs + [tx]) <= Known(txs) + {tx.id};
    assert Known(txs) <= Known(txs + [tx]);
  }

  /**
  What one more payment adds to the totals: a refunded send is still to be received, any other send costs its
  fees and, in L-BTC, its amount, and is deducted if the wallet does not know its transaction; a receive counts
  in L-BTC alone, and not while it is being refunded.
  */
  lemma OneMorePayment(payments: seq<Payment>, p: Payment, known: set<TxId>)
    ensures var more := payments + [p];
            var cost := p.fees + if p.isLbtc then p.amount else 0;
            && Sum(more, Deducted(known)) == Sum(payments, Deducted(known)) +
               (if p.kind.Send? && p.refundAmount.None? && p.txId.Some? && p.txId.value !in known then cost else 0)
            && Sum(more, Sending) == Sum(payments, Sending) +
               (if p.kind.Send? && p.refundAmount.None? then cost else 0)
            && Sum(more, Receiving) == Sum(payments, Receiving) +
               (if p.kind.Send? then (match p.refundAmount case Some(x) => x case None => 0)
                else if p.isLbtc && p.state != RefundPending then p.amount else 0)
  {
    assert (payments + [p])[..|payments|] == payments;
  }

  /** The totals do not depend on the order of payments or transactions. */
  lemma OrderDoesNotMatter(txs: seq<WalletTx>, txs': seq<WalletTx>, payments: seq<Payment>, payments': seq<Payment>)
    requires multiset(txs) == multiset(txs') && multiset(payments) == multiset(payments')
    ensures Sum(txs, Counted) == Sum(txs', Counted)
    ensures Sum(payments, Deducted(Known(txs))) == Sum(payments', Deducted(Known(txs')))
    ensures Sum(payments, Sending) == Sum(payments', Sending)
    ensures Sum(payments, Receiving) == Sum(payments', Receiving)
  {
    SumPermutation(txs, txs', Counted);
    KnownPermutation(txs, txs');
    KnownPermutation(txs', txs);
    assert Known(txs) == Known(txs');
    SumPermutation(payments, payments', Deducted(Known(txs)));
    SumPermutation(payments, payments', Sending);
    SumPermutation(payments, payments', Receiving);
  }

  lemma KnownPermutation(a: seq<WalletTx>, b: seq<WalletTx>)
    requires multiset(a) == multiset(b)
    ensures Known(a) <= Known(b)
  {
    forall x | x in Known(a) ensures x in Known(b) {
      var i :| 0 <= i < |a| && a[i].id == x;
      assert a[i] in multiset(b);
      var j :| 0 <= j < |b| && b[j] == a[i];
    }
  }

  /** The pending sends are those deducted from the balance and those the wallet knows or that have no transaction. */
  lemma {:induction false} DeductedAreSent(payments: seq<Payment>, known: set<TxId>)
    ensures 0 <= Sum(payments, Deducted(known)) <= Sum(payments, Sending)
    decreases |payments|
  {
    if payments != [] {
      DeductedAreSent(payments[..|payments| - 1], known);
    }
  }
}
