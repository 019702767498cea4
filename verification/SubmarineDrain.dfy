/** Draining the wallet with a submarine swap: inverting receiver amount plus fees. */
module SubmarineDrain {
  import opened Wrappers
  import opened FeeMath

  /** A submarine pair; its total fee is the service fee and the miner fee. */
  datatype Pair = Pair(rate: Rate, minerFee: nat, minimal: nat, maximal: nat)

  datatype DrainError = Underflow | OutOfLimits | LeavesRemainder

  function Total(pair: Pair, receiver: nat): nat {
    ServiceFee(pair.rate, receiver) + pair.minerFee
  }

  /** What a payment of the receiver amount takes out of the drained wallet. */
  function Gross(pair: Pair, receiver: nat): nat {
    receiver + Total(pair, receiver)
  }

  /** increment_receiver_amount_up_to_drain_amount. */
  function IncrementUpTo(pair: Pair, receiver: nat, drain: nat): (r: nat)
    ensures r >= receiver
    ensures Gross(pair, r + 1) > drain
    ensures r > receiver ==> Gross(pair, r) <= drain
    decreases drain - receiver
  {
    if Gross(pair, receiver + 1) <= drain then IncrementUpTo(pair, receiver + 1, drain) else receiver
  }

  /** The receiver amount of a drain, as prepare_send_payment and prepare_lnurl_pay compute it. */
  function Drain(pair: Pair, drain: nat): Result<nat, DrainError> {
    if Total(pair, drain) > drain then Err(Underflow)
    else
      var receiver := IncrementUpTo(pair, drain - Total(pair, drain), drain);
      if !(pair.minimal <= receiver <= pair.maximal) then Err(OutOfLimits)
      else if Gross(pair, receiver) != drain then Err(LeavesRemainder)
      else Ok(receiver)
  }

  /** One more satoshi to the receiver costs one or two. */
  lemma GrossStep(pair: Pair, receiver: nat)
    ensures Gross(pair, receiver) + 1 <= Gross(pair, receiver + 1) <= Gross(pair, receiver) + 2
  {
    var num, whole: Positive := pair.rate.num, pair.rate.whole;
    assert num * (receiver + 1) == num * receiver + num;
    CeilDivStep(num * receiver, num, whole);
  }

  /** The gross amount is strictly increasing, so at most one receiver amount drains a given amount. */
  lemma {:induction false} GrossIncreases(pair: Pair, a: nat, b: nat)
    requires a < b
    ensures Gross(pair, a) < Gross(pair, b)
    decreases b - a
  {
    GrossStep(pair, b - 1);
    if a < b - 1 {
      GrossIncreases(pair, a, b - 1);
    }
  }

  /** Fees grow with the amount, so the starting point of the search does not overshoot. */
  lemma StartDoesNotOvershoot(pair: Pair, drain: nat)
    requires Total(pair, drain) <= drain
    ensures Gross(pair, drain - Total(pair, drain)) <= drain
  {
    var start := drain - Total(pair, drain);
    CeilDivLeast(pair.rate.num * start, pair.rate.whole, ServiceFee(pair.rate, drain));
    CeilDivLeast(pair.rate.num * drain, pair.rate.whole, ServiceFee(pair.rate, drain));
    MulMono(if pair.rate.num > 0 then pair.rate.num else 1, start, drain);
    assert pair.rate.num * start <= pair.rate.num * drain;
  }

  lemma GreatestIsBound(pair: Pair, drain: nat, r: nat, other: nat)
    requires Gross(pair, r) <= drain < Gross(pair, r + 1)
    ensures Gross(pair, other) <= drain <==> other <= r
  {
    if other < r {
      GrossIncreases(pair, other, r);
    } else if other > r + 1 {
      GrossIncreases(pair, r + 1, other);
    }
  }

  /** The search ends at the greatest receiver amount the drained wallet can pay, within one satoshi of it. */
  lemma SearchFindsGreatest(pair: Pair, drain: nat)
    requires Total(pair, drain) <= drain
    ensures var r := IncrementUpTo(pair, drain - Total(pair, drain), drain);
            && drain - 1 <= Gross(pair, r) <= drain
            && (forall other: nat :: Gross(pair, other) <= drain <==> other <= r)
  {
    var r := IncrementUpTo(pair, drain - Total(pair, drain), drain);
    StartDoesNotOvershoot(pair, drain);
    GrossStep(pair, r);
    forall other: nat ensures Gross(pair, other) <= drain <==> other <= r {
      GreatestIsBound(pair, drain, r, other);
    }
  }

  /**
  A drain succeeds exactly if some receiver amount within the limits takes the whole amount, and it is
  that one; the remainder check fails exactly if there is none, and then leaves one satoshi.
  */
  lemma DrainIffExact(pair: Pair, drain: nat)
    ensures forall r: nat :: Drain(pair, drain) == Ok(r) <==>
                             Total(pair, drain) <= drain && Gross(pair, r) == drain && pair.minimal <= r <= pair.maximal
    ensures Drain(pair, drain) == Err(LeavesRemainder) ==>
              && (forall r: nat :: Gross(pair, r) != drain)
              && Total(pair, drain) <= drain
              && Gross(pair, IncrementUpTo(pair, drain - Total(pair, drain), drain)) == drain - 1
  {
    if Total(pair, drain) > drain {
      return;
    }
    SearchFindsGreatest(pair, drain);
    var found := IncrementUpTo(pair, drain - Total(pair, drain), drain);
    forall r: nat | Gross(pair, r) == drain ensures r == found {
      if r < found {
        GrossIncreases(pair, r, found);
      }
    }
  }

  lemma DrainedLeavesSmallRemainder(pair: Pair, paid: nat, r: nat)
    requires Gross(pair, r) == paid + pair.minerFee
    ensures (pair.rate.whole * paid) % (pair.rate.whole + pair.rate.num) < pair.rate.whole
  {
    var step: Positive := pair.rate.whole + pair.rate.num;
    GrossIs(pair, r, paid);
    RemainderIs(pair.rate.whole * paid, step, r, pair.rate.whole * paid - step * r);
  }

  lemma SmallRemainderDrains(pair: Pair, paid: nat)
    requires (pair.rate.whole * paid) % (pair.rate.whole + pair.rate.num) < pair.rate.whole
    ensures Gross(pair, (pair.rate.whole * paid) / (pair.rate.whole + pair.rate.num)) == paid + pair.minerFee
  {
    var step: Positive := pair.rate.whole + pair.rate.num;
    DivRem(pair.rate.whole * paid, step);
    GrossIs(pair, (pair.rate.whole * paid) / step, paid);
  }

  /** The errors of a drain that has no exact receiver amount within the limits, in the order they are checked. */
  lemma DrainFailsIff(pair: Pair, drain: nat)
    ensures Drain(pair, drain) == Err(Underflow) <==> drain < ServiceFee(pair.rate, drain) + pair.minerFee
    ensures drain >= ServiceFee(pair.rate, drain) + pair.minerFee ==>
              exists r: nat ::
                && r + ServiceFee(pair.rate, r) + pair.minerFee <= drain < Gross(pair, r + 1)
                && (Drain(pair, drain) == Err(OutOfLimits) <==> r < pair.minimal || r > pair.maximal)
                && (Drain(pair, drain) == Err(LeavesRemainder) <==>
                    pair.minimal <= r <= pair.maximal && r + ServiceFee(pair.rate, r) + pair.minerFee != drain)
  {
    if Total(pair, drain) <= drain {
      SearchFindsGreatest(pair, drain);
      var r := IncrementUpTo(pair, drain - Total(pair, drain), drain);
      assert Gross(pair, r) <= drain < Gross(pair, r + 1);
    }
  }

  /** Which amounts can be drained at all, without a search. */
  lemma DrainableIff(pair: Pair, drain: nat)
    requires drain >= pair.minerFee
    ensures (exists r: nat :: Gross(pair, r) == drain)
            <==> (pair.rate.whole * (drain - pair.minerFee)) % (pair.rate.whole + pair.rate.num) < pair.rate.whole
  {
    var paid: nat := drain - pair.minerFee;
    if r: nat :| Gross(pair, r) == drain {
      DrainedLeavesSmallRemainder(pair, paid, r);
    }
    if (pair.rate.whole * paid) % (pair.rate.whole + pair.rate.num) < pair.rate.whole {
      SmallRemainderDrains(pair, paid);
    }
  }

  /** The gross amount of a receiver amount, as a bound on products. */
  lemma GrossIs(pair: Pair, r: nat, paid: nat)
    ensures Gross(pair, r) == paid + pair.minerFee
            <==> 0 <= pair.rate.whole * paid - (pair.rate.whole + pair.rate.num) * r < pair.rate.whole
  {
    var num, whole: Positive := pair.rate.num, pair.rate.whole;
    assert (whole + num) * r == whole * r + num * r;
    if paid >= r {
      assert whole * (paid - r) == whole * paid - whole * r;
      CeilDivLeast(num * r, whole, paid - r);
      if paid > r {
        CeilDivLeast(num * r, whole, paid - r - 1);
        assert whole * (paid - r - 1) == whole * (paid - r) - whole;
      }
    } else {
      MulMono(whole, paid, r);
      assert whole * (r - paid) == whole * r - whole * paid;
      assert num * r >= 0;
    }
  }
}
