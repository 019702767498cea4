/**
Exact percentage fees rounded up to whole satoshi. A percentage p/q is the rate num/whole with num = p
and whole = 100q, so a percentage below 100 is a rate below one.
*/
module FeeMath {

  type Positive = n: nat | n > 0 witness 1

  datatype RateValue = RateValue(num: nat, whole: Positive)

  type Rate = r: RateValue | r.num < r.whole witness RateValue(0, 1)

  function CeilDiv(a: nat, b: Positive): nat {
    (a + b - 1) / b
  }

  lemma DivRem(a: nat, b: Positive)
    ensures a == b * (a / b) + a % b && 0 <= a % b < b
  {
  }

  lemma DivBounds(a: nat, b: Positive)
    ensures b * (a / b) <= a < b * (a / b) + b
  {
    DivRem(a, b);
  }

  lemma MulSub(a: int, x: int, y: int)
    ensures a * (x - y) == a * x - a * y
    ensures (x - y) * a == x * a - y * a
  {
  }

  lemma {:induction false} MulIncreases(b: Positive, x: int, y: int)
    requires x < y
    ensures b * x < b * y
    decreases y - x
  {
    assert b * (x + 1) == b * x + b;
    if x + 1 < y {
      MulIncreases(b, x + 1, y);
    }
  }

  lemma MulMono(b: Positive, x: int, y: int)
    ensures x < y <==> b * x < b * y
    ensures x <= y ==> b * x <= b * y
  {
    if x < y {
      MulIncreases(b, x, y);
    } else if y < x {
      MulIncreases(b, y, x);
    }
  }

  /** Rounding up is the least integer above the quotient. */
  lemma CeilDivLeast(a: nat, b: Positive, c: nat)
    ensures CeilDiv(a, b) <= c <==> a <= b * c
  {
    var q := CeilDiv(a, b);
    DivBounds(a + b - 1, b);
    assert b * q < a + b && a <= b * q;
    if q <= c {
      MulMono(b, q, c);
    } else {
      MulMono(b, c, q - 1);
      assert b * (q - 1) == b * q - b;
    }
  }

  lemma CeilDivStep(a: nat, more: nat, b: Positive)
    requires more <= b
    ensures CeilDiv(a, b) <= CeilDiv(a + more, b) <= CeilDiv(a, b) + 1
  {
    var q, next := CeilDiv(a, b), CeilDiv(a + more, b);
    CeilDivLeast(a, b, q);
    CeilDivLeast(a, b, next);
    CeilDivLeast(a + more, b, next);
    CeilDivLeast(a + more, b, q + 1);
    assert b * (q + 1) == b * q + b;
  }

  /** The service fee of a locked up amount. */
  function ServiceFee(rate: Rate, amount: nat): (fee: nat)
    ensures fee <= amount
  {
    CeilDivLeast(rate.num * amount, rate.whole, amount);
    MulMono(if amount > 0 then amount else 1, rate.num, rate.whole);
    assert rate.num * amount <= rate.whole * amount;
    CeilDiv(rate.num * amount, rate.whole)
  }

  /** What is left of a locked up amount after the service fee. */
  function Net(rate: Rate, lockup: nat): nat {
    lockup - ServiceFee(rate, lockup)
  }

  /** The amount to lock up so that `net` is left, as the quotes compute it. */
  function Lockup(rate: Rate, net: nat): nat {
    CeilDiv(rate.whole * net, rate.whole - rate.num)
  }

  lemma NetKeepsIff(rate: Rate, lockup: nat, net: nat)
    requires net <= lockup
    ensures Net(rate, lockup) >= net <==> rate.num * lockup <= rate.whole * lockup - rate.whole * net
  {
    CeilDivLeast(rate.num * lockup, rate.whole, lockup - net);
    MulSub(rate.whole, lockup, net);
  }

  lemma TooMuchToKeep(rate: Rate, lockup: nat, net: nat)
    requires net > lockup
    ensures rate.num * lockup > rate.whole * lockup - rate.whole * net
  {
    MulIncreases(rate.whole, lockup, net);
    assert rate.num * lockup >= 0;
  }

  /** Locking up and deducting the fee are adjoint: a lockup leaves enough exactly from the computed one on. */
  lemma NetReachesIff(rate: Rate, lockup: nat, net: nat)
    ensures Net(rate, lockup) >= net <==> (rate.whole - rate.num) * lockup >= rate.whole * net
    ensures Net(rate, lockup) >= net <==> lockup >= Lockup(rate, net)
  {
    CeilDivLeast(rate.whole * net, rate.whole - rate.num, lockup);
    MulSub(lockup, rate.whole, rate.num);
    if net <= lockup {
      NetKeepsIff(rate, lockup, net);
    } else {
      TooMuchToKeep(rate, lockup, net);
    }
  }

  /** One more satoshi locked up leaves at most one more. */
  lemma NetStep(rate: Rate, lockup: nat)
    ensures Net(rate, lockup + 1) <= Net(rate, lockup) + 1
  {
    assert rate.num * (lockup + 1) == rate.num * lockup + rate.num;
    CeilDivStep(rate.num * lockup, rate.num, rate.whole);
  }

  /** The computed lockup leaves exactly the net amount, and nothing less leaves as much. */
  lemma LockupIsLeast(rate: Rate, net: nat)
    ensures Net(rate, Lockup(rate, net)) == net
    ensures forall lockup: nat :: Net(rate, lockup) >= net <==> lockup >= Lockup(rate, net)
    ensures Lockup(rate, net) >= net
  {
    var lockup := Lockup(rate, net);
    NetReachesIff(rate, lockup, net);
    forall other: nat ensures Net(rate, other) >= net <==> other >= Lockup(rate, net) {
      NetReachesIff(rate, other, net);
    }
    if lockup >= 1 {
      NetReachesIff(rate, lockup - 1, net);
      NetStep(rate, lockup - 1);
    }
  }

  lemma RemainderIs(a: nat, b: Positive, q: nat, r: nat)
    requires a == b * q + r && r < b
    ensures a % b == r && a / b == q
  {
    DivBounds(a, b);
    MulMono(b, a / b, q + 1);
    MulMono(b, q, a / b + 1);
  }

  /** The net amount is the quotient of what the rate keeps. */
  lemma NetIsQuotient(rate: Rate, lockup: nat)
    ensures var keep := rate.whole - rate.num;
            keep * lockup == rate.whole * Net(rate, lockup) + (keep * lockup) % rate.whole
  {
    var keep, net := rate.whole - rate.num, Net(rate, lockup);
    NetReachesIff(rate, lockup, net);
    NetReachesIff(rate, lockup, net + 1);
    assert rate.whole * (net + 1) == rate.whole * net + rate.whole;
    RemainderIs(keep * lockup, rate.whole, net, keep * lockup - rate.whole * net);
  }

  /** A lockup less by some amount still leaves the net amount exactly if the remainder covers the difference. */
  lemma SmallerLockupIff(rate: Rate, lockup: nat, less: nat)
    requires less <= lockup
    ensures var keep := rate.whole - rate.num;
            lockup - less >= Lockup(rate, Net(rate, lockup)) <==> (keep * lockup) % rate.whole >= keep * less
  {
    var keep, net := rate.whole - rate.num, Net(rate, lockup);
    NetIsQuotient(rate, lockup);
    NetReachesIff(rate, lockup - less, net);
    MulSub(keep, lockup, less);
  }

  /** The remainder that decides whether a lockup is the least one with its net amount. */
  function Slack(rate: Rate, lockup: nat): nat {
    ((rate.whole - rate.num) * lockup) % rate.whole
  }

  /** The lockup recomputed from a net amount is at most the original, and equals it exactly if the slack is small. */
  lemma LockupOfNet(rate: Rate, lockup: nat)
    ensures Lockup(rate, Net(rate, lockup)) <= lockup
    ensures Lockup(rate, Net(rate, lockup)) == lockup <==> Slack(rate, lockup) < rate.whole - rate.num
  {
    SmallerLockupIff(rate, lockup, 0);
    if lockup >= 1 {
      SmallerLockupIff(rate, lockup, 1);
    } else {
      assert Slack(rate, 0) == 0;
    }
  }

  /** Up to a rate of one half it is the original or one less. */
  lemma LockupOfNetClose(rate: Rate, lockup: nat)
    requires 2 * rate.num <= rate.whole
    ensures lockup - 1 <= Lockup(rate, Net(rate, lockup)) <= lockup
  {
    LockupOfNet(rate, lockup);
    if lockup >= 2 {
      SmallerLockupIff(rate, lockup, 2);
    }
  }
}
