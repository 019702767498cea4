/**
Incoming chain swaps without an agreed amount. The swapper quotes what it will lock up; the quote is
accepted automatically, or by the user, and the accepted receiver amount is stored before the swapper is
told. A subtraction that would underflow in the SDK's u64 is the error Underflow here.
*/
module AmountlessSwap {
  import opened Wrappers
  import opened SwapTypes
  import opened ChainStore
  import opened FeeMath
  import H = ChainHandler
  import R = Recovery

  /** The pair chosen at creation, with the fee leeway of the configuration if it sets one. */
  datatype Pair = Pair(rate: Rate, serverFee: nat, leeway: Option<nat>)

  const DEFAULT_LEEWAY := 500

  function Leeway(pair: Pair): nat {
    if pair.leeway.Some? then pair.leeway.value else DEFAULT_LEEWAY
  }

  datatype Decision = AutoAccept(receiver: nat) | AskUser

  datatype QuoteError = NoBalance | Underflow | NotIncoming | NotWaiting | NoPayerAmount | InvalidOrExpiredFees

  function SaturatingSub(a: nat, b: nat): nat {
    if a < b then 0 else a - b
  }

  /** What the swapper was expected to lock up for the user's amount; negative amounts underflow. */
  function Estimate(pair: Pair, locked: nat): int {
    locked - pair.serverFee - ServiceFee(pair.rate, locked)
  }

  /** validate_amountless_swap; `locked` is the balance found at the lockup address. */
  function Validate(pair: Pair, swap: ChainSwap, locked: nat, quote: nat): Result<Decision, QuoteError> {
    if !swap.terms.direction.Incoming? then Err(NotIncoming)
    else if locked == 0 then Err(NoBalance)
    else if Estimate(pair, locked) < 0 then Err(Underflow)
    else if SaturatingSub(Estimate(pair, locked), Leeway(pair)) > quote then Ok(AskUser)
    else if quote < swap.terms.claimFees then Err(Underflow)
    else Ok(AutoAccept(quote - swap.terms.claimFees))
  }

  /** What fetch_payment_proposed_fees shows the user, and the user sends back to accept it. */
  datatype Proposal = Proposal(fees: nat, payer: nat, receiver: nat)

  function Propose(swap: ChainSwap, quote: nat): Result<Proposal, QuoteError> {
    if !swap.state.WaitingFeeAcceptance? then Err(NotWaiting)
    else if swap.actualPayer.None? then Err(NoPayerAmount)
    else
      var payer := swap.actualPayer.value;
      if quote > payer || quote < swap.terms.claimFees then Err(Underflow)
      else Ok(Proposal(payer - quote + swap.terms.claimFees, payer, quote - swap.terms.claimFees))
  }

  /** The amount accept_payment_proposed_fees stores for the proposal sent back and the current quote. */
  function UserAccepts(swap: ChainSwap, p: Proposal, quote: nat): Result<nat, QuoteError> {
    if !swap.state.WaitingFeeAcceptance? then Err(NotWaiting)
    else if quote > p.payer then Err(Underflow)
    else if p.fees != p.payer - quote + swap.terms.claimFees then Err(InvalidOrExpiredFees)
    else if p.fees > p.payer then Err(Underflow)
    else Ok(p.payer - p.fees)
  }

  /** What a quote is accepted on: the balance found for the pair, or the user's agreement. */
  datatype Ground = Found(pair: Pair, locked: nat) | Agreed(proposal: Proposal)

  /** The receiver amount to store, if the quote is accepted. */
  function Accepted(swap: ChainSwap, ground: Ground, quote: nat): Option<nat> {
    match ground
    case Found(pair, locked) =>
      (match Validate(pair, swap, locked, quote) case Ok(AutoAccept(receiver)) => Some(receiver) case _ => None)
    case Agreed(p) =>
      (match UserAccepts(swap, p, quote) case Ok(receiver) => Some(receiver) case Err(_) => None)
  }

  /**
  A quote is accepted without asking exactly if it is within the leeway of the estimate, saturation
  included; the payer then loses at most the service, server and claim fees and the leeway.
  */
  lemma AutoAcceptIff(pair: Pair, swap: ChainSwap, locked: nat, quote: nat)
    requires swap.terms.direction.Incoming? && locked > 0 && Estimate(pair, locked) >= 0
    ensures var decision, bound := Validate(pair, swap, locked, quote), Estimate(pair, locked);
            && (decision == Ok(AskUser) <==> quote + Leeway(pair) < bound)
            && (forall receiver: nat :: decision == Ok(AutoAccept(receiver)) <==>
                                        quote + Leeway(pair) >= bound && receiver + swap.terms.claimFees == quote)
            && (forall receiver: nat :: decision == Ok(AutoAccept(receiver)) ==>
                                        locked - receiver <= ServiceFee(pair.rate, locked) + pair.serverFee
                                                             + swap.terms.claimFees + Leeway(pair))
  {
  }

  /** The outcomes of validating a quote, in the order they are checked; the default leeway is 500 sat. */
  lemma ValidatedIff(pair: Pair, swap: ChainSwap, locked: nat, quote: nat)
    ensures var res, fees := Validate(pair, swap, locked, quote), swap.terms.claimFees;
            var estimate := locked - pair.serverFee - ServiceFee(pair.rate, locked);
            var enough := quote + (if pair.leeway.Some? then pair.leeway.value else 500) >= estimate;
            && (res == Err(NotIncoming) <==> swap.terms.direction.Outgoing?)
            && (res == Err(NoBalance) <==> swap.terms.direction.Incoming? && locked == 0)
            && (swap.terms.direction.Incoming? && locked > 0 ==>
                  res == if estimate < 0 then Err(Underflow)
                         else if !enough then Ok(AskUser)
                         else if quote < fees then Err(Underflow) else Ok(AutoAccept(quote - fees)))
  {
  }

  /** When the user is shown a proposal, and which. */
  lemma ProposedIff(swap: ChainSwap, quote: nat)
    ensures var res, fees := Propose(swap, quote), swap.terms.claimFees;
            && (res == Err(NotWaiting) <==> !swap.state.WaitingFeeAcceptance?)
            && (res == Err(NoPayerAmount) <==> swap.state.WaitingFeeAcceptance? && swap.actualPayer.None?)
            && (swap.state.WaitingFeeAcceptance? && swap.actualPayer.Some? ==>
                  var payer := swap.actualPayer.value;
                  res == if fees <= quote <= payer then Ok(Proposal(payer - (quote - fees), payer, quote - fees))
                         else Err(Underflow))
  {
  }

  /** Which proposals sent back are accepted, whatever they were made from. */
  lemma UserAcceptsIff(swap: ChainSwap, p: Proposal, quote: nat, accepted: nat)
    ensures UserAccepts(swap, p, quote) == Ok(accepted) <==>
            && swap.state.WaitingFeeAcceptance? && quote <= p.payer
            && accepted + swap.terms.claimFees == quote && accepted + p.fees == p.payer
    ensures UserAccepts(swap, p, quote) == Err(InvalidOrExpiredFees) <==>
            && swap.state.WaitingFeeAcceptance? && quote <= p.payer
            && p.fees + quote != p.payer + swap.terms.claimFees
  {
  }

  /**
  A proposal is accepted exactly while the swap still waits and the quote is the one it was made for; what
  is stored is the receiver amount shown, which leaves the quote, and the payer pays it and the fees.
  */
  lemma ProposedFeesAreAccepted(swap: ChainSwap, later: ChainSwap, quote: nat, other: nat)
    requires Propose(swap, quote).Ok? && later.terms == swap.terms
    ensures var p := Propose(swap, quote).value;
            && (UserAccepts(later, p, other).Ok? <==> later.state.WaitingFeeAcceptance? && other == quote)
            && (UserAccepts(later, p, other).Ok? ==> UserAccepts(later, p, other).value == p.receiver)
            && p.receiver + swap.terms.claimFees == quote && p.receiver + p.fees == p.payer
            && swap.actualPayer == Some(p.payer)
  {
  }

  /** However a quote is accepted, it is the stored amount and the claim fees. */
  lemma AcceptedLeavesQuote(swap: ChainSwap, ground: Ground, quote: nat)
    ensures var amount := Accepted(swap, ground, quote);
            amount.Some? ==> amount.value + swap.terms.claimFees == quote
  {
  }

  /** The incoming lockup has to pay at least the accepted quote to be verified. */
  lemma AcceptedQuoteIsTheThreshold(swap: ChainSwap, ground: Ground, quote: nat, row: ChainSwap, agreed: nat,
                                    tx: H.LockupTx, confirmation: bool)
    requires Accepted(swap, ground, quote).Some? && swap.terms.direction.Incoming?
    requires row.terms == swap.terms && row.acceptedReceiver == Accepted(swap, ground, quote)
    ensures H.Threshold(row, agreed) == quote
    ensures H.Verifies(row, agreed, tx, confirmation) ==> tx.value.value >= quote
  {
    AcceptedLeavesQuote(swap, ground, quote);
  }

  // ----- Storing the acceptance before the swapper answers -----

  type TaskId = nat

  /** handle_amountless_update, or accept_payment_proposed_fees with what the user agreed to. */
  datatype Who = Handler | User(proposal: Proposal)

  datatype Pc =
    | Starting
    | Quoting
    | Storing(quote: nat, amount: nat)
    | Waiting(quote: nat, amount: nat)
    | Erasing(quote: nat, amount: nat)
    | Done

  datatype Task = Task(read: ChainSwap, who: Who, pc: Pc)

  /** `accepted` holds the quotes the swapper accepted. */
  datatype State = State(row: ChainSwap, tasks: map<TaskId, Task>, accepted: set<nat>)

  /** The pair and the locked balance of a Decide matter to the handler alone. */
  datatype Event =
    | Begin(task: TaskId, who: Who)
    | Start(task: TaskId, sqlOk: bool)
    | Decide(task: TaskId, pair: Pair, locked: nat, quote: nat)
    | Store(task: TaskId, sqlOk: bool)
    | Answer(task: TaskId, accepts: bool)
    | Erase(task: TaskId)
    | Other(stmt: Statement)
    | Overwrite(row: ChainSwap)

  predicate Enabled(s: State, e: Event) {
    match e
    case Begin(t, _) => t !in s.tasks
    case Start(t, _) => t in s.tasks && s.tasks[t].pc.Starting?
    case Decide(t, _, _, _) => t in s.tasks && s.tasks[t].pc.Quoting?
    case Store(t, _) => t in s.tasks && s.tasks[t].pc.Storing?
    case Answer(t, _) => t in s.tasks && s.tasks[t].pc.Waiting?
    case Erase(t) => t in s.tasks && s.tasks[t].pc.Erasing?
    case Other(stmt) => !stmt.AcceptedReceiverAmount?
    case Overwrite(row) => row.terms == s.row.terms
  }

  function Jump(s: State, t: TaskId, pc: Pc): State
    requires t in s.tasks
  {
    s.(tasks := s.tasks[t := s.tasks[t].(pc := pc)])
  }

  function Write(s: State, amount: Option<nat>): State {
    s.(row := Assign(AcceptedReceiverAmount(amount), s.row))
  }

  function GroundOf(who: Who, pair: Pair, locked: nat): Ground {
    if who.Handler? then Found(pair, locked) else Agreed(who.proposal)
  }

  /**
  The handler first erases an amount it finds in the row it read; the user's call first checks that the
  swap waits for it. Erasing after a refusal is the one write whose failure is not modelled.
  */
  function Do(s: State, e: Event): State {
    if !Enabled(s, e) then s else
    match e
    case Begin(t, who) =>
      s.(tasks := s.tasks[t := Task(s.row, who, if who.Handler? then Starting
                                    else if s.row.state.WaitingFeeAcceptance? then Quoting else Done)])
    case Start(t, sqlOk) =>
      if s.tasks[t].read.acceptedReceiver.None? then Jump(s, t, Quoting)
      else if sqlOk then Write(Jump(s, t, Quoting), None)
      else Jump(s, t, Done)
    case Decide(t, pair, locked, quote) =>
      var amount := Accepted(s.tasks[t].read, GroundOf(s.tasks[t].who, pair, locked), quote);
      Jump(s, t, if amount.Some? then Storing(quote, amount.value) else Done)
    case Store(t, sqlOk) =>
      var Storing(quote, amount) := s.tasks[t].pc;
      if sqlOk then Write(Jump(s, t, Waiting(quote, amount)), Some(amount)) else Jump(s, t, Done)
    case Answer(t, accepts) =>
      var Waiting(quote, amount) := s.tasks[t].pc;
      if accepts then Jump(s, t, Done).(accepted := s.accepted + {quote}) else Jump(s, t, Erasing(quote, amount))
    case Erase(t) => Write(Jump(s, t, Done), None)
    case Other(stmt) => s.(row := Assign(stmt, s.row))
    case Overwrite(row) => s.(row := row)
  }

  function Run(s: State, events: seq<Event>): State
    decreases |events|
  {
    if events == [] then s else Run(Do(s, events[0]), events[1..])
  }

  predicate Initial(s: State) {
    s.row.terms.direction.Incoming? && s.row.acceptedReceiver.None? && s.tasks == map[] && s.accepted == {}
  }

  /** Some task has stored this amount and has not finished with it. */
  predicate InFlight(s: State, amount: nat) {
    exists t <- s.tasks :: StoredBy(s.tasks[t], amount)
  }

  predicate StoredBy(task: Task, amount: nat) {
    (task.pc.Waiting? || task.pc.Erasing?) && task.pc.amount == amount
  }

  predicate TaskInv(terms: ChainTerms, task: Task) {
    && task.read.terms == terms
    && match task.pc
       case Starting => task.who.Handler?
       case Quoting => task.who.User? ==> task.read.state.WaitingFeeAcceptance?
       case Storing(quote, amount) => amount + terms.claimFees == quote
       case Waiting(quote, amount) => amount + terms.claimFees == quote
       case Erasing(quote, amount) => amount + terms.claimFees == quote
       case Done => true
  }

  /** The amount was accepted, or its acceptance is in flight. */
  predicate Backed(s: State, amount: Option<nat>) {
    amount.Some? ==> amount.value + s.row.terms.claimFees in s.accepted || InFlight(s, amount.value)
  }

  predicate StoredInv(s: State) {
    Backed(s, s.row.acceptedReceiver)
  }

  /** A full-row write stores no amount that is not backed. */
  predicate Keeps(s: State, e: Event) {
    e.Overwrite? ==> Backed(s, e.row.acceptedReceiver)
  }

  predicate AllKeep(s: State, events: seq<Event>)
    decreases |events|
  {
    events == [] || (Keeps(s, events[0]) && AllKeep(Do(s, events[0]), events[1..]))
  }

  predicate Inv(s: State) {
    s.row.terms.direction.Incoming? && (forall t <- s.tasks :: TaskInv(s.row.terms, s.tasks[t])) && StoredInv(s)
  }

  lemma TasksPreserved(s: State, e: Event)
    requires Inv(s)
    ensures Do(s, e).row.terms == s.row.terms
    ensures forall t <- Do(s, e).tasks :: TaskInv(s.row.terms, Do(s, e).tasks[t])
  {
    if Enabled(s, e) && e.Decide? {
      AcceptedLeavesQuote(s.tasks[e.task].read, GroundOf(s.tasks[e.task].who, e.pair, e.locked), e.quote);
    }
  }

  lemma StoredPreserved(s: State, e: Event)
    requires Inv(s) && Keeps(s, e)
    ensures StoredInv(Do(s, e))
  {
    var s' := Do(s, e);
    var stored := s'.row.acceptedReceiver;
    if Enabled(s, e) && stored.Some? {
      if e.Store? && e.sqlOk {
        assert StoredBy(s'.tasks[e.task], stored.value);
      } else if InFlight(s, stored.value) {
        var t :| t in s.tasks && StoredBy(s.tasks[t], stored.value);
        assert TaskInv(s.row.terms, s.tasks[t]);
        assert StoredBy(s'.tasks[t], stored.value) || stored.value + s.row.terms.claimFees in s'.accepted;
      }
    }
  }

  lemma StepPreservesInv(s: State, e: Event)
    requires Inv(s) && Keeps(s, e)
    ensures Inv(Do(s, e))
  {
    TasksPreserved(s, e);
    StoredPreserved(s, e);
  }

  lemma {:induction false} RunPreservesInv(s: State, events: seq<Event>)
    requires Inv(s) && AllKeep(s, events)
    ensures Inv(Run(s, events)) && Run(s, events).row.terms == s.row.terms
    decreases |events|
  {
    if events != [] {
      TasksPreserved(s, events[0]);
      StepPreservesInv(s, events[0]);
      RunPreservesInv(Do(s, events[0]), events[1..]);
    }
  }

  /**
  In every run of automatic and user acceptances, however they overlap, with keeping full-row writes, a stored
  amount with no acceptance of it in flight means that the swapper accepted the quote of exactly that amount
  and the claim fees.
  */
  lemma StoredMeansAccepted(s: State, events: seq<Event>)
    requires Initial(s) && AllKeep(s, events)
    ensures var s' := Run(s, events);
            var stored := s'.row.acceptedReceiver;
            stored.Some? ==>
              || stored.value + s.row.terms.claimFees in s'.accepted
              || exists t <- s'.tasks :: (s'.tasks[t].pc.Waiting? || s'.tasks[t].pc.Erasing?)
                                         && s'.tasks[t].pc.amount == stored.value
  {
    RunPreservesInv(s, events);
    var s' := Run(s, events);
    var stored := s'.row.acceptedReceiver;
    if stored.Some? && InFlight(s', stored.value) {
      var t :| t in s'.tasks && StoredBy(s'.tasks[t], stored.value);
      assert s'.tasks[t].pc.amount == stored.value;
    }
  }

  /** Recovery always keeps; sync keeps exactly if the amount of the remote record is backed here. */
  lemma SyncKeepsIff(s: State, remote: ChainSwap, data: R.ChainData, grace: bool, version: nat)
    requires Inv(s)
    ensures Keeps(s, Overwrite(R.RecoverChain(s.row, data, grace)))
    ensures var pulled := ChainStore.Overwrite(s.row, R.PullChain(remote, s.row.version, data), version);
            Keeps(s, Overwrite(pulled)) <==> Backed(s, remote.acceptedReceiver)
  {
  }

  /** Other statements and full-row writes take effect; a full-row write never changes the terms. */
  lemma OtherWritesApply(s: State, stmt: Statement, row: ChainSwap)
    ensures Do(s, Other(stmt)) == if stmt.AcceptedReceiverAmount? then s else s.(row := Assign(stmt, s.row))
    ensures Do(s, Overwrite(row)) == if row.terms == s.row.terms then s.(row := row) else s
  {
  }

  // ----- Whether an accepted amount stays stored -----

  /** The step replaces the stored amount a, or erases it. */
  predicate Replaces(s: State, e: Event, a: nat) {
    Enabled(s, e) &&
    match e
    case Start(t, sqlOk) => sqlOk && s.tasks[t].read.acceptedReceiver.Some?
    case Store(t, sqlOk) => sqlOk && s.tasks[t].pc.amount != a
    case Erase(_) => true
    case Overwrite(row) => row.acceptedReceiver != Some(a)
    case _ => false
  }

  lemma StepKeepsAmountIff(s: State, e: Event, a: nat)
    requires s.row.acceptedReceiver == Some(a)
    ensures Do(s, e).row.acceptedReceiver == Some(a) <==> !Replaces(s, e, a)
  {
  }

  /** The task will not write any more: it is done, or no quote meets what its user agreed to. */
  predicate Harmless(task: Task) {
    || task.pc.Done?
    || (task.pc.Quoting? && task.who.User?
        && !(task.read.terms.claimFees <= task.who.proposal.fees <= task.who.proposal.payer))
  }

  predicate AllHarmless(s: State) {
    forall t <- s.tasks :: Harmless(s.tasks[t])
  }

  /** No further acceptance begins, and full-row writes bring the stored amount along. */
  predicate NoneBegins(events: seq<Event>, stored: Option<nat>) {
    forall e <- events :: !e.Begin? && (e.Overwrite? ==> e.row.acceptedReceiver == stored)
  }

  lemma HarmlessStep(s: State, e: Event)
    requires AllHarmless(s) && !e.Begin? && (e.Overwrite? ==> e.row.acceptedReceiver == s.row.acceptedReceiver)
    ensures AllHarmless(Do(s, e)) && Do(s, e).row.acceptedReceiver == s.row.acceptedReceiver
  {
  }

  lemma {:induction false} HarmlessRun(s: State, events: seq<Event>)
    requires AllHarmless(s) && NoneBegins(events, s.row.acceptedReceiver)
    ensures Run(s, events).row.acceptedReceiver == s.row.acceptedReceiver
    decreases |events|
  {
    if events != [] {
      assert events[0] in events;
      HarmlessStep(s, events[0]);
      HarmlessRun(Do(s, events[0]), events[1..]);
    }
  }

  lemma RunCons(s: State, e: Event, rest: seq<Event>)
    ensures Run(s, [e] + rest) == Run(Do(s, e), rest)
  {
    assert ([e] + rest)[1..] == rest;
  }

  /** A quote the task would accept: at no fees, or the one its user agreed to. */
  function SomeQuote(task: Task): int {
    if task.who.Handler? then task.read.terms.claimFees
    else task.who.proposal.payer - task.who.proposal.fees + task.read.terms.claimFees
  }

  lemma FreePair() returns (pair: Pair)
    ensures 0 <= Estimate(pair, 1) <= Leeway(pair)
  {
    pair := Pair(RateValue(0, 1), 0, None);
    CeilDivLeast(0, 1, 0);
  }

  lemma QuoteWithinLeeway(pair: Pair, swap: ChainSwap, locked: nat, quote: nat)
    requires swap.terms.direction.Incoming? && locked > 0 && quote >= swap.terms.claimFees
    requires 0 <= Estimate(pair, locked) <= quote + Leeway(pair)
    ensures Accepted(swap, Found(pair, locked), quote) == Some(quote - swap.terms.claimFees)
  {
  }

  lemma SomeQuoteAccepted(task: Task, pair: Pair)
    requires task.read.terms.direction.Incoming? && (task.who.User? ==> task.read.state.WaitingFeeAcceptance?)
    requires task.pc.Quoting? && !Harmless(task) && 0 <= Estimate(pair, 1) <= Leeway(pair)
    ensures SomeQuote(task) >= 0 && Accepted(task.read, GroundOf(task.who, pair, 1), SomeQuote(task)).Some?
  {
    if task.who.Handler? {
      QuoteWithinLeeway(pair, task.read, 1, SomeQuote(task));
    }
  }

  function StepsToErase(pc: Pc): nat {
    match pc
    case Starting => 4
    case Quoting => 3
    case Storing(_, _) => 2
    case Waiting(_, _) => 1
    case _ => 0
  }

  /** How a task that is not harmless gets to erase the stored amount. */
  lemma ErasingRun(s: State, t: TaskId) returns (events: seq<Event>)
    requires Inv(s) && t in s.tasks && !Harmless(s.tasks[t])
    ensures (forall e <- events :: !e.Begin? && !e.Overwrite?) && Run(s, events).row.acceptedReceiver.None?
    decreases StepsToErase(s.tasks[t].pc)
  {
    assert TaskInv(s.row.terms, s.tasks[t]);
    var e: Event;
    match s.tasks[t].pc {
      case Starting => e := Start(t, true);
      case Quoting =>
        var pair := FreePair();
        SomeQuoteAccepted(s.tasks[t], pair);
        e := Decide(t, pair, 1, SomeQuote(s.tasks[t]));
      case Storing(_, _) => e := Store(t, true);
      case Waiting(_, _) => e := Answer(t, false);
      case Erasing(_, _) => e := Erase(t);
    }
    StepPreservesInv(s, e);
    var rest := [];
    if !e.Erase? {
      rest := ErasingRun(Do(s, e), t);
    }
    RunCons(s, e, rest);
    events := [e] + rest;
  }

  /**
  Once no further acceptance begins, a stored amount stays in every continuation exactly if every task has
  finished or can no longer accept a quote.
  */
  lemma StoredAmountStaysIff(s: State)
    requires Inv(s) && s.row.acceptedReceiver.Some?
    ensures (forall events | NoneBegins(events, s.row.acceptedReceiver) ::
               Run(s, events).row.acceptedReceiver == s.row.acceptedReceiver)
            <==> AllHarmless(s)
  {
    if AllHarmless(s) {
      forall events | NoneBegins(events, s.row.acceptedReceiver)
        ensures Run(s, events).row.acceptedReceiver == s.row.acceptedReceiver
      {
        HarmlessRun(s, events);
      }
    } else {
      var t :| t in s.tasks && !Harmless(s.tasks[t]);
      var events := ErasingRun(s, t);
      assert NoneBegins(events, s.row.acceptedReceiver);
    }
  }

  /** A further update of the handler always erases it, also when no other task is left. */
  lemma FurtherUpdateErases(s: State, t: TaskId)
    requires s.row.acceptedReceiver.Some? && t !in s.tasks
    ensures Run(s, [Begin(t, Handler), Start(t, true)]).row.acceptedReceiver.None?
  {
    RunCons(s, Begin(t, Handler), [Start(t, true)]);
    RunCons(Do(s, Begin(t, Handler)), Start(t, true), []);
    assert [Start(t, true)] == [Start(t, true)] + [];
  }

  /** One acceptance from the quote to the answer. */
  function Accepting(t: TaskId, pair: Pair, locked: nat, quote: nat, answer: bool): seq<Event> {
    [Decide(t, pair, locked, quote)] + ([Store(t, true)] + ([Answer(t, answer)] + []))
  }

  lemma AcceptingRun(s: State, t: TaskId, pair: Pair, locked: nat, quote: nat, answer: bool)
    requires t in s.tasks && s.tasks[t].pc.Quoting?
    requires Accepted(s.tasks[t].read, GroundOf(s.tasks[t].who, pair, locked), quote).Some?
    ensures var amount := Accepted(s.tasks[t].read, GroundOf(s.tasks[t].who, pair, locked), quote).value;
            Run(s, Accepting(t, pair, locked, quote, answer)) ==
            State(s.row.(acceptedReceiver := Some(amount)),
                  s.tasks[t := s.tasks[t].(pc := if answer then Done else Erasing(quote, amount))],
                  if answer then s.accepted + {quote} else s.accepted)
  {
    var s1 := Do(s, Decide(t, pair, locked, quote));
    var s2 := Do(s1, Store(t, true));
    RunCons(s, Decide(t, pair, locked, quote), [Store(t, true)] + ([Answer(t, answer)] + []));
    RunCons(s1, Store(t, true), [Answer(t, answer)] + []);
    RunCons(s2, Answer(t, answer), []);
  }

  /** A call or update that has read the row and, in the case of the handler, erased what it found. */
  function Begun(s: State, t: TaskId, who: Who): State {
    Do(Do(s, Begin(t, who)), Start(t, true))
  }

  lemma BothBegun(s: State, first: Who, second: Who)
    requires s.row.acceptedReceiver.None? && s.tasks == map[]
    requires (first.User? || second.User?) ==> s.row.state.WaitingFeeAcceptance?
    ensures Begun(Begun(s, 0, first), 1, second) ==
            s.(tasks := map[0 := Task(s.row, first, Quoting), 1 := Task(s.row, second, Quoting)])
  {
    assert Begun(s, 0, first).tasks == map[0 := Task(s.row, first, Quoting)];
    assert Begun(Begun(s, 0, first), 1, second).tasks == Begun(s, 0, first).tasks[1 := Task(s.row, second, Quoting)];
  }

  lemma OverlapRun(s: State, pair: Pair, locked: nat, q: nat, r: nat)
    requires s.tasks.Keys == {0, 1} && s.tasks[0].pc.Quoting? && s.tasks[1].pc.Quoting?
    requires Accepted(s.tasks[0].read, GroundOf(s.tasks[0].who, pair, locked), q).Some?
    requires Accepted(s.tasks[1].read, GroundOf(s.tasks[1].who, pair, locked), r).Some?
    ensures var asked := Run(Run(s, Accepting(0, pair, locked, q, true)), Accepting(1, pair, locked, r, false));
            var end := Do(asked, Erase(1));
            && end.accepted == s.accepted + {q} && end.row.acceptedReceiver.None?
            && forall t <- end.tasks :: end.tasks[t].pc.Done?
  {
    AcceptingRun(s, 0, pair, locked, q, true);
    AcceptingRun(Run(s, Accepting(0, pair, locked, q, true)), 1, pair, locked, r, false);
  }

  /**
  Two acceptances that overlap, two calls of the user for one: the refused one erases the amount of the
  accepted one. The overlap of two updates of the handler takes two processes, as one handles them in turn.
  */
  lemma OverlapErasesAccepted(s: State, first: Who, second: Who, pair: Pair, locked: nat, q: nat, r: nat)
    requires s.row.acceptedReceiver.None? && s.tasks == map[]
    requires Accepted(s.row, GroundOf(first, pair, locked), q).Some?
    requires Accepted(s.row, GroundOf(second, pair, locked), r).Some?
    ensures var begun := Begun(Begun(s, 0, first), 1, second);
            var asked := Run(Run(begun, Accepting(0, pair, locked, q, true)), Accepting(1, pair, locked, r, false));
            var end := Do(asked, Erase(1));
            && end.accepted == s.accepted + {q} && end.row.acceptedReceiver.None?
            && forall t <- end.tasks :: end.tasks[t].pc.Done?
  {
    BothBegun(s, first, second);
    OverlapRun(Begun(Begun(s, 0, first), 1, second), pair, locked, q, r);
  }

  /** Two updates one after the other: the second erases the accepted amount and may then find no balance. */
  lemma RepeatedUpdateErasesAccepted(s: State, pair: Pair, locked: nat, q: nat, r: nat)
    requires Initial(s) && Accepted(s.row, Found(pair, locked), q).Some?
    ensures var s1 := Run(Begun(s, 0, Handler), Accepting(0, pair, locked, q, true));
            var end := Do(Begun(s1, 1, Handler), Decide(1, pair, 0, r));
            && end.accepted == {q} && end.row.acceptedReceiver.None?
            && forall t <- end.tasks :: end.tasks[t].pc.Done?
  {
    AcceptingRun(Begun(s, 0, Handler), 0, pair, locked, q, true);
  }
}
