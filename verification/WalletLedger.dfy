/** The balances persisted for a wallet transaction: what it moves of each asset. */
module WalletLedger {
  import opened Wrappers
  import opened Sums

  type Asset = string

  /** An input or output; one that is not the wallet's is absent. */
  datatype Coin = Coin(asset: Asset, value: nat)

  datatype PaymentType = Receive | Send

  datatype Entry = Entry(kind: PaymentType, amount: nat)

  function ValueOf(asset: Asset): Option<Coin> -> int {
    (c: Option<Coin>) => if c.Some? && c.value.asset == asset then c.value.value else 0
  }

  function Assets(coins: seq<Option<Coin>>): set<Asset> {
    set i | 0 <= i < |coins| && coins[i].Some? :: coins[i].value.asset
  }

  /** What the transaction adds to the wallet's holding of the asset. */
  function NetFlow(inputs: seq<Option<Coin>>, outputs: seq<Option<Coin>>, asset: Asset): int {
    Sum(outputs, ValueOf(asset)) - Sum(inputs, ValueOf(asset))
  }

  lemma SumNext(coins: seq<Option<Coin>>, i: nat, asset: Asset)
    requires i < |coins|
    ensures Sum(coins[..i + 1], ValueOf(asset)) == Sum(coins[..i], ValueOf(asset)) + ValueOf(asset)(coins[i])
  {
    assert coins[..i + 1][..i] == coins[..i];
  }

  function AssetOf(coin: Option<Coin>): set<Asset> {
    if coin.Some? then {coin.value.asset} else {}
  }

  lemma AssetsNext(coins: seq<Option<Coin>>, i: nat)
    requires i < |coins|
    ensures Assets(coins[..i + 1]) == Assets(coins[..i]) + AssetOf(coins[i])
  {
    var shorter, longer := coins[..i], coins[..i + 1];
    assert forall k | 0 <= k < i :: longer[k] == shorter[k];
    assert longer[i] == coins[i];
    assert Assets(longer) <= Assets(shorter) + AssetOf(coins[i]);
    assert Assets(shorter) <= Assets(longer);
  }

  function At(balances: map<Asset, int>, asset: Asset): int {
    if asset in balances then balances[asset] else 0
  }

  /** The map is `start` with the coins added or subtracted. */
  ghost predicate Accumulated(balances: map<Asset, int>, start: map<Asset, int>, coins: seq<Option<Coin>>, add: bool) {
    && balances.Keys == start.Keys + Assets(coins)
    && forall a :: At(balances, a) == At(start, a) + if add then Sum(coins, ValueOf(a)) else -Sum(coins, ValueOf(a))
  }

  lemma AccumulateNext(balances: map<Asset, int>, balances': map<Asset, int>, start: map<Asset, int>,
                       coins: seq<Option<Coin>>, i: nat, add: bool)
    requires i < |coins| && Accumulated(balances, start, coins[..i], add)
    requires balances'.Keys == balances.Keys + AssetOf(coins[i])
    requires forall a ::
               At(balances', a) == At(balances, a) + if add then ValueOf(a)(coins[i]) else -ValueOf(a)(coins[i])
    ensures Accumulated(balances', start, coins[..i + 1], add)
  {
    AssetsNext(coins, i);
    forall a
      ensures At(balances', a) ==
              At(start, a) + if add then Sum(coins[..i + 1], ValueOf(a)) else -Sum(coins[..i + 1], ValueOf(a))
    {
      SumNext(coins, i, a);
    }
  }

  /** The per-asset totals: every asset that appears, with its net flow. */
  method Balances(inputs: seq<Option<Coin>>, outputs: seq<Option<Coin>>) returns (balances: map<Asset, int>)
    ensures balances.Keys == Assets(inputs) + Assets(outputs)
    ensures forall a <- balances :: balances[a] == NetFlow(inputs, outputs, a)
  {
    balances := map[];
    for i := 0 to |inputs|
      invariant Accumulated(balances, map[], inputs[..i], false)
    {
      ghost var before := balances;
      if inputs[i].Some? {
        var Coin(asset, value) := inputs[i].value;
        balances := balances[asset := if asset in balances then balances[asset] - value else 0 - value];
      }
      AccumulateNext(before, balances, map[], inputs, i, false);
    }
    assert inputs[..|inputs|] == inputs;
    ghost var spent := balances;
    for i := 0 to |outputs|
      invariant Accumulated(balances, spent, outputs[..i], true)
    {
      ghost var before := balances;
      if outputs[i].Some? {
        var Coin(asset, value) := outputs[i].value;
        balances := balances[asset := if asset in balances then balances[asset] + value else value];
      }
      AccumulateNext(before, balances, spent, outputs, i, true);
    }
    assert outputs[..|outputs|] == outputs;
    assert forall a <- balances :: balances[a] == At(balances, a);
  }

  /** How a balance is persisted; the fee of an L-BTC send is kept apart. */
  function Persisted(asset: Asset, balance: int, lbtc: Asset, fee: nat): Entry {
    if balance >= 0 then Entry(Receive, balance)
    else Entry(Send, if asset != lbtc then -balance else if -balance < fee then 0 else -balance - fee)
  }

  /** insert_or_update_payment_with_wallet_tx: the balances it stores, none if the wallet is not involved. */
  method StoredBalances(inputs: seq<Option<Coin>>, outputs: seq<Option<Coin>>, lbtc: Asset, fee: nat)
    returns (stored: map<Asset, Entry>)
    ensures stored.Keys == Assets(inputs) + Assets(outputs)
    ensures forall a <- stored :: stored[a] == Persisted(a, NetFlow(inputs, outputs, a), lbtc, fee)
    ensures forall a <- stored :: stored[a].kind.Receive? <==> NetFlow(inputs, outputs, a) >= 0
    ensures forall a <- stored ::
              a != lbtc || stored[a].kind.Receive? ==> Signed(stored[a]) == NetFlow(inputs, outputs, a)
    ensures lbtc in stored && stored[lbtc].kind.Send? && fee <= -NetFlow(inputs, outputs, lbtc)
            ==> stored[lbtc].amount + fee == -NetFlow(inputs, outputs, lbtc)
  {
    var balances := Balances(inputs, outputs);
    stored := map a | a in balances :: Persisted(a, balances[a], lbtc, fee);
  }

  /** The flow an entry stands for. */
  function Signed(e: Entry): int {
    if e.kind.Receive? then e.amount else 0 - e.amount
  }

  lemma AssetsPermutation(a: seq<Option<Coin>>, b: seq<Option<Coin>>)
    requires multiset(a) == multiset(b)
    ensures Assets(a) <= Assets(b)
  {
    forall x | x in Assets(a) ensures x in Assets(b) {
      var i :| 0 <= i < |a| && a[i].Some? && a[i].value.asset == x;
      assert a[i] in multiset(b);
      var j :| 0 <= j < |b| && b[j] == a[i];
    }
  }

  /** The order of inputs and outputs does not matter, nor do coins that are not the wallet's. */
  lemma OrderDoesNotMatter(inputs: seq<Option<Coin>>, outputs: seq<Option<Coin>>,
                           inputs': seq<Option<Coin>>, outputs': seq<Option<Coin>>)
    requires multiset(inputs) == multiset(inputs') && multiset(outputs) == multiset(outputs')
    ensures forall a :: NetFlow(inputs, outputs, a) == NetFlow(inputs', outputs', a)
    ensures Assets(inputs) + Assets(outputs) == Assets(inputs') + Assets(outputs')
  {
    forall a ensures NetFlow(inputs, outputs, a) == NetFlow(inputs', outputs', a) {
      SumPermutation(inputs, inputs', ValueOf(a));
      SumPermutation(outputs, outputs', ValueOf(a));
    }
    AssetsPermutation(inputs, inputs');
    AssetsPermutation(inputs', inputs);
    AssetsPermutation(outputs, outputs');
    AssetsPermutation(outputs', outputs);
  }
}
