/** Picking the concrete UTXOs of a payjoin by asset and value, taking each out of the available ones. */
module UtxoSelection {
  import opened Wrappers
  import opened Sums

  datatype InOut = InOut(asset: string, value: nat)

  /** A UTXO; its outpoint and secrets are what tells apart UTXOs of the same asset and value. */
  datatype Utxo = Utxo(txid: string, vout: nat, inOut: InOut)

  datatype SelectError = UtxoNotFound

  function InOuts(utxos: seq<Utxo>): seq<InOut> {
    seq(|utxos|, i requires 0 <= i < |utxos| => utxos[i].inOut)
  }

  /** The first UTXO of the requested asset and value, or the number of UTXOs. */
  method Position(utxos: seq<Utxo>, wanted: InOut) returns (index: nat)
    ensures index <= |utxos|
    ensures index < |utxos| ==> utxos[index].inOut == wanted
    ensures forall i | 0 <= i < index :: utxos[i].inOut != wanted
  {
    index := 0;
    while index < |utxos| && utxos[index].inOut != wanted
      invariant index <= |utxos|
      invariant forall i | 0 <= i < index :: utxos[i].inOut != wanted
    {
      index := index + 1;
    }
  }

  lemma WithoutOne(utxos: seq<Utxo>, i: nat)
    requires i < |utxos|
    ensures var rest := utxos[..i] + utxos[i + 1..];
            && multiset(utxos) == multiset(rest) + multiset{utxos[i]}
            && multiset(InOuts(utxos)) == multiset(InOuts(rest)) + multiset{utxos[i].inOut}
  {
    var rest := utxos[..i] + utxos[i + 1..];
    assert utxos == utxos[..i] + [utxos[i]] + utxos[i + 1..];
    assert InOuts(utxos) == InOuts(utxos[..i]) + [utxos[i].inOut] + InOuts(utxos[i + 1..]);
    assert InOuts(rest) == InOuts(utxos[..i]) + InOuts(utxos[i + 1..]);
  }

  lemma AbsentIfNowhere(utxos: seq<Utxo>, wanted: InOut)
    requires forall i | 0 <= i < |utxos| :: utxos[i].inOut != wanted
    ensures wanted !in multiset(InOuts(utxos))
  {
    assert wanted !in InOuts(utxos);
  }

  /** The first requests were matched, and matched and available UTXOs make up the original ones. */
  ghost predicate Taken(utxos: seq<Utxo>, served: seq<InOut>, selected: seq<Utxo>, available: seq<Utxo>) {
    && InOuts(selected) == served
    && multiset(selected) + multiset(available) == multiset(utxos)
    && multiset(served) + multiset(InOuts(available)) == multiset(InOuts(utxos))
  }

  lemma TakeNext(utxos: seq<Utxo>, requests: seq<InOut>, i: nat, selected: seq<Utxo>, available: seq<Utxo>, index: nat)
    requires i < |requests| && Taken(utxos, requests[..i], selected, available)
    requires index < |available| && available[index].inOut == requests[i]
    ensures Taken(utxos, requests[..i + 1], selected + [available[index]], available[..index] + available[index + 1..])
  {
    WithoutOne(available, index);
    assert requests[..i + 1] == requests[..i] + [requests[i]];
    assert InOuts(selected + [available[index]]) == InOuts(selected) + [requests[i]];
  }

  /** If a request is not available after the ones before it were taken out, the requests exceed the UTXOs. */
  lemma TooFew(utxos: seq<Utxo>, requests: seq<InOut>, i: nat, selected: seq<Utxo>, available: seq<Utxo>)
    requires i < |requests| && Taken(utxos, requests[..i], selected, available)
    requires forall k | 0 <= k < |available| :: available[k].inOut != requests[i]
    ensures !(multiset(requests) <= multiset(InOuts(utxos)))
  {
    var wanted := requests[i];
    AbsentIfNowhere(available, wanted);
    assert requests == requests[..i] + ([wanted] + requests[i + 1..]);
    assert multiset(requests)[wanted] > multiset(requests[..i])[wanted];
  }

  /**
  select_utxos: succeeds exactly if the requests, counted with multiplicity, are available; each result
  matches its request, and results and remaining UTXOs together are the original ones.
  */
  method SelectUtxos(utxos: seq<Utxo>, requests: seq<InOut>)
    returns (res: Result<seq<Utxo>, SelectError>, ghost remaining: seq<Utxo>)
    ensures res.Ok? <==> multiset(requests) <= multiset(InOuts(utxos))
    ensures res.Ok? ==> InOuts(res.value) == requests
    ensures res.Ok? ==> multiset(res.value) + multiset(remaining) == multiset(utxos)
  {
    var available := utxos;
    var selected: seq<Utxo> := [];
    for i := 0 to |requests|
      invariant Taken(utxos, requests[..i], selected, available)
    {
      var index := Position(available, requests[i]);
      if index == |available| {
        TooFew(utxos, requests, i, selected, available);
        return Err(UtxoNotFound), available;
      }
      TakeNext(utxos, requests, i, selected, available, index);
      selected := selected + [available[index]];
      available := available[..index] + available[index + 1..];
    }
    assert requests[..|requests|] == requests;
    return Ok(selected), available;
  }

  function ValueOf(asset: string): Utxo -> int {
    (u: Utxo) => if u.inOut.asset == asset then u.inOut.value else 0
  }

  function Requested(asset: string): InOut -> int {
    (r: InOut) => if r.asset == asset then r.value else 0
  }

  /** Per asset, the selected value is the requested one, and selected and remaining make up what was available. */
  lemma ValueIsConserved(utxos: seq<Utxo>, requests: seq<InOut>, selected: seq<Utxo>, remaining: seq<Utxo>,
                         asset: string)
    requires InOuts(selected) == requests && multiset(selected) + multiset(remaining) == multiset(utxos)
    ensures Sum(selected, ValueOf(asset)) == Sum(requests, Requested(asset))
    ensures Sum(selected, ValueOf(asset)) + Sum(remaining, ValueOf(asset)) == Sum(utxos, ValueOf(asset))
  {
    assert multiset(selected + remaining) == multiset(utxos);
    SumAppend(selected, remaining, ValueOf(asset));
    SumPermutation(selected + remaining, utxos, ValueOf(asset));
    SumOfInOuts(selected, asset);
  }

  lemma {:induction false} SumOfInOuts(utxos: seq<Utxo>, asset: string)
    ensures Sum(utxos, ValueOf(asset)) == Sum(InOuts(utxos), Requested(asset))
    decreases |utxos|
  {
    if utxos != [] {
      var rest := utxos[..|utxos| - 1];
      assert InOuts(utxos)[..|utxos| - 1] == InOuts(rest);
      SumOfInOuts(rest, asset);
    }
  }

  predicate Distinct(utxos: seq<Utxo>) {
    forall a, b | 0 <= a < b < |utxos| :: (utxos[a].txid, utxos[a].vout) != (utxos[b].txid, utxos[b].vout)
  }

  lemma TwoPlaces(utxos: seq<Utxo>, x: Utxo, y: Utxo)
    requires multiset{x, y} <= multiset(utxos)
    ensures exists a, b :: 0 <= a < |utxos| && 0 <= b < |utxos| && a != b && utxos[a] == x && utxos[b] == y
  {
    assert x in multiset(utxos);
    var a :| 0 <= a < |utxos| && utxos[a] == x;
    WithoutOne(utxos, a);
    var rest := utxos[..a] + utxos[a + 1..];
    assert y in multiset(rest);
    var k :| 0 <= k < |rest| && rest[k] == y;
    var b := if k < a then k else k + 1;
    assert utxos[b] == y;
  }

  lemma PairIncluded(utxos: seq<Utxo>, i: nat, j: nat)
    requires i < j < |utxos|
    ensures multiset{utxos[i], utxos[j]} <= multiset(utxos)
  {
    WithoutOne(utxos, i);
    var rest := utxos[..i] + utxos[i + 1..];
    assert rest[j - 1] == utxos[j];
    assert utxos[j] in multiset(rest);
  }

  /** If no outpoint is available twice, none is selected twice. */
  lemma NoUtxoUsedTwice(utxos: seq<Utxo>, selected: seq<Utxo>, remaining: seq<Utxo>)
    requires multiset(selected) + multiset(remaining) == multiset(utxos) && Distinct(utxos)
    ensures Distinct(selected)
  {
    forall i, j | 0 <= i < j < |selected|
      ensures (selected[i].txid, selected[i].vout) != (selected[j].txid, selected[j].vout)
    {
      PairIncluded(selected, i, j);
      assert multiset(selected) <= multiset(utxos);
      TwoPlaces(utxos, selected[i], selected[j]);
      var a, b :| 0 <= a < |utxos| && 0 <= b < |utxos| && a != b && utxos[a] == selected[i] && utxos[b] == selected[j];
      assert a < b || b < a;
    }
  }
}
