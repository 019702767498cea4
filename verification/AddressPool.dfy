/** The `reserved_addresses` table: each address with the block height its reservation expires at. */
module AddressPool {
  import opened Wrappers
  import opened SwapTypes

  type Pool = map<Address, nat>

  predicate Expired(pool: Pool, tip: nat, a: Address) {
    a in pool && pool[a] < tip
  }

  /** A row the query ordered by expiry may return first; ties are broken arbitrarily. */
  predicate IsNext(pool: Pool, tip: nat, a: Address) {
    Expired(pool, tip, a) && forall b <- pool :: Expired(pool, tip, b) ==> pool[a] <= pool[b]
  }

  function ExpiredSet(pool: Pool, tip: nat): set<Address> {
    set a | a in pool && pool[a] < tip
  }

  lemma {:induction false} EarliestExists(pool: Pool, addresses: set<Address>)
    requires addresses <= pool.Keys && addresses != {}
    ensures exists a :: a in addresses && forall b <- addresses :: pool[a] <= pool[b]
    decreases |addresses|
  {
    var x :| x in addresses;
    if addresses == {x} {
      assert forall b <- addresses :: pool[x] <= pool[b];
    } else {
      var rest := addresses - {x};
      assert rest != {};
      EarliestExists(pool, rest);
      var a :| a in rest && forall b <- rest :: pool[a] <= pool[b];
      var first := if pool[x] <= pool[a] then x else a;
      assert forall b <- addresses :: b == x || b in rest;
      assert first in addresses && forall b <- addresses :: pool[first] <= pool[b];
    }
  }

  // ----- Popping everything that has expired -----

  /** The pops that happen one after the other at the same tip. */
  predicate Pops(pool: Pool, tip: nat, popped: seq<Address>)
    decreases |popped|
  {
    popped == [] || (IsNext(pool, tip, popped[0]) && Pops(pool - {popped[0]}, tip, popped[1..]))
  }

  /** Successive pops give distinct expired addresses in ascending order of expiry. */
  lemma {:induction false} PopsAscend(pool: Pool, tip: nat, popped: seq<Address>)
    requires Pops(pool, tip, popped)
    ensures forall a <- popped :: Expired(pool, tip, a)
    ensures forall i, j | 0 <= i < j < |popped| :: popped[i] != popped[j]
    ensures forall i, j | 0 <= i < j < |popped| ::
              popped[i] in pool && popped[j] in pool && pool[popped[i]] <= pool[popped[j]]
    decreases |popped|
  {
    if popped != [] {
      var rest := popped[1..];
      PopsAscend(pool - {popped[0]}, tip, rest);
      assert forall j | 1 <= j < |popped| :: popped[j] == rest[j - 1] && popped[j] in rest;
    }
  }

  /** Pops go on exactly until every expired address has been given out, and none are given out besides. */
  lemma {:induction false} PopsExhaust(pool: Pool, tip: nat, popped: seq<Address>)
    requires Pops(pool, tip, popped)
    ensures (forall a :: !Pops(pool, tip, popped + [a])) <==> (set a | a in popped) == ExpiredSet(pool, tip)
    decreases |popped|
  {
    PopsAscend(pool, tip, popped);
    if popped == [] {
      if ExpiredSet(pool, tip) != {} {
        EarliestExists(pool, ExpiredSet(pool, tip));
        var a :| a in ExpiredSet(pool, tip) && forall b <- ExpiredSet(pool, tip) :: pool[a] <= pool[b];
        assert IsNext(pool, tip, a) && ([] + [a])[1..] == [];
        assert Pops(pool, tip, [] + [a]);
        assert (set b | b in popped) == {} != ExpiredSet(pool, tip);
      } else {
        forall a ensures !Pops(pool, tip, popped + [a]) {
          assert (popped + [a])[0] == a && a !in ExpiredSet(pool, tip);
        }
      }
    } else {
      var pool', rest := pool - {popped[0]}, popped[1..];
      PopsExhaust(pool', tip, rest);
      forall a ensures Pops(pool, tip, popped + [a]) == Pops(pool', tip, rest + [a]) {
        assert (popped + [a])[1..] == rest + [a];
      }
      assert ExpiredSet(pool, tip) == ExpiredSet(pool', tip) + {popped[0]};
      assert (set a | a in popped) == (set a | a in rest) + {popped[0]};
      assert popped[0] !in rest && popped[0] !in ExpiredSet(pool', tip);
      if (set a | a in popped) == ExpiredSet(pool, tip) {
        assert (set a | a in rest) == ExpiredSet(pool', tip);
      }
    }
  }

  // ----- Whole runs -----

  datatype Event =
    | Reserve(address: Address, expiry: nat)
    | Pop(tip: nat, chosen: Address)
    | Release(address: Address)

  predicate Allowed(pool: Pool, e: Event) {
    e.Pop? ==> IsNext(pool, e.tip, e.chosen)
  }

  function Do(pool: Pool, e: Event): Pool {
    match e
    case Reserve(a, expiry) => pool[a := expiry]
    case Pop(_, a) => pool - {a}
    case Release(a) => pool - {a}
  }

  /** A possible run of the pool; a pop that finds nothing leaves no event. */
  predicate Possible(pool: Pool, events: seq<Event>)
    decreases |events|
  {
    events == [] || (Allowed(pool, events[0]) && Possible(Do(pool, events[0]), events[1..]))
  }

  function After(pool: Pool, events: seq<Event>): Pool
    decreases |events|
  {
    if events == [] then pool else After(Do(pool, events[0]), events[1..])
  }

  function Count(events: seq<Event>, p: Event -> bool): nat
    decreases |events|
  {
    if events == [] then 0 else (if p(events[0]) then 1 else 0) + Count(events[1..], p)
  }

  /** Over any run an address is popped at most once per reservation. */
  lemma {:induction false} OnePopPerReservation(pool: Pool, events: seq<Event>, a: Address)
    requires Possible(pool, events)
    ensures Count(events, (e: Event) => e.Pop? && e.chosen == a) + (if a in After(pool, events) then 1 else 0)
            <= Count(events, (e: Event) => e.Reserve? && e.address == a) + (if a in pool then 1 else 0)
    decreases |events|
  {
    if events != [] {
      OnePopPerReservation(Do(pool, events[0]), events[1..], a);
    }
  }

  /** The expiry of the last reservation of `a` that is still standing after the run, if any. */
  function Standing(events: seq<Event>, a: Address, before: Option<nat>): Option<nat>
    decreases |events|
  {
    if events == [] then before
    else
      Standing(events[1..], a,
               match events[0]
               case Reserve(b, expiry) => if b == a then Some(expiry) else before
               case Pop(_, b) => if b == a then None else before
               case Release(b) => if b == a then None else before)
  }

  lemma {:induction false} PoolHoldsStanding(pool: Pool, events: seq<Event>, a: Address)
    ensures Standing(events, a, if a in pool then Some(pool[a]) else None)
            == (if a in After(pool, events) then Some(After(pool, events)[a]) else None)
    decreases |events|
  {
    if events != [] {
      PoolHoldsStanding(Do(pool, events[0]), events[1..], a);
    }
  }

  /** An address popped after a run was last reserved until a block strictly before the tip. */
  lemma PoppedOnlyAfterExpiry(events: seq<Event>, tip: nat, a: Address)
    requires Possible(map[], events) && IsNext(After(map[], events), tip, a)
    ensures Standing(events, a, None).Some? && Standing(events, a, None).value < tip
  {
    PoolHoldsStanding(map[], events, a);
  }

  /** The table object. */
  class ReservedAddresses {
    var rows: Pool

    constructor ()
      ensures rows == map[]
    {
      rows := map[];
    }

    /** next_expired_reserved_address: takes out an earliest expired row, if there is one. */
    method NextExpired(tip: nat) returns (res: Option<(Address, nat)>)
      modifies this
      ensures res.None? <==> forall a <- old(rows) :: tip <= old(rows)[a]
      ensures res.None? ==> rows == old(rows)
      ensures res.Some? ==> IsNext(old(rows), tip, res.value.0) && res.value.1 == old(rows)[res.value.0]
      ensures res.Some? ==> rows == Do(old(rows), Pop(tip, res.value.0))
    {
      var expired := ExpiredSet(rows, tip);
      if expired == {} {
        assert forall a <- rows :: a !in expired;
        return None;
      }
      EarliestExists(rows, expired);
      var a :| a in expired && forall b <- expired :: rows[a] <= rows[b];
      res := Some((a, rows[a]));
      rows := rows - {a};
    }

    method InsertOrUpdate(a: Address, expiry: nat)
      modifies this
      ensures rows == Do(old(rows), Reserve(a, expiry))
    {
      rows := rows[a := expiry];
    }

    method Delete(a: Address)
      modifies this
      ensures rows == Do(old(rows), Release(a)) && a !in rows
    {
      rows := rows - {a};
    }
  }
}
