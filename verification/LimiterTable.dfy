/**
 The limiter object and its sharded table (internal/ratelimit/limiter.go, table.go): one
 decision updates at most two accounts in place and leaves every other shard alone.
 */
module LimiterTable {
  import opened CreditAccount
  import opened Lru
  import opened RateTable
  import Limiter

  class Table {
    const shards: seq<TableShard>
    const settings: Limiter.Settings

    ghost function Footprint(): set<object>
      reads shards
    {
      (set s | s in shards) + (set s, e | s in shards && e in s.Repr :: e)
    }

    /** The shards are separate objects that share no entry. */
    ghost predicate Separate()
      reads shards
    {
      forall i, j :: 0 <= i < j < |shards| ==> shards[i] != shards[j] && shards[i].Repr !! shards[j].Repr
    }

    ghost predicate Valid()
      reads Footprint(), shards
    {
      && |shards| == Limiter.SHARDS && Limiter.Usable(settings)
      && Separate()
      && forall i :: 0 <= i < |shards| ==> shards[i].Valid() && shards[i].cap == settings.cap
    }

    /** The accounts of every shard. */
    ghost function Ledger(): (l: Limiter.Ledger)
      reads shards
      ensures |l| == |shards| && forall i :: 0 <= i < |l| ==> l[i] == shards[i].contents
    {
      seq(|shards|, i requires 0 <= i < |shards| reads shards => shards[i].contents)
    }

    /** Every shard holds maxSize / 32 accounts, at least one. */
    constructor (s: Limiter.Settings, maxSize: nat)
      requires |s.rates| == Limiter.ALL
      requires s.cap == if maxSize / 32 < 1 then 1 else maxSize / 32
      ensures Valid() && settings == s && |shards| == 32 && fresh(shards) && fresh(Footprint())
      ensures Ledger() == Limiter.EmptyLedger()
    {
      var made: seq<TableShard> := [];
      for i := 0 to Limiter.SHARDS
        invariant |made| == i && fresh(made)
        invariant forall j :: 0 <= j < i ==> made[j].Valid() && made[j].contents == [] && made[j].cap == s.cap && made[j].Repr == {}
        invariant forall j, k :: 0 <= j < k < i ==> made[j] != made[k]
      {
        var shard := new TableShard(s.cap);
        made := made + [shard];
      }
      shards, settings := made, s;
    }

    /** Charging one key changes only the list of its own shard. */
    method Charge(k: AccountKey, now: real, rate: real) returns (over: bool, slip: nat)
      requires Valid()
      modifies Footprint()
      ensures Valid() && fresh(Footprint() - old(Footprint()))
      ensures (Ledger(), over, slip) == Limiter.ChargeLedger(settings, old(Ledger()), k, now, rate)
    {
      hide ChargeList, Lru.Touch, TableShard.Valid, Limiter.Usable;
      var i := Limiter.ShardOf(settings, k);
      over, slip := shards[i].Charge(k, now, rate, settings.window);
      assert forall j :: 0 <= j < |shards| && j != i ==> shards[j].Valid() && shards[j].contents == old(shards[j].contents);
      assert Ledger() == old(Ledger())[i := shards[i].contents];
    }
  }

  class RateLimiter {
    const table: Table

    /** The table is split into shards of maxSize / 32 accounts, at least one each. */
    constructor (s: Limiter.Settings, maxSize: nat)
      requires |s.rates| == Limiter.ALL
      requires s.cap == if maxSize / 32 < 1 then 1 else maxSize / 32
      ensures table.Valid() && table.settings == s && fresh(table.Footprint())
      ensures table.Ledger() == Limiter.LedgerAfter(s, [])
    {
      table := new Table(s, maxSize);
    }

    /** Accounts one response: exempt clients touch nothing, others debit both their accounts. */
    method Decide(client: nat, category: nat, name: string, now: real) returns (action: Limiter.Action)
      requires table.Valid()
      modifies table.Footprint()
      ensures table.Valid() && fresh(table.Footprint() - old(table.Footprint()))
      ensures (action, table.Ledger()) ==
              Limiter.Decide(table.settings, old(table.Ledger()), Limiter.Response(client, category, name, now))
    {
      hide Limiter.ChargeLedger, Limiter.SlipAction;
      var s := table.settings;
      if s.exempt(client) {
        return Limiter.Allow;
      }
      var block := s.mask(client);
      var catOver, catSlip: nat := false, 0;
      var allOver, allSlip: nat := false, 0;
      var rate := Limiter.RateFor(s, category);
      if rate > 0.0 {
        catOver, catSlip := table.Charge(AccountKey(block, category, name), now, rate);
      }
      if s.allRate > 0.0 {
        allOver, allSlip := table.Charge(AccountKey(block, Limiter.ALL, ""), now, s.allRate);
      }
      if !catOver && !allOver {
        return Limiter.Allow;
      }
      if s.logOnly {
        return Limiter.Allow;
      }
      var slip := allSlip;
      if catOver {
        slip := catSlip;
      }
      action := Limiter.SlipAction(s.slip, slip);
    }
  }
}
