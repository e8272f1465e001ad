/**
 The response rate limiter (internal/ratelimit/limiter.go, slip.go): the decision for one
 response, as a function on the whole ledger, and what holds over every run of decisions.
 */
module Limiter {
  import opened CreditAccount
  import opened Lru
  import opened RateTable

  datatype Action = Allow | Drop | Slip

  /** The pseudo-category of the aggregate account; the real categories are below it. */
  const ALL: nat := 4

  const SHARDS: nat := 32

  /** hash picks a shard, mask a client's block; both are taken as given functions. */
  datatype Settings = Settings(rates: seq<real>, allRate: real, window: real, slip: int, logOnly: bool,
                               exempt: nat -> bool, mask: nat -> nat, hash: AccountKey -> nat, cap: nat)

  ghost predicate Usable(s: Settings) {
    |s.rates| == ALL && s.cap >= 1
  }

  /** One UDP response as the limiter sees it, with the clock reading taken for it. */
  datatype Response = Response(client: nat, category: nat, name: string, now: real)

  type Ledger = seq<seq<Entry<AccountKey>>>

  /** count is the account's over-limit counter, so at least 1. */
  function SlipAction(slip: int, count: nat): Action
    requires count >= 1
  {
    if slip <= 0 then Drop else if (count - 1) % slip == 0 then Slip else Drop
  }

  function RateFor(s: Settings, category: nat): real {
    if category < |s.rates| then s.rates[category] else 0.0
  }

  /** The rate an account is charged at, a function of its key. */
  function RateOf(s: Settings): AccountKey -> real {
    (k: AccountKey) => if k.category == ALL then s.allRate else RateFor(s, k.category)
  }

  function ShardOf(s: Settings, k: AccountKey): (i: nat)
    ensures i < SHARDS
  {
    s.hash(k) % SHARDS
  }

  function CategoryKey(s: Settings, r: Response): AccountKey {
    AccountKey(s.mask(r.client), r.category, r.name)
  }

  function AggregateKey(s: Settings, r: Response): AccountKey {
    AccountKey(s.mask(r.client), ALL, "")
  }

  /** One charge on the table touches one shard. */
  function ChargeLedger(s: Settings, l: Ledger, k: AccountKey, now: real, rate: real): (r: (Ledger, bool, nat))
    requires Usable(s) && |l| == SHARDS
    ensures |r.0| == SHARDS
    ensures r.1 ==> r.2 >= 1
  {
    var i := ShardOf(s, k);
    var (shard, over, slip) := ChargeList(l[i], k, s.cap, now, rate, s.window);
    (l[i := shard], over, slip)
  }

  /** The decision, and the ledger it leaves. */
  function Decide(s: Settings, l: Ledger, r: Response): (d: (Action, Ledger))
    requires Usable(s) && |l| == SHARDS
    ensures |d.1| == SHARDS
  {
    if s.exempt(r.client) then (Allow, l)
    else
      var rate := RateFor(s, r.category);
      var (l1, catOver, catSlip) :=
        if rate > 0.0 then ChargeLedger(s, l, CategoryKey(s, r), r.now, rate) else (l, false, 0);
      var (l2, allOver, allSlip) :=
        if s.allRate > 0.0 then ChargeLedger(s, l1, AggregateKey(s, r), r.now, s.allRate) else (l1, false, 0);
      if !catOver && !allOver then (Allow, l2)
      else if s.logOnly then (Allow, l2)
      else (SlipAction(s.slip, if catOver then catSlip else allSlip), l2)
  }

  // ----- whole runs

  function EmptyLedger(): (l: Ledger)
    ensures |l| == SHARDS && forall i :: 0 <= i < SHARDS ==> l[i] == []
  {
    seq(SHARDS, i => [])
  }

  function LedgerAfter(s: Settings, run: seq<Response>): (l: Ledger)
    requires Usable(s)
    ensures |l| == SHARDS
  {
    if run == [] then EmptyLedger() else Decide(s, LedgerAfter(s, run[..|run| - 1]), run[|run| - 1]).1
  }

  /** The action taken on the last response of the run. */
  function LastAction(s: Settings, run: seq<Response>): Action
    requires Usable(s) && run != []
  {
    Decide(s, LedgerAfter(s, run[..|run| - 1]), run[|run| - 1]).0
  }

  /** Log-only mode delivers everything and keeps the very ledger that enforcing would. */
  lemma {:induction false} LogOnlyKeepsTheLedger(s: Settings, run: seq<Response>)
    requires Usable(s)
    ensures LedgerAfter(s.(logOnly := true), run) == LedgerAfter(s.(logOnly := false), run)
    ensures run != [] ==> LastAction(s.(logOnly := true), run) == Allow
  {
    if run != [] {
      LogOnlyKeepsTheLedger(s, run[..|run| - 1]);
    }
  }

  function NotExempt(s: Settings, run: seq<Response>): seq<Response> {
    if run == [] then []
    else NotExempt(s, run[..|run| - 1]) + if s.exempt(run[|run| - 1].client) then [] else [run[|run| - 1]]
  }

  /** Exempt traffic is invisible: dropping it from a run changes neither ledger nor decisions. */
  lemma {:induction false} ExemptTrafficIsInvisible(s: Settings, run: seq<Response>)
    requires Usable(s)
    ensures LedgerAfter(s, NotExempt(s, run)) == LedgerAfter(s, run)
    ensures run != [] && !s.exempt(run[|run| - 1].client) ==>
              NotExempt(s, run) != [] && LastAction(s, NotExempt(s, run)) == LastAction(s, run)
    ensures run != [] && s.exempt(run[|run| - 1].client) ==> LastAction(s, run) == Allow
  {
    if run != [] {
      var front := run[..|run| - 1];
      ExemptTrafficIsInvisible(s, front);
      var kept := NotExempt(s, run);
      if s.exempt(run[|run| - 1].client) {
        assert kept == NotExempt(s, front);
      } else {
        assert kept[..|kept| - 1] == NotExempt(s, front);
      }
    }
  }

  // ----- the charges behind a run

  /** A charge, and whether the response that caused it was let through. */
  datatype Charged = Charged(event: Event<AccountKey>, allowed: bool)

  /** The charges one response causes, in order: its category account, then the aggregate one. */
  function ChargesOf(s: Settings, r: Response, allowed: bool): seq<Charged> {
    if s.exempt(r.client) then []
    else
      (if RateFor(s, r.category) > 0.0 then [Charged(Event(CategoryKey(s, r), r.now), allowed)] else []) +
      (if s.allRate > 0.0 then [Charged(Event(AggregateKey(s, r), r.now), allowed)] else [])
  }

  function Trace(s: Settings, run: seq<Response>): seq<Charged>
    requires Usable(s)
  {
    if run == [] then []
    else Trace(s, run[..|run| - 1]) + ChargesOf(s, run[|run| - 1], LastAction(s, run) == Allow)
  }

  /** The charges that reach shard i. */
  function OnShard(s: Settings, trace: seq<Charged>, i: nat): seq<Charged> {
    if trace == [] then []
    else
      var last := trace[|trace| - 1];
      OnShard(s, trace[..|trace| - 1], i) + if ShardOf(s, last.event.key) == i then [last] else []
  }

  function Events(trace: seq<Charged>): (h: seq<Event<AccountKey>>)
    ensures |h| == |trace|
    ensures forall i :: 0 <= i < |trace| ==> h[i] == trace[i].event
  {
    seq(|trace|, i requires 0 <= i < |trace| => trace[i].event)
  }

  /** The shard's list after the charges that reached it. */
  function ShardAfter(s: Settings, trace: seq<Charged>, i: nat): seq<Entry<AccountKey>>
    requires Usable(s)
  {
    After(Events(OnShard(s, trace, i)), s.cap, RateOf(s), s.window)
  }

  /** l is what the charges of the trace leave on every shard. */
  ghost predicate Leaves(s: Settings, trace: seq<Charged>, l: Ledger)
    requires Usable(s)
  {
    |l| == SHARDS && forall i :: 0 <= i < SHARDS ==> l[i] == ShardAfter(s, trace, i)
  }

  lemma EventsPush(trace: seq<Charged>, c: Charged)
    ensures Events(trace + [c]) == Events(trace) + [c.event]
  {
  }

  lemma OnShardPush(s: Settings, trace: seq<Charged>, c: Charged, i: nat)
    ensures OnShard(s, trace + [c], i) == OnShard(s, trace, i) + (if ShardOf(s, c.event.key) == i then [c] else [])
  {
    assert (trace + [c])[..|trace|] == trace;
  }

  lemma AfterPush(h: seq<Event<AccountKey>>, e: Event<AccountKey>, s: Settings)
    requires Usable(s)
    ensures After(h + [e], s.cap, RateOf(s), s.window)
         == ChargeList(After(h, s.cap, RateOf(s), s.window), e.key, s.cap, e.now, RateOf(s)(e.key), s.window).0
    ensures LastOver(h + [e], s.cap, RateOf(s), s.window)
         == ChargeList(After(h, s.cap, RateOf(s), s.window), e.key, s.cap, e.now, RateOf(s)(e.key), s.window).1
  {
    assert (h + [e])[..|h|] == h;
  }

  /** One more charge on the table is one more event on its own shard. */
  lemma LeavesPush(s: Settings, trace: seq<Charged>, l: Ledger, c: Charged)
    requires Usable(s) && Leaves(s, trace, l)
    ensures var k := c.event.key;
            var r := ChargeLedger(s, l, k, c.event.now, RateOf(s)(k));
            && Leaves(s, trace + [c], r.0)
            && Over(s, trace + [c]) == r.1
  {
    hide ChargeList;
    var on := ShardOf(s, c.event.key);
    forall i | 0 <= i < SHARDS
      ensures ChargeLedger(s, l, c.event.key, c.event.now, RateOf(s)(c.event.key)).0[i] == ShardAfter(s, trace + [c], i)
    {
      OnShardPush(s, trace, c, i);
      if i == on {
        EventsPush(OnShard(s, trace, i), c);
        AfterPush(Events(OnShard(s, trace, i)), c.event, s);
      } else {
        assert OnShard(s, trace + [c], i) == OnShard(s, trace, i);
      }
    }
    OnShardPush(s, trace, c, on);
    EventsPush(OnShard(s, trace, on), c);
    AfterPush(Events(OnShard(s, trace, on)), c.event, s);
  }

  /** Whether the last charge of the trace found its account over the limit. */
  function Over(s: Settings, trace: seq<Charged>): bool
    requires Usable(s)
  {
    if trace == [] then false
    else
      var h := Events(OnShard(s, trace, ShardOf(s, trace[|trace| - 1].event.key)));
      h != [] && LastOver(h, s.cap, RateOf(s), s.window)
  }

  /** In enforcing mode no charge of an allowed response was over the limit. */
  ghost predicate AllowedMeansWithin(s: Settings, trace: seq<Charged>)
    requires Usable(s)
  {
    forall n :: 0 < n <= |trace| && trace[n - 1].allowed ==> !Over(s, trace[..n])
  }

  lemma WithinPush(s: Settings, trace: seq<Charged>, c: Charged)
    requires Usable(s) && AllowedMeansWithin(s, trace)
    requires c.allowed ==> !Over(s, trace + [c])
    ensures AllowedMeansWithin(s, trace + [c])
  {
    hide Over;
    var longer := trace + [c];
    forall n | 0 < n <= |longer| && longer[n - 1].allowed ensures !Over(s, longer[..n]) {
      if n <= |trace| {
        assert longer[..n] == trace[..n];
      } else {
        assert longer[..n] == longer;
      }
    }
  }

  /** The ledger is what the trace's charges leave, and enforcing lets nothing through that was over. */
  lemma {:induction false} LedgerIsItsTrace(s: Settings, run: seq<Response>)
    requires Usable(s)
    ensures Leaves(s, Trace(s, run), LedgerAfter(s, run))
    ensures !s.logOnly ==> AllowedMeansWithin(s, Trace(s, run))
  {
    hide Leaves, AllowedMeansWithin, Over, ChargeLedger;
    if run == [] {
      EmptyLeaves(s);
    } else {
      var front, r := run[..|run| - 1], run[|run| - 1];
      LedgerIsItsTrace(s, front);
      DecisionLeaves(s, Trace(s, front), LedgerAfter(s, front), r);
    }
  }

  lemma EmptyLeaves(s: Settings)
    requires Usable(s)
    ensures Leaves(s, [], EmptyLedger()) && AllowedMeansWithin(s, [])
  {
  }

  lemma DecisionLeaves(s: Settings, trace: seq<Charged>, l: Ledger, r: Response)
    requires Usable(s) && Leaves(s, trace, l) && |l| == SHARDS
    requires !s.logOnly ==> AllowedMeansWithin(s, trace)
    ensures var d := Decide(s, l, r);
            var longer := trace + ChargesOf(s, r, d.0 == Allow);
            Leaves(s, longer, d.1) && (!s.logOnly ==> AllowedMeansWithin(s, longer))
  {
    hide Leaves, AllowedMeansWithin, Over, ChargeLedger, SlipAction;
    var d := Decide(s, l, r);
    var allowed := d.0 == Allow;
    if s.exempt(r.client) {
      assert trace + [] == trace;
    } else {
      var cat, all := Charged(Event(CategoryKey(s, r), r.now), allowed), Charged(Event(AggregateKey(s, r), r.now), allowed);
      var t1, l1 := trace, l;
      if RateFor(s, r.category) > 0.0 {
        LeavesPush(s, trace, l, cat);
        NeverAllows(s);
        if !s.logOnly { WithinPush(s, trace, cat); }
        t1, l1 := trace + [cat], ChargeLedger(s, l, cat.event.key, r.now, RateFor(s, r.category)).0;
      }
      if s.allRate > 0.0 {
        LeavesPush(s, t1, l1, all);
        NeverAllows(s);
        if !s.logOnly { WithinPush(s, t1, all); }
        assert trace + ChargesOf(s, r, allowed) == t1 + [all];
      } else {
        assert trace + ChargesOf(s, r, allowed) == t1;
      }
    }
  }

  lemma NeverAllows(s: Settings)
    ensures forall n: nat :: n >= 1 ==> SlipAction(s.slip, n) != Allow
  {
  }

  // ----- what one account lets through

  /** How many allowed responses charged k since its present account was created. */
  function AllowedOn(s: Settings, trace: seq<Charged>, k: AccountKey): nat
    requires Usable(s)
  {
    if trace == [] || !IsLive(After(Events(trace), s.cap, RateOf(s), s.window), k) then 0
    else
      var last := trace[|trace| - 1];
      AllowedOn(s, trace[..|trace| - 1], k) + if last.event.key == k && last.allowed then 1 else 0
  }

  /** On one shard's charges, nothing allowed was over. */
  ghost predicate ShardWithin(s: Settings, trace: seq<Charged>)
    requires Usable(s)
  {
    forall n :: 0 < n <= |trace| && trace[n - 1].allowed ==> !LastOver(Events(trace[..n]), s.cap, RateOf(s), s.window)
  }

  lemma ShardWithinPush(s: Settings, trace: seq<Charged>, c: Charged)
    requires Usable(s) && ShardWithin(s, trace)
    requires c.allowed ==> !LastOver(Events(trace + [c]), s.cap, RateOf(s), s.window)
    ensures ShardWithin(s, trace + [c])
  {
    hide LastOver, Events;
    var longer := trace + [c];
    forall n | 0 < n <= |longer| && longer[n - 1].allowed
      ensures !LastOver(Events(longer[..n]), s.cap, RateOf(s), s.window)
    {
      if n <= |trace| {
        assert longer[..n] == trace[..n];
      } else {
        assert longer[..n] == longer;
      }
    }
  }

  lemma {:induction false} WithinOnShard(s: Settings, trace: seq<Charged>, i: nat)
    requires Usable(s) && AllowedMeansWithin(s, trace)
    ensures ShardWithin(s, OnShard(s, trace, i))
  {
    hide LastOver;
    if trace != [] {
      var front, c := trace[..|trace| - 1], trace[|trace| - 1];
      assert forall n :: 0 < n <= |front| ==> front[..n] == trace[..n];
      WithinOnShard(s, front, i);
      assert trace[..|trace|] == trace;
      assert trace == front + [c];
      OnShardPush(s, front, c, i);
      if ShardOf(s, c.event.key) == i {
        ShardWithinPush(s, OnShard(s, front, i), c);
      } else {
        assert OnShard(s, trace, i) == OnShard(s, front, i);
      }
    }
  }

  lemma {:induction false} AllowedAreAdmitted(s: Settings, trace: seq<Charged>, k: AccountKey)
    requires Usable(s) && ShardWithin(s, trace)
    ensures AllowedOn(s, trace, k) <= Admitted(Events(trace), s.cap, RateOf(s), s.window, k)
  {
    hide LastOver, After;
    if trace != [] {
      var front := trace[..|trace| - 1];
      assert forall n :: 0 < n <= |front| ==> front[..n] == trace[..n];
      AllowedAreAdmitted(s, front, k);
      assert Events(trace)[..|trace| - 1] == Events(front);
      assert trace[..|trace|] == trace;
    }
  }

  /**
   The limiter's admission bound. In enforcing mode, over every run of responses from any mix
   of clients and whatever the clock readings, the responses allowed on one account between
   two evictions number at most its rate times the window plus the rate times the span from its
   first to its largest clock reading. It holds for category accounts and the aggregate one.
   */
  lemma EnforcedAdmissionBound(s: Settings, run: seq<Response>, k: AccountKey)
    requires Usable(s) && !s.logOnly && s.window > 0.0 && RateOf(s)(k) > 0.0
    requires IsLive(LedgerAfter(s, run)[ShardOf(s, k)], k)
    ensures var charges := OnShard(s, Trace(s, run), ShardOf(s, k));
            var tenure := Tenure(Events(charges), s.cap, RateOf(s), s.window, k);
            && tenure != []
            && AllowedOn(s, charges, k) as real <=
               Ceiling(RateOf(s)(k), s.window) + Earned(tenure[0], Latest(tenure), RateOf(s)(k))
  {
    hide Ceiling, Earned, RateOf, Tenure, AllowedOn;
    var trace, i := Trace(s, run), ShardOf(s, k);
    LedgerIsItsTrace(s, run);
    WithinOnShard(s, trace, i);
    AllowedAreAdmitted(s, OnShard(s, trace, i), k);
    ShardAdmissionBound(Events(OnShard(s, trace, i)), s.cap, RateOf(s), s.window, k);
  }

  // ----- the slip cadence

  /** How many of k's charges since its account was created were over the limit. */
  function Overs(h: seq<Event<AccountKey>>, cap: nat, rate: AccountKey -> real, window: real, k: AccountKey): nat
    requires cap >= 1
  {
    if h == [] || !IsLive(After(h, cap, rate, window), k) then 0
    else
      Overs(h[..|h| - 1], cap, rate, window, k) +
      if h[|h| - 1].key == k && LastOver(h, cap, rate, window) then 1 else 0
  }

  /** The slip counter of an account is the number of its over-limit charges. */
  lemma {:induction false} SlipCountsOvers(h: seq<Event<AccountKey>>, cap: nat, rate: AccountKey -> real, window: real,
                                           k: AccountKey)
    requires cap >= 1
    ensures AccountOf(After(h, cap, rate, window), k).slip == Overs(h, cap, rate, window, k)
  {
    hide Ceiling, CreditAccount.Charge, ChargeList, AccountOf;
    if !IsLive(After(h, cap, rate, window), k) {
      DeadAccountIsFresh(After(h, cap, rate, window), k);
    } else if h != [] {
      var front, e := h[..|h| - 1], h[|h| - 1];
      SlipCountsOvers(front, cap, rate, window, k);
      if e.key == k {
        ChargedSlip(After(front, cap, rate, window), k, cap, e.now, rate(k), window);
      } else {
        OthersUntouched(After(front, cap, rate, window), e.key, cap, e.now, rate(e.key), window, k);
      }
    } else {
      DeadAccountIsFresh([], k);
    }
  }

  lemma ChargedSlip(l: seq<Entry<AccountKey>>, k: AccountKey, cap: nat, now: real, rate: real, window: real)
    requires cap >= 1
    ensures var r := ChargeList(l, k, cap, now, rate, window);
            && AccountOf(r.0, k).slip == r.2
            && r.2 == AccountOf(l, k).slip + (if r.1 then 1 else 0)
  {
    hide Ceiling;
    var r := ChargeList(l, k, cap, now, rate, window).0;
    assert KeysOf(r)[0] == k && Find(KeysOf(r), k) == 0;
  }

  /** The run's charges up to and including the category charge of its last response. */
  function UpToCategoryCharge(s: Settings, run: seq<Response>): seq<Charged>
    requires Usable(s) && run != []
  {
    var r := run[|run| - 1];
    Trace(s, run[..|run| - 1]) + [Charged(Event(CategoryKey(s, r), r.now), false)]
  }

  /** Where the last response of the run stands among its account's over-limit responses. */
  function OverPosition(s: Settings, run: seq<Response>): nat
    requires Usable(s) && run != []
  {
    var k := CategoryKey(s, run[|run| - 1]);
    Overs(Events(OnShard(s, UpToCategoryCharge(s, run), ShardOf(s, k))), s.cap, RateOf(s), s.window, k)
  }

  /** Whether the last response of the run exhausts its category account. */
  predicate OverOnCategory(s: Settings, run: seq<Response>)
    requires Usable(s) && run != []
  {
    && !s.exempt(run[|run| - 1].client)
    && RateFor(s, run[|run| - 1].category) > 0.0
    && Over(s, UpToCategoryCharge(s, run))
  }

  /**
   The cadence: on one account, with a slip parameter n the over-limit responses are truncated
   at positions 1, n + 1, 2n + 1, ... of its over-limit sequence and dropped in between; with 0
   all are dropped, with 1 all truncated. Here for responses that are over on their category.
   */
  lemma CadencePacesTheAccount(s: Settings, run: seq<Response>)
    requires Usable(s) && !s.logOnly && run != [] && OverOnCategory(s, run)
    ensures OverPosition(s, run) >= 1
    ensures LastAction(s, run) == Slip <==> s.slip > 0 && (OverPosition(s, run) - 1) % s.slip == 0
    ensures LastAction(s, run) == Drop <==> !(s.slip > 0 && (OverPosition(s, run) - 1) % s.slip == 0)
  {
    CategoryVerdict(s, run);
    hide *;
    SlipPositions(s.slip, OverPosition(s, run));
  }

  /** One more charge: its verdict, and the slip count of its account as a position. */
  lemma ChargePosition(s: Settings, trace: seq<Charged>, l: Ledger, c: Charged)
    requires Usable(s) && Leaves(s, trace, l)
    ensures var k := c.event.key;
            var r := ChargeLedger(s, l, k, c.event.now, RateOf(s)(k));
            && Leaves(s, trace + [c], r.0) && Over(s, trace + [c]) == r.1
            && r.2 == Overs(Events(OnShard(s, trace + [c], ShardOf(s, k))), s.cap, RateOf(s), s.window, k)
  {
    hide Leaves, Overs, After, LastOver, ChargeList, Over;
    var k, i := c.event.key, ShardOf(s, c.event.key);
    LeavesPush(s, trace, l, c);
    LeavesAt(s, trace, l, i);
    LeavesAt(s, trace + [c], ChargeLedger(s, l, k, c.event.now, RateOf(s)(k)).0, i);
    ChargedSlip(l[i], k, s.cap, c.event.now, RateOf(s)(k), s.window);
    SlipCountsOvers(Events(OnShard(s, trace + [c], i)), s.cap, RateOf(s), s.window, k);
  }

  /** A response over on its category is acted on by its position, whatever the aggregate says. */
  lemma CategoryVerdict(s: Settings, run: seq<Response>)
    requires Usable(s) && !s.logOnly && run != [] && OverOnCategory(s, run)
    ensures OverPosition(s, run) >= 1 && LastAction(s, run) == SlipAction(s.slip, OverPosition(s, run))
  {
    hide Leaves, Overs, SlipAction, Over, Trace, ChargeLedger, OnShard, Events;
    var r := run[|run| - 1];
    LedgerIsItsTrace(s, run[..|run| - 1]);
    ChargePosition(s, Trace(s, run[..|run| - 1]), LedgerAfter(s, run[..|run| - 1]),
                   Charged(Event(CategoryKey(s, r), r.now), false));
  }

  /** The run's charges up to and including both charges of its last response. */
  function UpToAggregateCharge(s: Settings, run: seq<Response>): seq<Charged>
    requires Usable(s) && run != []
  {
    var r := run[|run| - 1];
    (if RateFor(s, r.category) > 0.0 then UpToCategoryCharge(s, run) else Trace(s, run[..|run| - 1]))
      + [Charged(Event(AggregateKey(s, r), r.now), false)]
  }

  /** Whether the last response of the run exhausts the aggregate account and not its category's. */
  predicate OverOnAggregateOnly(s: Settings, run: seq<Response>)
    requires Usable(s) && run != []
  {
    && !s.exempt(run[|run| - 1].client) && s.allRate > 0.0
    && !OverOnCategory(s, run) && Over(s, UpToAggregateCharge(s, run))
  }

  function AggregatePosition(s: Settings, run: seq<Response>): nat
    requires Usable(s) && run != []
  {
    var k := AggregateKey(s, run[|run| - 1]);
    Overs(Events(OnShard(s, UpToAggregateCharge(s, run), ShardOf(s, k))), s.cap, RateOf(s), s.window, k)
  }

  /** The same cadence for responses that only the aggregate account limits, paced on that account. */
  lemma CadencePacesTheAggregate(s: Settings, run: seq<Response>)
    requires Usable(s) && !s.logOnly && run != [] && OverOnAggregateOnly(s, run)
    ensures AggregatePosition(s, run) >= 1
    ensures LastAction(s, run) == Slip <==> s.slip > 0 && (AggregatePosition(s, run) - 1) % s.slip == 0
    ensures LastAction(s, run) == Drop <==> !(s.slip > 0 && (AggregatePosition(s, run) - 1) % s.slip == 0)
  {
    AggregateVerdict(s, run);
    hide *;
    SlipPositions(s.slip, AggregatePosition(s, run));
  }

  lemma AggregateVerdict(s: Settings, run: seq<Response>)
    requires Usable(s) && !s.logOnly && run != [] && OverOnAggregateOnly(s, run)
    ensures AggregatePosition(s, run) >= 1 && LastAction(s, run) == SlipAction(s.slip, AggregatePosition(s, run))
  {
    hide Leaves, Overs, SlipAction, Over, Trace, ChargeLedger, OnShard, Events;
    var r, l := run[|run| - 1], LedgerAfter(s, run[..|run| - 1]);
    var before := Trace(s, run[..|run| - 1]);
    LedgerIsItsTrace(s, run[..|run| - 1]);
    var cat, all := Charged(Event(CategoryKey(s, r), r.now), false), Charged(Event(AggregateKey(s, r), r.now), false);
    if RateFor(s, r.category) > 0.0 {
      ChargePosition(s, before, l, cat);
      ChargePosition(s, before + [cat], ChargeLedger(s, l, cat.event.key, r.now, RateFor(s, r.category)).0, all);
    } else {
      ChargePosition(s, before, l, all);
    }
  }

  /**
   What is delivered: the responses of exempt clients, everything in log-only mode, and otherwise
   exactly the responses that find neither of their accounts over its limit.
   */
  lemma AllowedExactly(s: Settings, run: seq<Response>)
    requires Usable(s) && run != []
    ensures LastAction(s, run) == Allow <==>
            || s.exempt(run[|run| - 1].client) || s.logOnly
            || (!OverOnCategory(s, run) && !OverOnAggregateOnly(s, run))
  {
    var r, l := run[|run| - 1], LedgerAfter(s, run[..|run| - 1]);
    assert LastAction(s, run) == Decide(s, l, r).0;
    if !s.exempt(r.client) {
      VerdictsAreCharges(s, run);
    }
    DecideAllows(s, l, r);
    hide Decide, LastAction, OverOnCategory, Over, UpToCategoryCharge, UpToAggregateCharge, ChargeLedger, LedgerAfter;
  }

  lemma DecideAllows(s: Settings, l: Ledger, r: Response)
    requires Usable(s) && |l| == SHARDS
    ensures var rate := RateFor(s, r.category);
            var cat := ChargeLedger(s, l, CategoryKey(s, r), r.now, rate);
            var l1 := if rate > 0.0 then cat.0 else l;
            var all := ChargeLedger(s, l1, AggregateKey(s, r), r.now, s.allRate);
            Decide(s, l, r).0 == Allow <==>
            s.exempt(r.client) || s.logOnly || (!(rate > 0.0 && cat.1) && !(s.allRate > 0.0 && all.1))
  {
    NeverAllows(s);
    hide ChargeLedger, SlipAction, RateFor, CategoryKey, AggregateKey;
  }

  /** The two charges of a response report whether its accounts are over. */
  lemma VerdictsAreCharges(s: Settings, run: seq<Response>)
    requires Usable(s) && run != [] && !s.exempt(run[|run| - 1].client)
    ensures var r, l := run[|run| - 1], LedgerAfter(s, run[..|run| - 1]);
            var rate := RateFor(s, r.category);
            var cat := ChargeLedger(s, l, CategoryKey(s, r), r.now, rate);
            var l1 := if rate > 0.0 then cat.0 else l;
            && (OverOnCategory(s, run) <==> rate > 0.0 && cat.1)
            && (Over(s, UpToAggregateCharge(s, run)) <==> ChargeLedger(s, l1, AggregateKey(s, r), r.now, s.allRate).1)
  {
    hide Leaves, Overs, SlipAction, Over, Trace, ChargeLedger, OnShard, Events;
    var r, l, before := run[|run| - 1], LedgerAfter(s, run[..|run| - 1]), Trace(s, run[..|run| - 1]);
    LedgerIsItsTrace(s, run[..|run| - 1]);
    var cat, all := Charged(Event(CategoryKey(s, r), r.now), false), Charged(Event(AggregateKey(s, r), r.now), false);
    if RateFor(s, r.category) > 0.0 {
      ChargePosition(s, before, l, cat);
      ChargePosition(s, before + [cat], ChargeLedger(s, l, cat.event.key, r.now, RateFor(s, r.category)).0, all);
    } else {
      ChargePosition(s, before, l, all);
    }
  }

  /**
   The accounts a response is charged to: the one of its client block, category and name at the
   category's rate, and the one of its client block alone at the aggregate rate; a category without
   a rate, and a missing aggregate rate, charge nothing.
   */
  lemma ChargedAccounts(s: Settings, run: seq<Response>)
    requires Usable(s) && run != []
    ensures var r := run[|run| - 1];
            var allowed := LastAction(s, run) == Allow;
            Trace(s, run) == Trace(s, run[..|run| - 1]) +
              (if s.exempt(r.client) then []
               else (if r.category < 4 && s.rates[r.category] > 0.0
                     then [Charged(Event(AccountKey(s.mask(r.client), r.category, r.name), r.now), allowed)] else []) +
                    (if s.allRate > 0.0 then [Charged(Event(AccountKey(s.mask(r.client), 4, ""), r.now), allowed)] else []))
    ensures forall k: AccountKey :: RateOf(s)(k) == if k.category < 4 then s.rates[k.category] else if k.category == 4 then s.allRate else 0.0
  {
    hide Decide, LedgerAfter;
  }

  /** A charge is over exactly when it exhausts its account's own run since the account was created. */
  lemma OverOnOwnRun(s: Settings, trace: seq<Charged>)
    requires Usable(s) && trace != []
    ensures var e := trace[|trace| - 1].event;
            var own := Tenure(Events(OnShard(s, trace, ShardOf(s, e.key))), s.cap, RateOf(s), s.window, e.key);
            && own != [] && own[|own| - 1] == e.now
            && (Over(s, trace) <==> OverAtEnd(own, RateOf(s)(e.key), Ceiling(RateOf(s)(e.key), s.window)))
  {
    var front, c := trace[..|trace| - 1], trace[|trace| - 1];
    var i := ShardOf(s, c.event.key);
    assert trace == front + [c];
    OnShardPush(s, front, c, i);
    EventsPush(OnShard(s, front, i), c);
    var h := Events(OnShard(s, trace, i));
    assert h != [] && h[|h| - 1] == c.event && (Over(s, trace) <==> LastOver(h, s.cap, RateOf(s), s.window)) by {
      hide LastOver, RateOf;
    }
    hide *;
    OverIsOwnRun(h, s.cap, RateOf(s), s.window);
  }

  /** The admission bound at the configured rates: the category's own, or the aggregate one. */
  lemma EnforcedBoundAtItsRate(s: Settings, run: seq<Response>, k: AccountKey)
    requires Usable(s) && !s.logOnly && s.window > 0.0
    requires (k.category < 4 && s.rates[k.category] > 0.0) || (k.category == 4 && s.allRate > 0.0)
    requires IsLive(LedgerAfter(s, run)[ShardOf(s, k)], k)
    ensures var rate := if k.category == 4 then s.allRate else s.rates[k.category];
            var charges := OnShard(s, Trace(s, run), ShardOf(s, k));
            var tenure := Tenure(Events(charges), s.cap, RateOf(s), s.window, k);
            tenure != [] &&
            AllowedOn(s, charges, k) as real <= Ceiling(rate, s.window) + Earned(tenure[0], Latest(tenure), rate)
  {
    var rate := if k.category == 4 then s.allRate else s.rates[k.category];
    assert RateOf(s)(k) == rate && rate > 0.0;
    hide *;
    EnforcedAdmissionBound(s, run, k);
  }

  /** The first response of a client is delivered when its rates allow one response per window. */
  lemma FirstResponseAllowed(s: Settings, r: Response)
    requires Usable(s) && s.window > 0.0
    requires forall i :: 0 <= i < 4 ==> s.rates[i] * s.window >= 1.0 || s.rates[i] <= 0.0
    requires s.allRate * s.window >= 1.0 || s.allRate <= 0.0
    ensures LastAction(s, [r]) == Allow
  {
    assert [r][..0] == [] && LedgerAfter(s, []) == EmptyLedger();
    var l, rate := EmptyLedger(), RateFor(s, r.category);
    FreshChargeWithin(s, l, CategoryKey(s, r), r.now, rate);
    FreshChargeWithin(s, l, AggregateKey(s, r), r.now, s.allRate);
    if rate > 0.0 {
      assert CategoryKey(s, r) != AggregateKey(s, r);
      FreshChargeWithin(s, ChargeLedger(s, l, CategoryKey(s, r), r.now, rate).0, AggregateKey(s, r), r.now, s.allRate);
    }
    DecideAllows(s, l, r);
    hide ChargeLedger, EmptyLedger, Decide, ShardOf, CategoryKey, AggregateKey;
  }

  lemma FreshChargeWithin(s: Settings, l: Ledger, k: AccountKey, now: real, rate: real)
    requires Usable(s) && |l| == SHARDS && !IsLive(l[ShardOf(s, k)], k)
    ensures rate * s.window >= 1.0 ==> !ChargeLedger(s, l, k, now, rate).1
    ensures forall j :: j != k && !IsLive(l[ShardOf(s, j)], j) ==>
              var m := ChargeLedger(s, l, k, now, rate).0; !IsLive(m[ShardOf(s, j)], j)
  {
    var shard := l[ShardOf(s, k)];
    ChargedAccount(shard, k, s.cap, now, rate, s.window);
    DeadAccountIsFresh(shard, k);
    forall j | j != k && !IsLive(l[ShardOf(s, j)], j)
      ensures var m := ChargeLedger(s, l, k, now, rate).0; !IsLive(m[ShardOf(s, j)], j)
    {
      var r := ChargeList(shard, k, s.cap, now, rate, s.window).0;
      if j in KeysOf(r) && ShardOf(s, j) == ShardOf(s, k) {
        OthersUntouched(shard, k, s.cap, now, rate, s.window, j);
      }
    }
    hide ChargeList, KeysOf;
  }

  lemma SlipPositions(slip: int, n: nat)
    requires n >= 1
    ensures SlipAction(slip, n) == Slip <==> slip > 0 && (n - 1) % slip == 0
    ensures SlipAction(slip, n) == Drop <==> !(slip > 0 && (n - 1) % slip == 0)
  {
  }

  lemma LeavesAt(s: Settings, trace: seq<Charged>, l: Ledger, i: nat)
    requires Usable(s) && Leaves(s, trace, l) && i < SHARDS
    ensures |l| == SHARDS && l[i] == After(Events(OnShard(s, trace, i)), s.cap, RateOf(s), s.window)
  {
  }
}
