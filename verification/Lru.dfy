/**
 The account list of one shard as a value: most recently used first, at most `cap` entries.
 Whether an account is live is decided by how many other keys came since its last use.
 */
module Lru {
  import opened CreditAccount

  datatype Entry<K> = Entry(key: K, acct: Account)

  function KeysOf<K>(l: seq<Entry<K>>): (ks: seq<K>)
    ensures |ks| == |l|
    ensures forall i :: 0 <= i < |l| ==> ks[i] == l[i].key
  {
    seq(|l|, i requires 0 <= i < |l| => l[i].key)
  }

  /** The position of key k, or the length when it is absent. */
  function Find<K(==)>(ks: seq<K>, k: K): (i: nat)
    ensures i <= |ks|
    ensures i < |ks| ==> ks[i] == k
    ensures forall j :: 0 <= j < i ==> ks[j] != k
  {
    if ks == [] then 0 else if ks[0] == k then 0 else 1 + Find(ks[1..], k)
  }

  /** The element at `at` moved to the front. */
  function Moved<T>(s: seq<T>, at: nat): (r: seq<T>)
    requires at < |s|
    ensures |r| == |s|
    ensures forall i {:trigger r[i]} :: 0 <= i < |s| ==> r[i] == if i == 0 then s[at] else if i <= at then s[i - 1] else s[i]
  {
    [s[at]] + s[..at] + s[at + 1..]
  }

  /** Moves k to the front, creating it (and evicting the last entry at capacity) if absent. */
  function Touch<K(==)>(l: seq<Entry<K>>, k: K, cap: nat): (r: seq<Entry<K>>)
    requires cap >= 1
    ensures r != [] && r[0].key == k
  {
    var i := Find(KeysOf(l), k);
    if i < |l| then Moved(l, i)
    else [Entry(k, FRESH)] + (if |l| >= cap then l[..|l| - 1] else l)
  }

  /** The most credit an account can hold. */
  function Ceiling(rate: real, window: real): real {
    rate * window
  }

  lemma CeilingPositive(rate: real, window: real)
    requires rate > 0.0 && window > 0.0
    ensures Ceiling(rate, window) > 0.0
  {
  }

  /** One charge: touch the account, debit it, and advance its slip counter when over. */
  function ChargeList<K(==)>(l: seq<Entry<K>>, k: K, cap: nat, now: real, rate: real, window: real)
    : (r: (seq<Entry<K>>, bool, nat))
    requires cap >= 1
  {
    var t := Touch(l, k, cap);
    var (a, over) := Charge(t[0].acct, now, rate, Ceiling(rate, window));
    var b := if over then a.(slip := a.slip + 1) else a;
    (t[0 := Entry(k, b)], over, b.slip)
  }

  predicate DistinctKeys<K(==)>(ks: seq<K>) {
    forall i, j :: 0 <= i < j < |ks| ==> ks[i] != ks[j]
  }

  // ----- which keys are live

  /** The list kept without a capacity: every key ever touched, most recent first. */
  function MoveToFront<K(==)>(ks: seq<K>, k: K): seq<K> {
    var i := Find(ks, k);
    [k] + ks[..i] + (if i < |ks| then ks[i + 1..] else [])
  }

  function Recent<K(==)>(trace: seq<K>): seq<K> {
    if trace == [] then [] else MoveToFront(Recent(trace[..|trace| - 1]), trace[|trace| - 1])
  }

  /** The live keys after a trace of touches on an initially empty shard. */
  function Live<K(==)>(trace: seq<K>, cap: nat): seq<K>
    requires cap >= 1
  {
    if trace == [] then [] else TouchKeys(Live(trace[..|trace| - 1], cap), trace[|trace| - 1], cap)
  }

  /** Touch, on the keys alone. */
  function TouchKeys<K(==)>(ks: seq<K>, k: K, cap: nat): seq<K>
    requires cap >= 1
  {
    var i := Find(ks, k);
    if i < |ks| then [k] + ks[..i] + ks[i + 1..]
    else [k] + (if |ks| >= cap then ks[..|ks| - 1] else ks)
  }

  lemma KeysOfConcat<K>(a: seq<Entry<K>>, b: seq<Entry<K>>)
    ensures KeysOf(a + b) == KeysOf(a) + KeysOf(b)
  {
  }

  lemma KeysOfParts<K>(l: seq<Entry<K>>, i: nat)
    requires i < |l|
    ensures KeysOf(l[..i]) == KeysOf(l)[..i] && KeysOf(l[i + 1..]) == KeysOf(l)[i + 1..]
  {
  }

  lemma KeysOfOne<K>(e: Entry<K>)
    ensures KeysOf([e]) == [e.key]
  {
  }

  /** Charging touches the key. */
  lemma ChargeTouches<K>(l: seq<Entry<K>>, k: K, cap: nat, now: real, rate: real, window: real)
    requires cap >= 1
    ensures KeysOf(ChargeList(l, k, cap, now, rate, window).0) == TouchKeys(KeysOf(l), k, cap)
  {
    TouchedKeys(l, k, cap);
    SameKeys(Touch(l, k, cap), ChargeList(l, k, cap, now, rate, window).0);
  }

  lemma SameKeys<K>(l: seq<Entry<K>>, r: seq<Entry<K>>)
    requires |l| == |r| && forall i :: 0 <= i < |l| ==> r[i].key == l[i].key
    ensures KeysOf(l) == KeysOf(r)
  {
  }

  lemma TouchedKeys<K>(l: seq<Entry<K>>, k: K, cap: nat)
    requires cap >= 1
    ensures KeysOf(Touch(l, k, cap)) == TouchKeys(KeysOf(l), k, cap)
  {
    var i := Find(KeysOf(l), k);
    if i < |l| {
      KeysOfParts(l, i);
      KeysOfOne(l[i]);
      KeysOfConcat([l[i]], l[..i]);
      KeysOfConcat([l[i]] + l[..i], l[i + 1..]);
    } else {
      KeysOfOne<K>(Entry(k, FRESH));
      if |l| >= cap {
        KeysOfParts(l, |l| - 1);
        KeysOfConcat([Entry(k, FRESH)], l[..|l| - 1]);
      } else {
        KeysOfConcat([Entry(k, FRESH)], l);
      }
    }
    hide KeysOf, Find;
  }

  /** The account of key k, fresh when it has none. */
  function AccountOf<K(==)>(l: seq<Entry<K>>, k: K): Account {
    var i := Find(KeysOf(l), k);
    if i < |l| then l[i].acct else FRESH
  }

  lemma FindHead<K>(x: K, ks: seq<K>, k: K)
    ensures Find([x] + ks, k) == if x == k then 0 else 1 + Find(ks, k)
  {
    assert ([x] + ks)[1..] == ks;
  }

  lemma AccountHead<K>(e: Entry<K>, l: seq<Entry<K>>, k: K)
    ensures AccountOf([e] + l, k) == if e.key == k then e.acct else AccountOf(l, k)
  {
    KeysOfOne(e);
    KeysOfConcat([e], l);
    FindHead(e.key, KeysOf(l), k);
    hide KeysOf, Find;
  }

  lemma {:induction false} AccountConcat<K>(a: seq<Entry<K>>, b: seq<Entry<K>>, k: K)
    ensures AccountOf(a + b, k) == if k in KeysOf(a) then AccountOf(a, k) else AccountOf(b, k)
  {
    if a == [] {
      assert a + b == b;
    } else {
      AccountConcat(a[1..], b, k);
      assert a == [a[0]] + a[1..] && a + b == [a[0]] + (a[1..] + b);
      AccountHead(a[0], a[1..], k);
      AccountHead(a[0], a[1..] + b, k);
      KeysOfOne(a[0]);
      KeysOfConcat([a[0]], a[1..]);
      hide AccountOf, KeysOf;
    }
  }

  /** Taking the entry of one key out changes no other account. */
  lemma WithoutOne<K>(l: seq<Entry<K>>, i: nat, other: K)
    requires i < |l| && l[i].key != other
    ensures AccountOf(l[..i] + l[i + 1..], other) == AccountOf(l, other)
    ensures other in KeysOf(l) <==> other in KeysOf(l[..i] + l[i + 1..])
  {
    var front, back := l[..i], l[i + 1..];
    assert l == front + ([l[i]] + back);
    AccountConcat(front, back, other);
    AccountConcat(front, [l[i]] + back, other);
    AccountHead(l[i], back, other);
    KeysOfOne(l[i]);
    KeysOfConcat(front, back);
    KeysOfConcat([l[i]], back);
    KeysOfConcat(front, [l[i]] + back);
    hide AccountOf, KeysOf;
  }

  /** Dropping the last entry changes no account that is still there. */
  lemma WithoutLast<K>(l: seq<Entry<K>>, other: K)
    requires l != [] && other in KeysOf(l[..|l| - 1])
    ensures other in KeysOf(l) && AccountOf(l[..|l| - 1], other) == AccountOf(l, other)
  {
    var front, last := l[..|l| - 1], l[|l| - 1];
    assert l == front + [last];
    AccountConcat(front, [last], other);
    KeysOfConcat(front, [last]);
    hide AccountOf, KeysOf;
  }

  /** Charging k changes no other account, save that the evicted one is forgotten. */
  lemma OthersUntouched<K>(l: seq<Entry<K>>, k: K, cap: nat, now: real, rate: real, window: real, other: K)
    requires cap >= 1 && other != k
    requires other in KeysOf(ChargeList(l, k, cap, now, rate, window).0)
    ensures other in KeysOf(l)
    ensures AccountOf(ChargeList(l, k, cap, now, rate, window).0, other) == AccountOf(l, other)
  {
    var y := ChargeList(l, k, cap, now, rate, window).0[0];
    var rest := Others(l, k, cap);
    ChargedHead(l, k, cap, now, rate, window);
    AccountHead(y, rest, other);
    KeysOfOne(y);
    KeysOfConcat([y], rest);
    OthersKept(l, k, cap, other);
  }

  /** What stands behind the charged account. */
  function Others<K(==)>(l: seq<Entry<K>>, k: K, cap: nat): seq<Entry<K>>
    requires cap >= 1
  {
    var i := Find(KeysOf(l), k);
    if i < |l| then l[..i] + l[i + 1..] else if |l| >= cap then l[..|l| - 1] else l
  }

  lemma TouchShape<K>(l: seq<Entry<K>>, k: K, cap: nat)
    requires cap >= 1
    ensures Touch(l, k, cap) == [Touch(l, k, cap)[0]] + Others(l, k, cap)
  {
    var i := Find(KeysOf(l), k);
    hide KeysOf, Find;
    if i < |l| {
      assert Moved(l, i) == [l[i]] + (l[..i] + l[i + 1..]);
    }
  }

  lemma ChargedInPlace<K>(l: seq<Entry<K>>, k: K, cap: nat, now: real, rate: real, window: real)
    requires cap >= 1
    ensures var t, r := Touch(l, k, cap), ChargeList(l, k, cap, now, rate, window).0;
            r != [] && r == t[0 := r[0]] && r[0].key == k
  {
    hide Touch, Charge, Ceiling;
  }

  lemma ChargedHead<K>(l: seq<Entry<K>>, k: K, cap: nat, now: real, rate: real, window: real)
    requires cap >= 1
    ensures var r := ChargeList(l, k, cap, now, rate, window).0;
            r != [] && r[0].key == k && r == [r[0]] + Others(l, k, cap)
  {
    hide *;
    TouchShape(l, k, cap);
    ChargedInPlace(l, k, cap, now, rate, window);
    var t, r := Touch(l, k, cap), ChargeList(l, k, cap, now, rate, window).0;
    assert t[0 := r[0]] == [r[0]] + t[1..];
    assert t[1..] == Others(l, k, cap);
  }

  lemma OthersKept<K>(l: seq<Entry<K>>, k: K, cap: nat, other: K)
    requires cap >= 1 && other != k && other in KeysOf(Others(l, k, cap))
    ensures other in KeysOf(l) && AccountOf(Others(l, k, cap), other) == AccountOf(l, other)
  {
    var i := Find(KeysOf(l), k);
    if i < |l| {
      WithoutOne(l, i, other);
    } else if |l| >= cap {
      WithoutLast(l, other);
    }
  }

  function Take<K>(ks: seq<K>, cap: nat): seq<K> {
    if |ks| <= cap then ks else ks[..cap]
  }

  lemma FindUnique<K>(ks: seq<K>, k: K, i: nat)
    requires DistinctKeys(ks) && i < |ks| && ks[i] == k
    ensures Find(ks, k) == i
  {
  }

  lemma TouchIsTruncatedMove<K>(ks: seq<K>, k: K, cap: nat)
    requires cap >= 1 && DistinctKeys(ks)
    ensures TouchKeys(Take(ks, cap), k, cap) == Take(MoveToFront(ks, k), cap)
  {
    var i, live, moved := Find(ks, k), Take(ks, cap), MoveToFront(ks, k);
    if i < |live| {
      assert live[i] == k;
      FindUnique(live, k, i);
      assert TouchKeys(live, k, cap) == MoveToFront(live, k);
      assert MoveToFront(live, k) == Take(moved, cap);
    } else {
      assert k !in live;
      assert moved == if i < |ks| then [k] + ks[..i] + ks[i + 1..] else [k] + ks;
      assert Take(moved, cap) == [k] + (if |live| >= cap then live[..|live| - 1] else live);
    }
  }

  lemma MoveToFrontMembers<K>(ks: seq<K>, k: K)
    ensures forall x :: x in MoveToFront(ks, k) <==> x in ks || x == k
  {
    var i := Find(ks, k);
    assert ks[..i] + ks[i..] == ks;
    assert i < |ks| ==> ks[i..] == [k] + ks[i + 1..];
  }

  lemma MoveToFrontDistinct<K>(ks: seq<K>, k: K)
    requires DistinctKeys(ks)
    ensures DistinctKeys(MoveToFront(ks, k))
  {
    var i, r := Find(ks, k), MoveToFront(ks, k);
    assert forall j {:trigger r[j]} :: 1 <= j < |r| ==> r[j] == (if j <= i then ks[j - 1] else ks[j]) && r[j] != k;
  }

  lemma {:induction false} RecentListsEachKeyOnce<K>(trace: seq<K>)
    ensures DistinctKeys(Recent(trace))
    ensures forall k :: k in Recent(trace) <==> k in trace
  {
    if trace != [] {
      var front, k := trace[..|trace| - 1], trace[|trace| - 1];
      RecentListsEachKeyOnce(front);
      MoveToFrontMembers(Recent(front), k);
      MoveToFrontDistinct(Recent(front), k);
      assert trace == front + [k];
      hide MoveToFront, DistinctKeys;
    }
  }

  /** The bounded list is always the most recent part of the unbounded one. */
  lemma {:induction false} LiveIsMostRecent<K>(trace: seq<K>, cap: nat)
    requires cap >= 1
    ensures Live(trace, cap) == Take(Recent(trace), cap)
    ensures |Live(trace, cap)| <= cap
  {
    if trace != [] {
      var front := trace[..|trace| - 1];
      LiveIsMostRecent(front, cap);
      RecentListsEachKeyOnce(front);
      TouchIsTruncatedMove(Recent(front), trace[|trace| - 1], cap);
    }
  }

  /** The keys touched since k's last touch (all of them, if k was never touched). */
  function Since<K(==)>(trace: seq<K>, k: K): set<K> {
    if trace == [] || trace[|trace| - 1] == k then {}
    else Since(trace[..|trace| - 1], k) + {trace[|trace| - 1]}
  }

  function Elems<K(==)>(ks: seq<K>): set<K> {
    set x | x in ks
  }

  /** Moving another key in front of k adds that key to what stands before k, and nothing else. */
  lemma MoveAddsOne<K>(ks: seq<K>, other: K, k: K)
    requires DistinctKeys(ks) && DistinctKeys(MoveToFront(ks, other)) && other != k && Find(ks, k) < |ks|
    ensures Find(MoveToFront(ks, other), k) < |MoveToFront(ks, other)|
    ensures Elems(MoveToFront(ks, other)[..Find(MoveToFront(ks, other), k)]) == Elems(ks[..Find(ks, k)]) + {other}
  {
    var p, i, moved := Find(ks, k), Find(ks, other), MoveToFront(ks, other);
    hide Find;
    if i < p {
      assert moved == [other] + ks[..i] + ks[i + 1..];
      assert moved[p] == k;
      FindUnique(moved, k, p);
      assert moved[..p] == [other] + (ks[..i] + ks[i + 1..p]);
      SplitAt(ks, i, p);
      ElemsConcat(ks[..i], [other] + ks[i + 1..p]);
      ElemsConcat([other], ks[i + 1..p]);
      ElemsConcat([other], ks[..i] + ks[i + 1..p]);
      ElemsConcat(ks[..i], ks[i + 1..p]);
    } else {
      assert moved[p + 1] == k;
      FindUnique(moved, k, p + 1);
      assert moved[..p + 1] == [other] + ks[..p];
      ElemsConcat([other], ks[..p]);
    }
    assert Elems([other]) == {other};
  }

  lemma SplitAt<K>(ks: seq<K>, i: nat, p: nat)
    requires i < p <= |ks|
    ensures ks[..p] == ks[..i] + ([ks[i]] + ks[i + 1..p])
  {
  }

  lemma ElemsConcat<K>(x: seq<K>, y: seq<K>)
    ensures Elems(x + y) == Elems(x) + Elems(y)
  {
  }

  /** In the unbounded list, exactly the keys touched since stand before k. */
  lemma {:induction false} BeforeIsSince<K>(trace: seq<K>, k: K)
    requires k in trace
    ensures Find(Recent(trace), k) < |Recent(trace)|
    ensures Elems(Recent(trace)[..Find(Recent(trace), k)]) == Since(trace, k)
  {
    RecentListsEachKeyOnce(trace);
    var front, last := trace[..|trace| - 1], trace[|trace| - 1];
    assert trace == front + [last];
    RecentListsEachKeyOnce(front);
    if last == k {
      FindUnique(Recent(trace), k, 0);
    } else {
      BeforeIsSince(front, k);
      MoveAddsOne(Recent(front), last, k);
    }
  }

  lemma {:induction false} DistinctSize<K>(ks: seq<K>)
    requires DistinctKeys(ks)
    ensures |Elems(ks)| == |ks|
  {
    if ks != [] {
      var front := ks[..|ks| - 1];
      DistinctSize(front);
      assert ks == front + [ks[|ks| - 1]];
      assert Elems(ks) == Elems(front) + {ks[|ks| - 1]};
    }
  }

  /**
   The eviction rule, over every sequence of charges on a shard: a touched key is still live
   exactly when fewer than `cap` distinct other keys were touched since its last touch.
   */
  lemma EvictedAfterCapOthers<K>(trace: seq<K>, k: K, cap: nat)
    requires cap >= 1 && k in trace
    ensures k in Live(trace, cap) <==> |Since(trace, k)| < cap
    ensures k !in Since(trace, k)
  {
    var r := Recent(trace);
    var p := Find(r, k);
    BeforeIsSince(trace, k);
    RecentListsEachKeyOnce(trace);
    LiveIsMostRecent(trace, cap);
    assert DistinctKeys(r[..p]);
    DistinctSize(r[..p]);
    if k in Live(trace, cap) {
      var i :| 0 <= i < |Take(r, cap)| && Take(r, cap)[i] == k;
      FindUnique(r, k, i);
    }
    if p < cap {
      assert Take(r, cap)[p] == k;
    }
  }

  // ----- what one account lets through

  /** One charge as it reaches a shard. */
  datatype Event<K> = Event(key: K, now: real)

  /** The shard's list after a history of charges, each key at its own rate. */
  function After<K(==)>(history: seq<Event<K>>, cap: nat, rate: K -> real, window: real): seq<Entry<K>>
    requires cap >= 1
  {
    if history == [] then []
    else
      var e := history[|history| - 1];
      ChargeList(After(history[..|history| - 1], cap, rate, window), e.key, cap, e.now, rate(e.key), window).0
  }

  /** The verdict on the last charge of the history. */
  function LastOver<K(==)>(history: seq<Event<K>>, cap: nat, rate: K -> real, window: real): bool
    requires cap >= 1 && history != []
  {
    var e := history[|history| - 1];
    ChargeList(After(history[..|history| - 1], cap, rate, window), e.key, cap, e.now, rate(e.key), window).1
  }

  predicate IsLive<K(==)>(l: seq<Entry<K>>, k: K) {
    k in KeysOf(l)
  }

  /** The clock readings of k's charges since its present account was created. */
  function Tenure<K(==)>(history: seq<Event<K>>, cap: nat, rate: K -> real, window: real, k: K): seq<real>
    requires cap >= 1
  {
    if history == [] || !IsLive(After(history, cap, rate, window), k) then []
    else
      var front, e := history[..|history| - 1], history[|history| - 1];
      Tenure(front, cap, rate, window, k) + (if e.key == k then [e.now] else [])
  }

  /** How many of those charges were within the limit. */
  function Admitted<K(==)>(history: seq<Event<K>>, cap: nat, rate: K -> real, window: real, k: K): nat
    requires cap >= 1
  {
    if history == [] || !IsLive(After(history, cap, rate, window), k) then 0
    else
      var front, e := history[..|history| - 1], history[|history| - 1];
      Admitted(front, cap, rate, window, k) +
      (if e.key == k && !LastOver(history, cap, rate, window) then 1 else 0)
  }

  /** The keys charged, in order. */
  function Trace<K>(history: seq<Event<K>>): (trace: seq<K>)
    ensures |trace| == |history|
    ensures forall i :: 0 <= i < |history| ==> trace[i] == history[i].key
  {
    seq(|history|, i requires 0 <= i < |history| => history[i].key)
  }

  /** The keys of the ledger are the live keys of the trace. */
  lemma {:induction false} LedgerKeysAreLive<K>(history: seq<Event<K>>, cap: nat, rate: K -> real, window: real)
    requires cap >= 1
    ensures KeysOf(After(history, cap, rate, window)) == Live(Trace(history), cap)
  {
    hide ChargeList, TouchKeys;
    if history != [] {
      var front, e := history[..|history| - 1], history[|history| - 1];
      LedgerKeysAreLive(front, cap, rate, window);
      ChargeTouches(After(front, cap, rate, window), e.key, cap, e.now, rate(e.key), window);
      assert Trace(history)[..|history| - 1] == Trace(front);
    }
  }

  /**
   Over every history of charges the ledger holds an account for k exactly when k was charged
   and fewer than `cap` distinct other keys have been charged since.
   */
  lemma LiveUntilCapOthers<K>(history: seq<Event<K>>, cap: nat, rate: K -> real, window: real, k: K)
    requires cap >= 1
    ensures IsLive(After(history, cap, rate, window), k) <==>
            k in Trace(history) && |Since(Trace(history), k)| < cap
  {
    LedgerKeysAreLive(history, cap, rate, window);
    LiveIsMostRecent(Trace(history), cap);
    RecentListsEachKeyOnce(Trace(history));
    if k in Trace(history) {
      EvictedAfterCapOthers(Trace(history), k, cap);
    }
    hide Live, Recent, Since, After, Trace;
  }

  predicate SameBalance(a: Account, b: Account) {
    a.credit == b.credit && a.lastRefill == b.lastRefill
  }

  lemma ChargeIgnoresSlip(a: Account, b: Account, now: real, rate: real, ceiling: real)
    requires SameBalance(a, b)
    ensures SameBalance(Charge(a, now, rate, ceiling).0, Charge(b, now, rate, ceiling).0)
    ensures Charge(a, now, rate, ceiling).1 == Charge(b, now, rate, ceiling).1
  {
  }

  /** The charged key comes first, its account debited. */
  lemma ChargedAccount<K>(l: seq<Entry<K>>, k: K, cap: nat, now: real, rate: real, window: real)
    requires cap >= 1
    ensures var r := ChargeList(l, k, cap, now, rate, window);
            && IsLive(r.0, k)
            && SameBalance(AccountOf(r.0, k), Charge(AccountOf(l, k), now, rate, Ceiling(rate, window)).0)
            && r.1 == Charge(AccountOf(l, k), now, rate, Ceiling(rate, window)).1
  {
    var r := ChargeList(l, k, cap, now, rate, window).0;
    assert KeysOf(r)[0] == k && Find(KeysOf(r), k) == 0;
  }

  lemma DeadAccountIsFresh<K>(l: seq<Entry<K>>, k: K)
    requires !IsLive(l, k)
    ensures AccountOf(l, k) == FRESH
  {
    assert forall i :: 0 <= i < |l| ==> KeysOf(l)[i] in KeysOf(l);
  }

  /** A live account has seen exactly its tenure's charges, and admitted what that run admits. */
  lemma {:induction false} LedgerIsRun<K>(history: seq<Event<K>>, cap: nat, rate: K -> real, window: real, k: K)
    requires cap >= 1
    ensures var tenure := Tenure(history, cap, rate, window, k);
            var ceiling := Ceiling(rate(k), window);
            && SameBalance(AccountOf(After(history, cap, rate, window), k), Run(tenure, rate(k), ceiling))
            && Admitted(history, cap, rate, window, k) == Within(tenure, rate(k), ceiling)
            && (IsLive(After(history, cap, rate, window), k) <==> tenure != [])
  {
    hide Ceiling, Charge, ChargeList, AccountOf;
    if !IsLive(After(history, cap, rate, window), k) {
      DeadAccountIsFresh(After(history, cap, rate, window), k);
    }
    if history != [] {
      var front, e := history[..|history| - 1], history[|history| - 1];
      var before, after := After(front, cap, rate, window), After(history, cap, rate, window);
      LedgerIsRun(front, cap, rate, window, k);
      if e.key == k {
        ChargedAccount(before, k, cap, e.now, rate(k), window);
        var earlier := Tenure(front, cap, rate, window, k);
        var tenure := earlier + [e.now];
        assert tenure[..|tenure| - 1] == earlier;
        ChargeIgnoresSlip(AccountOf(before, k), Run(earlier, rate(k), Ceiling(rate(k), window)), e.now, rate(k), Ceiling(rate(k), window));
      } else if IsLive(after, k) {
        OthersUntouched(before, e.key, cap, e.now, rate(e.key), window, k);
        assert Tenure(front, cap, rate, window, k) + [] == Tenure(front, cap, rate, window, k);
      }
    }
  }

  /** A charge is over exactly when it exhausts the run of the account's own charges since its creation. */
  lemma OverIsOwnRun<K>(history: seq<Event<K>>, cap: nat, rate: K -> real, window: real)
    requires cap >= 1 && history != []
    ensures var e := history[|history| - 1];
            var tenure := Tenure(history, cap, rate, window, e.key);
            && tenure != [] && tenure[|tenure| - 1] == e.now
            && (LastOver(history, cap, rate, window) <==> OverAtEnd(tenure, rate(e.key), Ceiling(rate(e.key), window)))
  {
    hide Ceiling, Charge, ChargeList, AccountOf, KeysOf;
    var front, e := history[..|history| - 1], history[|history| - 1];
    var before, earlier := After(front, cap, rate, window), Tenure(front, cap, rate, window, e.key);
    var ceiling := Ceiling(rate(e.key), window);
    LedgerIsRun(front, cap, rate, window, e.key);
    ChargedAccount(before, e.key, cap, e.now, rate(e.key), window);
    assert Tenure(history, cap, rate, window, e.key) == earlier + [e.now];
    var tenure := earlier + [e.now];
    assert tenure[..|tenure| - 1] == earlier;
    assert OverAtEnd(tenure, rate(e.key), ceiling) == Charge(Run(earlier, rate(e.key), ceiling), e.now, rate(e.key), ceiling).1;
    hide Tenure, After, Run, OverAtEnd;
    ChargeIgnoresSlip(AccountOf(before, e.key), Run(earlier, rate(e.key), ceiling), e.now, rate(e.key), ceiling);
  }

  /**
   The admission bound on a shard: between its creation and its eviction an account admits at
   most rate times window, plus rate times the span of its clock readings, whatever the other
   accounts of the shard do.
   */
  lemma ShardAdmissionBound<K>(history: seq<Event<K>>, cap: nat, rate: K -> real, window: real, k: K)
    requires cap >= 1 && rate(k) > 0.0 && window > 0.0
    requires IsLive(After(history, cap, rate, window), k)
    ensures var tenure := Tenure(history, cap, rate, window, k);
            tenure != [] &&
            Admitted(history, cap, rate, window, k) as real <=
              Ceiling(rate(k), window) + Earned(tenure[0], Latest(tenure), rate(k))
  {
    hide Ceiling, Earned, Run;
    LedgerIsRun(history, cap, rate, window, k);
    CeilingPositive(rate(k), window);
    AdmissionBound(Tenure(history, cap, rate, window, k), rate(k), Ceiling(rate(k), window));
  }
}
