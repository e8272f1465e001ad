/**
 The ephemeral TXT store (internal/ephemeral/store.go): values with an expiry under each name,
 and the sweep that collects expired ones. Names are already folded; the clock is a parameter.
 */
module Ephemeral {
  import opened Wrappers

  datatype Entry = Entry(value: string, expireAt: int)

  type Records = map<string, seq<Entry>>

  // ----- operations on values

  function Bucket(r: Records, name: string): seq<Entry> {
    if name in r then r[name] else []
  }

  /** The position of a value in a bucket, or the length. */
  function IndexOf(es: seq<Entry>, value: string): (i: nat)
    ensures i <= |es|
    ensures i < |es| ==> es[i].value == value
    ensures forall j :: 0 <= j < i ==> es[j].value != value
  {
    if es == [] then 0 else if es[0].value == value then 0 else 1 + IndexOf(es[1..], value)
  }

  function PutBucket(es: seq<Entry>, value: string, expiry: int): seq<Entry> {
    var i := IndexOf(es, value);
    if i < |es| then es[i := Entry(value, expiry)] else es + [Entry(value, expiry)]
  }

  function WithValue(r: Records, name: string, value: string, expiry: int): Records {
    if name == "" then r else r[name := PutBucket(Bucket(r, name), value, expiry)]
  }

  function WithoutName(r: Records, name: string): Records {
    if name == "" then r else r - {name}
  }

  /** The bucket stored back, or dropped once empty. */
  function Store(r: Records, name: string, es: seq<Entry>): Records {
    if es == [] then r - {name} else r[name := es]
  }

  function WithoutValue(r: Records, name: string, value: string): Records {
    var es := Bucket(r, name);
    var i := IndexOf(es, value);
    if name == "" || i == |es| then r else Store(r, name, es[..i] + es[i + 1..])
  }

  /** The entries that have not expired, in order. */
  function Alive(es: seq<Entry>, now: int): seq<Entry> {
    if es == [] then []
    else Alive(es[..|es| - 1], now) + if es[|es| - 1].expireAt > now then [es[|es| - 1]] else []
  }

  function Swept(r: Records, now: int): Records {
    map name | name in r && Alive(r[name], now) != [] :: Alive(r[name], now)
  }

  function Values(es: seq<Entry>): seq<string> {
    seq(|es|, i requires 0 <= i < |es| => es[i].value)
  }

  function Visible(r: Records, name: string, now: int): seq<string> {
    if name == "" then [] else Values(Alive(Bucket(r, name), now))
  }

  // ----- the store

  ghost predicate DistinctValues(es: seq<Entry>) {
    forall i, j :: 0 <= i < j < |es| ==> es[i].value != es[j].value
  }

  /** Values are unique under a name, and no empty bucket is kept. */
  ghost predicate Tidy(r: Records) {
    forall name :: name in r ==> name != "" && r[name] != [] && DistinctValues(r[name])
  }

  class EphemeralStore {
    var records: Records

    constructor ()
      ensures records == map[]
    {
      records := map[];
    }

    /** Adds a value or refreshes its expiry; returns how many the name now holds. */
    method Put(name: string, value: string, ttl: nat, now: int) returns (count: nat)
      modifies this
      ensures records == WithValue(old(records), name, value, now + ttl)
      ensures count == if name == "" then 0 else |records[name]|
    {
      if name == "" {
        return 0;
      }
      var entries := if name in records then records[name] else [];
      var i := 0;
      while i < |entries|
        invariant 0 <= i <= |entries|
        invariant forall j :: 0 <= j < i ==> entries[j].value != value
      {
        if entries[i].value == value {
          assert IndexOf(entries, value) == i;
          records := records[name := entries[i := Entry(value, now + ttl)]];
          return |entries|;
        }
        i := i + 1;
      }
      records := records[name := entries + [Entry(value, now + ttl)]];
      count := |entries| + 1;
    }

    /** Every unexpired value of the name, in insertion order. */
    method Lookup(name: string, now: int) returns (found: seq<string>, ok: bool)
      ensures found == Visible(records, name, now) && ok == (found != [])
    {
      if name == "" {
        return [], false;
      }
      var entries := if name in records then records[name] else [];
      found := [];
      for i := 0 to |entries|
        invariant found == Values(Alive(entries[..i], now))
      {
        assert entries[..i + 1][..i] == entries[..i];
        if entries[i].expireAt > now {
          found := found + [entries[i].value];
        }
      }
      assert entries[..|entries|] == entries;
      ok := found != [];
    }

    method Delete(name: string)
      modifies this
      ensures records == WithoutName(old(records), name)
    {
      if name == "" {
        return;
      }
      records := records - {name};
    }

    /** Removes the entry for a value, and the name with its last entry. */
    method DeleteValue(name: string, value: string) returns (removed: bool)
      modifies this
      ensures records == WithoutValue(old(records), name, value)
      ensures removed <==> name != "" && IndexOf(Bucket(old(records), name), value) < |Bucket(old(records), name)|
    {
      if name == "" || name !in records {
        return false;
      }
      var entries := records[name];
      var idx := IndexOf(entries, value);
      if idx == |entries| {
        return false;
      }
      entries := entries[..idx] + entries[idx + 1..];
      if |entries| == 0 {
        records := records - {name};
      } else {
        records := records[name := entries];
      }
      removed := true;
    }

    method Clear()
      modifies this
      ensures records == map[]
    {
      records := map[];
    }

    /** Drops expired entries from every bucket, and buckets left empty. */
    method GcSweep(now: int)
      modifies this
      ensures records == Swept(old(records), now)
    {
      ghost var before := records;
      var todo := records.Keys;
      assert records == PartlySwept(before, todo, now);
      while todo != {}
        invariant todo <= before.Keys && todo <= records.Keys
        invariant records == PartlySwept(before, todo, now)
        decreases todo
      {
        var name := Pick(todo);
        var kept := Compact(records[name], now);
        SweepOne(before, todo, name, now);
        todo := todo - {name};
        if |kept| == 0 {
          records := records - {name};
        } else {
          records := records[name := kept];
        }
      }
    }
  }

  /** The unexpired entries of one bucket. */
  method Compact(entries: seq<Entry>, now: int) returns (kept: seq<Entry>)
    ensures kept == Alive(entries, now)
  {
    kept := [];
    for i := 0 to |entries|
      invariant kept == Alive(entries[..i], now)
    {
      assert entries[..i + 1][..i] == entries[..i];
      if entries[i].expireAt > now {
        kept := kept + [entries[i]];
      }
    }
    assert entries[..|entries|] == entries;
  }

  /** Every bucket outside `todo` swept. */
  function PartlySwept(r: Records, todo: set<string>, now: int): Records {
    map name | name in r && (name in todo || Alive(r[name], now) != []) ::
      if name in todo then r[name] else Alive(r[name], now)
  }

  lemma SweepOne(r: Records, todo: set<string>, name: string, now: int)
    requires name in todo && todo <= r.Keys
    ensures PartlySwept(r, todo, now)[name] == r[name]
    ensures PartlySwept(r, todo - {name}, now) == Store(PartlySwept(r, todo, now), name, Alive(r[name], now))
    ensures todo - {name} <= PartlySwept(r, todo - {name}, now).Keys
  {
  }

  // ----- runs

  datatype Op = OpPut(name: string, value: string, ttl: nat) | OpDelete(name: string)
              | OpDeleteValue(name: string, value: string) | OpClear | OpSweep

  datatype Event = Event(op: Op, now: int)

  function Apply(r: Records, e: Event): Records {
    match e.op
    case OpPut(name, value, ttl) => WithValue(r, name, value, e.now + ttl)
    case OpDelete(name) => WithoutName(r, name)
    case OpDeleteValue(name, value) => WithoutValue(r, name, value)
    case OpClear => map[]
    case OpSweep => Swept(r, e.now)
  }

  function Run(events: seq<Event>): Records {
    if events == [] then map[] else Apply(Run(events[..|events| - 1]), events[|events| - 1])
  }

  /** The same run without its sweeps. */
  function Unswept(events: seq<Event>): seq<Event> {
    if events == [] then []
    else Unswept(events[..|events| - 1]) + if events[|events| - 1].op.OpSweep? then [] else [events[|events| - 1]]
  }

  /** No sweep has read the clock later than `now`; the other readings may come in any order. */
  ghost predicate SweptBefore(events: seq<Event>, now: int) {
    forall i :: 0 <= i < |events| && events[i].op.OpSweep? ==> events[i].now <= now
  }

  lemma {:induction false} AliveMembers(es: seq<Entry>, now: int)
    ensures forall e :: e in Alive(es, now) <==> e in es && e.expireAt > now
    ensures DistinctValues(es) ==> DistinctValues(Alive(es, now))
  {
    if es != [] {
      var front := es[..|es| - 1];
      AliveMembers(front, now);
      assert es == front + [es[|es| - 1]];
      forall i | 0 <= i < |Alive(front, now)| && DistinctValues(es)
        ensures Alive(front, now)[i].value != es[|es| - 1].value
      {
        assert Alive(front, now)[i] in front;
      }
    }
  }

  lemma PutMembers(es: seq<Entry>, value: string, expiry: int)
    requires DistinctValues(es)
    ensures forall e :: e in PutBucket(es, value, expiry) <==> e == Entry(value, expiry) || (e in es && e.value != value)
    ensures DistinctValues(PutBucket(es, value, expiry)) && PutBucket(es, value, expiry) != []
  {
    var i, r := IndexOf(es, value), PutBucket(es, value, expiry);
    if i < |es| {
      assert r[i] == Entry(value, expiry);
      forall e | e in es && e.value != value ensures e in r {
        var j :| 0 <= j < |es| && es[j] == e;
        assert r[j] == e;
      }
    }
  }

  lemma RemoveMembers(es: seq<Entry>, i: nat)
    requires i < |es| && DistinctValues(es)
    ensures forall e :: e in es[..i] + es[i + 1..] <==> e in es && e.value != es[i].value
    ensures DistinctValues(es[..i] + es[i + 1..])
  {
    RemoveDistinct(es, i);
    OthersDiffer(es, i);
    assert es == es[..i] + ([es[i]] + es[i + 1..]);
    hide DistinctValues;
  }

  lemma OthersDiffer(es: seq<Entry>, i: nat)
    requires i < |es| && DistinctValues(es)
    ensures forall e :: e in es[..i] || e in es[i + 1..] ==> e.value != es[i].value
  {
  }

  lemma RemoveDistinct(es: seq<Entry>, i: nat)
    requires i < |es| && DistinctValues(es)
    ensures DistinctValues(es[..i] + es[i + 1..])
  {
    var r := es[..i] + es[i + 1..];
    assert forall j :: 0 <= j < |r| ==> r[j] == es[if j < i then j else j + 1];
  }

  lemma StoreTidy(r: Records, name: string, es: seq<Entry>)
    requires Tidy(r) && name != "" && DistinctValues(es)
    ensures Tidy(Store(r, name, es))
  {
    hide DistinctValues;
  }

  lemma SweptTidy(r: Records, now: int)
    requires Tidy(r)
    ensures Tidy(Swept(r, now))
  {
    forall name | name in Swept(r, now) ensures DistinctValues(Swept(r, now)[name]) {
      AliveMembers(r[name], now);
    }
    hide DistinctValues, Alive;
  }

  lemma ApplyKeepsTidy(r: Records, e: Event)
    requires Tidy(r)
    ensures Tidy(Apply(r, e))
  {
    match e.op
    case OpPut(name, value, ttl) =>
      assert DistinctValues(Bucket(r, name));
      PutMembers(Bucket(r, name), value, e.now + ttl);
      if name != "" {
        StoreTidy(r, name, PutBucket(Bucket(r, name), value, e.now + ttl));
      }
      hide Tidy, DistinctValues, PutBucket;
    case OpDelete(name) =>
      hide DistinctValues;
    case OpDeleteValue(name, value) =>
      var es := Bucket(r, name);
      assert DistinctValues(es);
      var i := IndexOf(es, value);
      if i < |es| && name != "" {
        RemoveMembers(es, i);
        StoreTidy(r, name, es[..i] + es[i + 1..]);
      }
      hide Tidy, DistinctValues, IndexOf;
    case OpClear =>
    case OpSweep => SweptTidy(r, e.now);
  }

  /** Whatever the operations and the clock, values stay unique and no empty bucket is kept. */
  lemma {:induction false} RunsStayTidy(events: seq<Event>)
    ensures Tidy(Run(events))
  {
    if events != [] {
      RunsStayTidy(events[..|events| - 1]);
      ApplyKeepsTidy(Run(events[..|events| - 1]), events[|events| - 1]);
    }
  }

  /** es and fs hold the same entries among those still alive at `now`. */
  ghost predicate SameEntries(es: seq<Entry>, fs: seq<Entry>, now: int) {
    forall e: Entry :: e.expireAt > now ==> (e in es <==> e in fs)
  }

  ghost predicate SameAlive(a: Records, b: Records, now: int) {
    forall name :: SameEntries(Bucket(a, name), Bucket(b, name), now)
  }

  lemma SweptSameAlive(a: Records, b: Records, swept: int, now: int)
    requires SameAlive(a, b, now) && swept <= now
    ensures SameAlive(Swept(a, swept), b, now)
  {
    forall name ensures SameEntries(Bucket(Swept(a, swept), name), Bucket(b, name), now) {
      AliveMembers(Bucket(a, name), swept);
      assert SameEntries(Bucket(a, name), Bucket(b, name), now);
    }
  }

  /** The bucket of a value removed from es. */
  function Removed(es: seq<Entry>, value: string): seq<Entry> {
    var i := IndexOf(es, value);
    if i == |es| then es else es[..i] + es[i + 1..]
  }

  /** An operation other than a sweep rewrites one bucket, or all. */
  function BucketAfter(es: seq<Entry>, name: string, e: Event): seq<Entry> {
    match e.op
    case OpPut(n, value, ttl) => if n == name && n != "" then PutBucket(es, value, e.now + ttl) else es
    case OpDelete(n) => if n == name && n != "" then [] else es
    case OpDeleteValue(n, value) => if n == name && n != "" then Removed(es, value) else es
    case OpClear => []
    case OpSweep => es
  }

  lemma ApplyByBucket(r: Records, e: Event, name: string)
    requires !e.op.OpSweep?
    ensures Bucket(Apply(r, e), name) == BucketAfter(Bucket(r, name), name, e)
  {
    hide IndexOf, PutBucket;
    match e.op
    case OpPut(n, value, ttl) =>
    case OpDelete(n) =>
    case OpDeleteValue(n, value) => BucketWithoutValue(r, n, value, name);
    case OpClear =>
  }

  lemma BucketWithoutValue(r: Records, n: string, value: string, name: string)
    ensures Bucket(WithoutValue(r, n, value), name) ==
            if n == name && n != "" then Removed(Bucket(r, name), value) else Bucket(r, name)
  {
    hide IndexOf;
  }

  lemma BucketSameAlive(es: seq<Entry>, fs: seq<Entry>, name: string, e: Event, now: int)
    requires DistinctValues(es) && DistinctValues(fs) && SameEntries(es, fs, now)
    ensures SameEntries(BucketAfter(es, name, e), BucketAfter(fs, name, e), now)
  {
    match e.op
    case OpPut(_, value, ttl) =>
      PutMembers(es, value, e.now + ttl);
      PutMembers(fs, value, e.now + ttl);
    case OpDeleteValue(_, value) =>
      RemovedMembers(es, value);
      RemovedMembers(fs, value);
    case _ =>
  }

  lemma RemovedMembers(es: seq<Entry>, value: string)
    requires DistinctValues(es)
    ensures forall e :: e in Removed(es, value) <==> e in es && e.value != value
  {
    var i := IndexOf(es, value);
    if i < |es| {
      RemoveMembers(es, i);
    }
  }

  lemma ApplySameAlive(a: Records, b: Records, e: Event, now: int)
    requires Tidy(a) && Tidy(b) && SameAlive(a, b, now) && !e.op.OpSweep?
    ensures SameAlive(Apply(a, e), Apply(b, e), now)
  {
    forall name ensures SameEntries(Bucket(Apply(a, e), name), Bucket(Apply(b, e), name), now) {
      ApplyByBucket(a, e, name);
      ApplyByBucket(b, e, name);
      assert SameEntries(Bucket(a, name), Bucket(b, name), now);
      BucketSameAlive(Bucket(a, name), Bucket(b, name), name, e, now);
      hide Apply, SameEntries, BucketAfter;
    }
  }

  lemma {:induction false} SweepsKeepAlive(events: seq<Event>, now: int)
    requires SweptBefore(events, now)
    ensures SameAlive(Run(events), Run(Unswept(events)), now)
  {
    if events != [] {
      var front, e := events[..|events| - 1], events[|events| - 1];
      SweepsKeepAlive(front, now);
      RunsStayTidy(front);
      RunsStayTidy(Unswept(front));
      var a, b := Run(front), Run(Unswept(front));
      if e.op.OpSweep? {
        assert Unswept(events) == Unswept(front);
        SweptSameAlive(a, b, e.now, now);
      } else {
        var kept := Unswept(events);
        assert kept[..|kept| - 1] == Unswept(front);
        hide Apply, Tidy, SameAlive;
        ApplySameAlive(a, b, e, now);
      }
    }
  }

  /**
   Garbage collection cannot be seen. Sweeps inserted anywhere in a run leave a lookup with the
   same set of values, as long as none of them read the clock later than the lookup. The readings
   need not be in the order of the operations: Put and the sweep read the clock before they lock.
   */
  lemma {:induction false} SweepsAreInvisible(events: seq<Event>, name: string, now: int)
    requires SweptBefore(events, now)
    ensures (set v | v in Visible(Run(events), name, now)) == (set v | v in Visible(Run(Unswept(events)), name, now))
  {
    SweepsKeepAlive(events, now);
    var a, b := Run(events), Run(Unswept(events));
    assert SameEntries(Bucket(a, name), Bucket(b, name), now);
    forall v ensures v in Visible(a, name, now) <==> v in Visible(b, name, now) {
      if v in Visible(a, name, now) { VisibleInBoth(Bucket(a, name), Bucket(b, name), now, v); }
      if v in Visible(b, name, now) { VisibleInBoth(Bucket(b, name), Bucket(a, name), now, v); }
    }
  }

  lemma VisibleInBoth(es: seq<Entry>, fs: seq<Entry>, now: int, v: string)
    requires SameEntries(es, fs, now) && v in Values(Alive(es, now))
    ensures v in Values(Alive(fs, now))
  {
    AliveMembers(es, now);
    AliveMembers(fs, now);
    var alive := Alive(es, now);
    var i :| 0 <= i < |alive| && alive[i].value == v;
    assert alive[i] in alive && alive[i] in Alive(fs, now);
    var j :| 0 <= j < |Alive(fs, now)| && Alive(fs, now)[j] == alive[i];
    assert Values(Alive(fs, now))[j] == v;
  }

  // ----- what lookups see of the operations

  /** A lookup at `at` finds v under the name: some entry holds it that expires later. */
  lemma VisibleValues(r: Records, name: string, at: int, v: string)
    ensures v in Visible(r, name, at) <==> name != "" && Holds(Bucket(r, name), v, at)
  {
    var alive := Alive(Bucket(r, name), at);
    AliveMembers(Bucket(r, name), at);
    assert forall i :: 0 <= i < |alive| ==> Values(alive)[i] == alive[i].value;
    if name != "" && v in Visible(r, name, at) {
      var i :| 0 <= i < |alive| && Values(alive)[i] == v;
      assert alive[i] in alive;
    }
    if name != "" && exists e :: e in Bucket(r, name) && e.value == v && e.expireAt > at {
      var e :| e in Bucket(r, name) && e.value == v && e.expireAt > at;
      assert e in alive;
      var i :| 0 <= i < |alive| && alive[i] == e;
      assert Values(alive)[i] == v;
    }
  }

  /** Some entry holds v and expires later than `at`. */
  predicate Holds(es: seq<Entry>, v: string, at: int) {
    exists e :: e in es && e.value == v && e.expireAt > at
  }

  lemma PutBucketHolds(es: seq<Entry>, value: string, expiry: int, v: string, at: int)
    requires DistinctValues(es)
    ensures Holds(PutBucket(es, value, expiry), v, at) <==> if v == value then at < expiry else Holds(es, v, at)
  {
    PutMembers(es, value, expiry);
    assert Entry(value, expiry) in PutBucket(es, value, expiry);
    hide PutBucket, DistinctValues;
  }

  lemma TidyBucket(r: Records, name: string)
    requires Tidy(r)
    ensures DistinctValues(Bucket(r, name))
  {
    if name in r {
      hide DistinctValues;
    }
  }

  lemma BucketAfterPut(r: Records, name: string, value: string, expiry: int, other: string)
    requires name != ""
    ensures Bucket(WithValue(r, name, value, expiry), other) ==
            if other == name then PutBucket(Bucket(r, other), value, expiry) else Bucket(r, other)
  {
    hide PutBucket;
  }

  /** A value put is seen under its name until its time is up; nothing else changes. */
  lemma PutIsSeen(r: Records, name: string, value: string, ttl: nat, now: int, other: string, at: int, v: string)
    requires Tidy(r) && name != ""
    ensures v in Visible(WithValue(r, name, value, now + ttl), other, at) <==>
            if other == name && v == value then at < now + ttl else v in Visible(r, other, at)
  {
    hide *;
    var es, after := Bucket(r, other), WithValue(r, name, value, now + ttl);
    TidyBucket(r, other);
    BucketAfterPut(r, name, value, now + ttl, other);
    VisibleValues(r, other, at, v);
    VisibleValues(after, other, at, v);
    PutBucketHolds(es, value, now + ttl, v, at);
  }

  /** Values stand in the order of their first puts; a refresh keeps the place. */
  lemma PutKeepsOrder(es: seq<Entry>, value: string, expiry: int)
    ensures var after := PutBucket(es, value, expiry);
            && (forall i :: 0 <= i < |es| ==> after[i].value == es[i].value)
            && |after| == |es| + (if exists i :: 0 <= i < |es| && es[i].value == value then 0 else 1)
            && (|after| > |es| ==> after[|es|] == Entry(value, expiry))
            && forall i :: 0 <= i < |es| && es[i].value != value ==> after[i] == es[i]
  {
    var i := IndexOf(es, value);
    if i < |es| {
      assert es[i].value == value;
    }
  }

  /** A deleted name shows nothing, a deleted value no longer shows; the rest does as before. */
  lemma DeletesAreSeen(r: Records, name: string, value: string, other: string, at: int, v: string)
    requires Tidy(r) && name != ""
    ensures v in Visible(WithoutName(r, name), other, at) <==> other != name && v in Visible(r, other, at)
    ensures v in Visible(WithoutValue(r, name, value), other, at) <==>
            !(other == name && v == value) && v in Visible(r, other, at)
  {
    var es := Bucket(r, other);
    VisibleValues(r, other, at, v);
    VisibleValues(WithoutName(r, name), other, at, v);
    VisibleValues(WithoutValue(r, name, value), other, at, v);
    BucketWithoutValue(r, name, value, other);
    if other == name {
      assert DistinctValues(es);
      RemovedMembers(es, value);
    }
    hide WithoutValue, Removed, Visible, DistinctValues;
  }

  /** A sweep takes out exactly what has expired by its reading, and names left with nothing. */
  lemma SweepTakesExpired(r: Records, now: int, name: string, e: Entry)
    ensures e in Bucket(Swept(r, now), name) <==> e in Bucket(r, name) && e.expireAt > now
    ensures name in Swept(r, now) <==> exists x :: x in Bucket(r, name) && x.expireAt > now
  {
    AliveMembers(Bucket(r, name), now);
    if name in r && Alive(r[name], now) != [] {
      assert Alive(r[name], now)[0] in Alive(r[name], now);
    }
    hide Alive, DistinctValues;
  }

  /** Nothing is kept under the empty name. */
  lemma EmptyNameIsIgnored(r: Records, value: string, expiry: int, at: int)
    ensures WithValue(r, "", value, expiry) == WithoutName(r, "") == WithoutValue(r, "", value) == r
    ensures Visible(r, "", at) == []
  {
  }

  lemma RunPush(events: seq<Event>, e: Event)
    ensures Run(events + [e]) == Apply(Run(events), e)
  {
    assert (events + [e])[..|events|] == events;
  }

  lemma PutTwo(x: Entry, name: string, value: string, expiry: int)
    requires name != "" && x.value != value
    ensures WithValue(map[name := [x]], name, value, expiry) == map[name := [x, Entry(value, expiry)]]
  {
    assert [x][1..] == [];
    assert [x] + [Entry(value, expiry)] == [x, Entry(value, expiry)];
    assert map[name := [x]][name := [x, Entry(value, expiry)]] == map[name := [x, Entry(value, expiry)]];
  }

  lemma PutFirst(name: string, value: string, expiry: int)
    requires name != ""
    ensures WithValue(map[], name, value, expiry) == map[name := [Entry(value, expiry)]]
  {
    assert [] + [Entry(value, expiry)] == [Entry(value, expiry)];
  }

  lemma RefreshFirst(x: Entry, y: Entry, name: string, expiry: int)
    requires name != ""
    ensures WithValue(map[name := [x, y]], name, x.value, expiry) == map[name := [Entry(x.value, expiry), y]]
  {
    assert IndexOf([x, y], x.value) == 0;
    assert [x, y][0 := Entry(x.value, expiry)] == [Entry(x.value, expiry), y];
    assert map[name := [x, y]][name := [Entry(x.value, expiry), y]] == map[name := [Entry(x.value, expiry), y]];
  }

  lemma SweepTwo(x: Entry, y: Entry, name: string, now: int)
    requires x.expireAt <= now < y.expireAt
    ensures Swept(map[name := [x, y]], now) == map[name := [y]]
  {
    AliveTwo(x, y, now);
    assert [] + [y] == [y];
  }

  lemma TwoPuts()
    ensures Run([Event(OpPut("n.", "x", 1), 0)] + [Event(OpPut("n.", "y", 9), 0)]) == map["n." := [Entry("x", 1), Entry("y", 9)]]
  {
    var p0, p1 := Event(OpPut("n.", "x", 1), 0), Event(OpPut("n.", "y", 9), 0);
    RunPush([], p0);
    assert [] + [p0] == [p0];
    RunPush([p0], p1);
    PutFirst("n.", "x", 1);
    PutTwo(Entry("x", 1), "n.", "y", 9);
    hide Swept, WithValue, Run;
  }

  /** Only the set is kept: a sweep can change the order a later refresh leaves behind. */
  lemma SweepCanReorder()
    ensures var put, refresh := [Event(OpPut("n.", "x", 1), 0)] + [Event(OpPut("n.", "y", 9), 0)], [Event(OpPut("n.", "x", 9), 5)];
            && Run(put + refresh) == map["n." := [Entry("x", 14), Entry("y", 9)]]
            && Run(put + [Event(OpSweep, 5)] + refresh) == map["n." := [Entry("y", 9), Entry("x", 14)]]
  {
    var put, refresh := [Event(OpPut("n.", "x", 1), 0)] + [Event(OpPut("n.", "y", 9), 0)], Event(OpPut("n.", "x", 9), 5);
    var x, y, sweep := Entry("x", 1), Entry("y", 9), Event(OpSweep, 5);
    TwoPuts();
    RunPush(put, refresh);
    RunPush(put, sweep);
    RunPush(put + [sweep], refresh);
    RefreshFirst(x, y, "n.", 14);
    SweepTwo(x, y, "n.", 5);
    PutTwo(y, "n.", "x", 14);
    hide Swept, WithValue, Run;
  }

  lemma AliveTwo(x: Entry, y: Entry, now: int)
    ensures Alive([x, y], now) == (if x.expireAt > now then [x] else []) + (if y.expireAt > now then [y] else [])
  {
    assert [x, y][..1] == [x] && [x][..0] == [];
    assert Alive([x], now) == if x.expireAt > now then [x] else [];
  }
}
