/**
 A zone's records as a value, and what the zone operations compute on it
 (internal/zone/zone.go, collapse.go). The classes of module ZoneStore are proved to
 compute these functions; the answer pipeline is stated over these values.
 */
module ZoneData {
  import opened Wrappers
  import opened DnsNames
  import opened Records

  type Store = map<RRType, seq<RR>>

  datatype Zone = Zone(origin: Name, recs: map<Name, Store>, soa: Option<RR>)

  predicate NoDuplicates(rrs: seq<RR>) {
    forall i, j :: 0 <= i < j < |rrs| ==> !Duplicate(rrs[i], rrs[j])
  }

  predicate RRsetOk(o: Name, t: RRType, rrs: seq<RR>) {
    && rrs != []
    && NoDuplicates(rrs)
    && (forall i :: 0 <= i < |rrs| ==> rrs[i].owner == o && rrs[i].rtype == t && WellTyped(rrs[i]))
  }

  /** No empty RRset and no empty owner; every record filed under its own owner and type. */
  ghost predicate WellFormed(z: Zone) {
    && (forall o :: o in z.recs ==> z.recs[o] != map[])
    && (forall o, t :: o in z.recs && t in z.recs[o] ==> RRsetOk(o, t, z.recs[o][t]))
    && (z.soa.Some? ==> z.soa.value.data.Soa? && WellTyped(z.soa.value) &&
                        z.soa.value in Lookup(z, z.soa.value.owner, TYPE_SOA))
  }

  /** What the zone parser adds: a non-root origin, and no owner outside the zone. */
  ghost predicate InBailiwick(z: Zone) {
    && z.origin != []
    && (forall o :: o in z.recs ==> InZone(o, z.origin))
  }

  function Lookup(z: Zone, o: Name, t: RRType): seq<RR> {
    if o in z.recs && t in z.recs[o] then z.recs[o][t] else []
  }

  lemma LookupOk(z: Zone, o: Name, t: RRType)
    requires WellFormed(z)
    ensures Lookup(z, o, t) != [] ==> RRsetOk(o, t, Lookup(z, o, t))
    ensures Lookup(z, o, t) != [] <==> o in z.recs && t in z.recs[o]
  {
  }

  // ----- insertion

  predicate HasDuplicate(rrs: seq<RR>, rr: RR) {
    exists i :: 0 <= i < |rrs| && Duplicate(rrs[i], rr)
  }

  function Add(z: Zone, rr: RR): Zone {
    var rrs := Lookup(z, rr.owner, rr.rtype);
    if HasDuplicate(rrs, rr) then z
    else
      var store := if rr.owner in z.recs then z.recs[rr.owner] else map[];
      Zone(z.origin, z.recs[rr.owner := store[rr.rtype := rrs + [rr]]],
           if rr.data.Soa? then Some(rr) else z.soa)
  }

  /** Insertion appends to one RRset unless the record is already there, and touches no other. */
  lemma AddLookup(z: Zone, rr: RR, o: Name, t: RRType)
    ensures Lookup(Add(z, rr), o, t) ==
            if o == rr.owner && t == rr.rtype && !HasDuplicate(Lookup(z, o, t), rr)
            then Lookup(z, o, t) + [rr] else Lookup(z, o, t)
  {
  }

  /**
   A record is stored exactly when the RRset has none with the same data: a second copy with
   another TTL is dropped, and a record with other data never is.
   */
  lemma StoredUnlessSameData(z: Zone, rr: RR)
    requires WellFormed(z)
    ensures var rrs := Lookup(z, rr.owner, rr.rtype);
            && ((exists i :: 0 <= i < |rrs| && rrs[i].data == rr.data) ==> Add(z, rr) == z)
            && ((forall i :: 0 <= i < |rrs| ==> rrs[i].data != rr.data) ==>
                  Lookup(Add(z, rr), rr.owner, rr.rtype) == rrs + [rr] && (rr.data.Soa? ==> Add(z, rr).soa == Some(rr)))
  {
    LookupOk(z, rr.owner, rr.rtype);
  }

  lemma AddKeepsWellFormed(z: Zone, rr: RR)
    requires WellFormed(z) && WellTyped(rr)
    ensures WellFormed(Add(z, rr))
    ensures InBailiwick(z) && InZone(rr.owner, z.origin) ==> InBailiwick(Add(z, rr))
  {
    var z' := Add(z, rr);
    assert !HasDuplicate(Lookup(z, rr.owner, rr.rtype), rr) ==> rr.rtype in z'.recs[rr.owner];
    forall o, t | o in z'.recs && t in z'.recs[o]
      ensures RRsetOk(o, t, z'.recs[o][t])
    {
      AddLookup(z, rr, o, t);
      LookupOk(z, o, t);
    }
    AddKeepsSoa(z, rr);
    hide RRsetOk, HasDuplicate, WellTyped;
  }

  lemma AddKeepsSoa(z: Zone, rr: RR)
    requires WellTyped(rr)
    requires z.soa.Some? ==> z.soa.value in Lookup(z, z.soa.value.owner, TYPE_SOA)
    ensures var z' := Add(z, rr); z'.soa.Some? ==> z'.soa.value in Lookup(z', z'.soa.value.owner, TYPE_SOA)
  {
    var z' := Add(z, rr);
    if z'.soa.Some? {
      var soa := z'.soa.value;
      AddLookup(z, rr, soa.owner, TYPE_SOA);
      var rrs := Lookup(z, soa.owner, TYPE_SOA);
      assert (soa in rrs ==> soa in rrs + [rr]) && rr in rrs + [rr];
    }
  }

  /** Loading a zone file: records are inserted in file order, out-of-zone owners are skipped. */
  function Load(z: Zone, rrs: seq<RR>): Zone
    decreases |rrs|
  {
    if rrs == [] then z
    else Load(if InZone(rrs[0].owner, z.origin) then Add(z, rrs[0]) else z, rrs[1..])
  }

  /** Every zone loaded from typed records is well formed and holds no out-of-zone owner. */
  lemma {:induction false} LoadedZoneOk(z: Zone, rrs: seq<RR>)
    requires WellFormed(z) && InBailiwick(z)
    requires forall i :: 0 <= i < |rrs| ==> WellTyped(rrs[i])
    decreases |rrs|
    ensures WellFormed(Load(z, rrs)) && InBailiwick(Load(z, rrs)) && Load(z, rrs).origin == z.origin
  {
    if rrs != [] {
      AddKeepsWellFormed(z, rrs[0]);
      LoadedZoneOk(if InZone(rrs[0].owner, z.origin) then Add(z, rrs[0]) else z, rrs[1..]);
    }
  }

  /** Every stored SOA record is known to the zone as one. */
  ghost predicate KnowsSOA(z: Zone) {
    (exists o :: Lookup(z, o, TYPE_SOA) != []) ==> z.soa.Some?
  }

  lemma AddKnowsSOA(z: Zone, rr: RR)
    requires KnowsSOA(z) && WellTyped(rr)
    ensures KnowsSOA(Add(z, rr)) && Add(z, rr).origin == z.origin
    ensures Add(z, rr).soa.Some? <==> z.soa.Some? || rr.data.Soa?
  {
    forall o | Lookup(Add(z, rr), o, TYPE_SOA) != [] ensures Add(z, rr).soa.Some? {
      AddLookup(z, rr, o, TYPE_SOA);
    }
    assert HasDuplicate(Lookup(z, rr.owner, rr.rtype), rr) ==> Lookup(z, rr.owner, rr.rtype) != [];
  }

  /** A loaded zone has an SOA exactly when its file has one inside the zone. */
  lemma {:induction false} LoadedSOA(z: Zone, rrs: seq<RR>)
    requires KnowsSOA(z) && forall i :: 0 <= i < |rrs| ==> WellTyped(rrs[i])
    ensures Load(z, rrs).soa.Some? <==> z.soa.Some? || exists i :: 0 <= i < |rrs| && InZone(rrs[i].owner, z.origin) && rrs[i].data.Soa?
    decreases |rrs|
  {
    if rrs != [] {
      var rr := rrs[0];
      var next := if InZone(rr.owner, z.origin) then Add(z, rr) else z;
      AddKnowsSOA(z, rr);
      LoadedSOA(next, rrs[1..]);
      hide Add, KnowsSOA, InZone, WellTyped;
      assert forall i :: 0 <= i < |rrs| - 1 ==> rrs[1..][i] == rrs[i + 1];
      assert forall i :: 1 <= i < |rrs| ==> rrs[i] == rrs[1..][i - 1];
    }
  }

  // ----- backup zones

  function OverridableOnly(s: Store): Store {
    map t | t in s && Overridable(t) :: s[t]
  }

  /** What a backup zone keeps of its file: the overridable types, no SOA, no emptied owner. */
  function BackupFilter(z: Zone): Zone {
    Zone(z.origin, map o | o in z.recs && OverridableOnly(z.recs[o]) != map[] :: OverridableOnly(z.recs[o]), None)
  }

  /** Stripping keeps the overridable RRsets as they are, drops the others, and stays well formed. */
  lemma BackupFilterKeeps(z: Zone)
    requires WellFormed(z)
    ensures WellFormed(BackupFilter(z))
    ensures InBailiwick(z) ==> InBailiwick(BackupFilter(z))
    ensures forall o, t :: Lookup(BackupFilter(z), o, t) == if t == 15 || t == 16 || t == 33 then Lookup(z, o, t) else []
    ensures BackupFilter(z).origin == z.origin && BackupFilter(z).soa == None
  {
    forall o, t
      ensures Lookup(BackupFilter(z), o, t) == if Overridable(t) then Lookup(z, o, t) else []
    {
      if o in z.recs && OverridableOnly(z.recs[o]) == map[] {
        assert t !in OverridableOnly(z.recs[o]);
      }
    }
  }

  // ----- wildcard lookup

  function WildcardAt(p: Name): Name {
    [WILDCARD] + p
  }

  /** The wildcard owner found walking up from `name`, which lies strictly below the origin. */
  function WildcardWalk(z: Zone, name: Name): (w: Option<Name>)
    requires InZone(name, z.origin) && |name| > |z.origin|
    ensures w.Some? ==> w.value in z.recs
  {
    var parent := name[1..];
    assert parent[|parent| - |z.origin|..] == name[|name| - |z.origin|..];
    assert parent[0..] == parent;
    if WildcardAt(parent) in z.recs then Some(WildcardAt(parent))
    else if parent == z.origin || parent in z.recs then None
    else WildcardWalk(z, parent)
  }

  function WildcardOwner(z: Zone, q: Name): (w: Option<Name>)
    ensures w.Some? ==> w.value in z.recs
  {
    if InZone(q, z.origin) && |q| > |z.origin| then WildcardWalk(z, q) else None
  }

  /** One step of the walk, for any name other than the origin. */
  lemma WildcardStep(z: Zone, name: Name)
    requires name != z.origin
    ensures name == [] ==> WildcardOwner(z, name) == None
    ensures name != [] ==>
            var parent := name[1..];
            WildcardOwner(z, name) ==
            if !InZone(parent, z.origin) then None
            else if WildcardAt(parent) in z.recs then Some(WildcardAt(parent))
            else if parent == z.origin || parent in z.recs then None
            else WildcardOwner(z, parent)
  {
    if name != [] {
      ParentInZone(name, z.origin);
      assert name[1..][0..] == name[1..];
    }
  }

  /** The RRset of type t at the covering wildcard; type 0 only asks whether there is one. */
  function LookupWildcard(z: Zone, q: Name, t: RRType): (seq<RR>, bool) {
    match WildcardOwner(z, q)
    case None => ([], false)
    case Some(w) => if t == 0 then ([], z.recs[w] != map[]) else (Lookup(z, w, t), true)
  }

  function HasWildcard(z: Zone, q: Name): bool {
    LookupWildcard(z, q, 0).1
  }

  /** w is the wildcard at q's proper ancestor q[k..], and no nearer ancestor blocks or covers. */
  ghost predicate NearestWildcard(z: Zone, q: Name, k: int, w: Name) {
    && 1 <= k <= |q| - |z.origin|
    && w == WildcardAt(q[k..]) && w in z.recs
    && (forall j :: 1 <= j < k ==> q[j..] !in z.recs && WildcardAt(q[j..]) !in z.recs)
  }

  /** What the walk finds is nearest. */
  lemma {:induction false} WalkFindsNearest(z: Zone, q: Name) returns (k: int)
    requires InZone(q, z.origin) && |q| > |z.origin| && WildcardWalk(z, q).Some?
    ensures NearestWildcard(z, q, k, WildcardWalk(z, q).value)
    decreases |q|
  {
    var parent := q[1..];
    k := 1;
    if WildcardAt(parent) !in z.recs {
      ParentInZone(q, z.origin);
      assert parent[0..] == parent;
      k := WalkFindsNearest(z, parent);
      assert forall j :: 1 <= j <= |parent| ==> parent[j..] == q[j + 1..];
      forall j | 1 <= j < k + 1
        ensures q[j..] !in z.recs && WildcardAt(q[j..]) !in z.recs
      {
        assert j > 1 ==> q[j..] == parent[j - 1..];
      }
      k := k + 1;
    }
  }

  /** What is nearest, the walk finds. */
  lemma {:induction false} NearestIsWalked(z: Zone, q: Name, k: int, w: Name)
    requires InZone(q, z.origin) && NearestWildcard(z, q, k, w)
    ensures |q| > |z.origin| && WildcardWalk(z, q) == Some(w)
    decreases |q|
  {
    var parent := q[1..];
    if k > 1 {
      ParentInZone(q, z.origin);
      assert parent[0..] == parent;
      assert q[1..] == parent && parent !in z.recs && WildcardAt(parent) !in z.recs;
      assert forall j :: 1 <= j <= |parent| ==> parent[j..] == q[j + 1..];
      assert NearestWildcard(z, parent, k - 1, w);
      NearestIsWalked(z, parent, k - 1, w);
    }
  }

  /**
   The nearest-ancestor rule: the wildcard used is the one at the nearest proper ancestor, at
   or below the origin, that has a wildcard below it, provided no strictly nearer ancestor
   owns records.
   */
  lemma WildcardOwnerIsNearest(z: Zone, q: Name, w: Name)
    ensures WildcardOwner(z, q) == Some(w) <==>
            InZone(q, z.origin) && exists k :: NearestWildcard(z, q, k, w)
  {
    if WildcardOwner(z, q) == Some(w) {
      var _ := WalkFindsNearest(z, q);
    }
    if InZone(q, z.origin) && exists k :: NearestWildcard(z, q, k, w) {
      var k :| NearestWildcard(z, q, k, w);
      NearestIsWalked(z, q, k, w);
    }
  }

  /** Whether a wildcard covers q does not depend on the type asked for. */
  lemma WildcardFoundForAllTypes(z: Zone, q: Name, t: RRType)
    requires WellFormed(z)
    ensures LookupWildcard(z, q, t).1 == HasWildcard(z, q)
    ensures HasWildcard(z, q) <==> InZone(q, z.origin) && exists k, w :: NearestWildcard(z, q, k, w)
  {
    match WildcardOwner(z, q)
    case Some(w) => WildcardOwnerIsNearest(z, q, w);
    case None =>
      if InZone(q, z.origin) && exists k, w :: NearestWildcard(z, q, k, w) {
        var k, w :| NearestWildcard(z, q, k, w);
        WildcardOwnerIsNearest(z, q, w);
        assert false;
      }
  }

  /** The records of the nearest wildcard: its RRset of the type as stored, or none if it has no such type. */
  lemma WildcardRecords(z: Zone, q: Name, k: int, w: Name, t: RRType)
    requires InZone(q, z.origin) && NearestWildcard(z, q, k, w) && t != 0
    ensures LookupWildcard(z, q, t).0 == if t in z.recs[w] then z.recs[w][t] else []
    ensures LookupWildcard(z, q, t).1
  {
    WildcardOwnerIsNearest(z, q, w);
  }

  /** Without a nearest wildcard there are no records. */
  lemma NoWildcardRecords(z: Zone, q: Name, t: RRType)
    requires InZone(q, z.origin) ==> forall k, w :: !NearestWildcard(z, q, k, w)
    ensures LookupWildcard(z, q, t) == ([], false)
  {
    var found := WildcardOwner(z, q);
    if found.Some? {
      WildcardOwnerIsNearest(z, q, found.value);
    }
  }

  // ----- CNAME chains

  const MAX_CNAME_DEPTH := 8

  function WithOwner(rrs: seq<RR>, o: Name): (r: seq<RR>)
    ensures |r| == |rrs|
    ensures forall i :: 0 <= i < |rrs| ==> r[i] == rrs[i].(owner := o)
  {
    seq(|rrs|, i requires 0 <= i < |rrs| => rrs[i].(owner := o))
  }

  /** What the zone holds at a CNAME target. */
  datatype Hop =
    | OutOfZone
    | Terminal(rrs: seq<RR>)
    | Chain(rrs: seq<RR>)
    | DeadEnd

  /** For an answer of type t; records synthesised from a wildcard carry the target as owner. */
  function HopAt(z: Zone, target: Name, t: RRType): Hop {
    if !InZone(target, z.origin) then OutOfZone
    else if Lookup(z, target, t) != [] then Terminal(Lookup(z, target, t))
    else if Lookup(z, target, TYPE_CNAME) != [] then Chain(Lookup(z, target, TYPE_CNAME))
    else if LookupWildcard(z, target, t).0 != [] then Terminal(WithOwner(LookupWildcard(z, target, t).0, target))
    else if LookupWildcard(z, target, TYPE_CNAME).0 != [] then
      Chain(WithOwner(LookupWildcard(z, target, TYPE_CNAME).0, target))
    else DeadEnd
  }

  /** The answer of FollowCNAME after at most `fuel` more targets have been looked up. */
  function FollowFrom(z: Zone, answer: seq<RR>, t: RRType, fuel: nat): (r: seq<RR>)
    requires answer != []
    ensures answer <= r
    decreases fuel
  {
    var last := answer[|answer| - 1];
    if fuel == 0 || !last.data.Cname? then answer
    else
      match HopAt(z, last.data.target, t)
      case OutOfZone => answer
      case DeadEnd => answer
      case Terminal(rrs) => answer + rrs
      case Chain(rrs) => FollowFrom(z, answer + rrs, t, fuel - 1)
  }

  function Budget(initial: nat): nat {
    if initial <= MAX_CNAME_DEPTH then MAX_CNAME_DEPTH - initial else 0
  }

  function FollowCNAME(z: Zone, initial: seq<RR>, t: RRType): (r: seq<RR>)
    requires initial != []
    ensures initial <= r
  {
    FollowFrom(z, initial, t, Budget(|initial|))
  }

  datatype Collapsed =
    | CollapseRecords(rrs: seq<RR>, minTTL: nat)
    | CollapseTail(target: Name, minTTL: nat)
    | CollapseNoData

  function Min(a: nat, b: nat): nat {
    if b < a then b else a
  }

  function MinTTL(current: nat, rrs: seq<RR>): nat {
    if rrs == [] then current else MinTTL(Min(current, rrs[0].ttl), rrs[1..])
  }

  /** As HopAt, except that a CNAME is always a hop, never the data asked for. */
  function CollapseHop(z: Zone, target: Name, t: RRType): Hop {
    if !InZone(target, z.origin) then OutOfZone
    else if t != TYPE_CNAME && Lookup(z, target, t) != [] then Terminal(Lookup(z, target, t))
    else if Lookup(z, target, TYPE_CNAME) != [] then Chain(Lookup(z, target, TYPE_CNAME))
    else if t != TYPE_CNAME && LookupWildcard(z, target, t).0 != [] then Terminal(LookupWildcard(z, target, t).0)
    else if LookupWildcard(z, target, TYPE_CNAME).0 != [] then Chain(LookupWildcard(z, target, TYPE_CNAME).0)
    else DeadEnd
  }

  /** One step of the chase: it ends, or goes on to the next target. */
  datatype Chase =
    | Ended(outcome: Collapsed)
    | GoOn(target: Name, consumed: nat, minTTL: nat)

  function CollapseStep(h: Hop, target: Name, consumed: nat, minTTL: nat): (c: Chase)
    requires h.Chain? ==> h.rrs != []
    ensures c.GoOn? ==> Budget(c.consumed) < Budget(consumed)
  {
    match h
    case OutOfZone => Ended(CollapseTail(target, minTTL))
    case Terminal(rrs) => Ended(CollapseRecords(rrs, MinTTL(minTTL, rrs)))
    case DeadEnd => Ended(CollapseNoData)
    case Chain(rrs) =>
      if consumed >= MAX_CNAME_DEPTH then Ended(CollapseTail(target, minTTL))
      else if !rrs[|rrs| - 1].data.Cname? then Ended(CollapseNoData)
      else GoOn(rrs[|rrs| - 1].data.target, consumed + |rrs|, MinTTL(minTTL, rrs))
  }

  function CollapseFrom(z: Zone, target: Name, consumed: nat, minTTL: nat, t: RRType): Collapsed
    decreases Budget(consumed)
  {
    match CollapseStep(CollapseHop(z, target, t), target, consumed, minTTL)
    case Ended(r) => r
    case GoOn(target', consumed', minTTL') => CollapseFrom(z, target', consumed', minTTL', t)
  }

  function CollapseCNAME(z: Zone, initial: seq<RR>, t: RRType): Collapsed {
    if initial == [] || !initial[|initial| - 1].data.Cname? then CollapseNoData
    else CollapseFrom(z, initial[|initial| - 1].data.target, |initial|,
                      MinTTL(initial[0].ttl, initial[1..]), t)
  }
}
