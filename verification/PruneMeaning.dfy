/**
 What pruning does to the answers: nothing, for every query, except where a deleted override
 RRset is changed by the rewrite that now produces it from the root.
 */
module PruneMeaning {
  import opened Wrappers
  import opened DnsNames
  import opened Records
  import opened ZoneData
  import opened Resolver
  import opened Handler
  import opened Transparency
  import opened Existence
  import opened Prune

  // ----- loading, one RRset at a time

  /** Appends each record unless it is already there. */
  function Dedup(acc: seq<RR>, rrs: seq<RR>): seq<RR>
    decreases |rrs|
  {
    if rrs == [] then acc
    else Dedup(if HasDuplicate(acc, rrs[0]) then acc else acc + [rrs[0]], rrs[1..])
  }

  lemma {:induction false} LoadLookup(z: Zone, rrs: seq<RR>, k: RRsetKey)
    requires InZone(k.0, z.origin)
    ensures Lookup(Load(z, rrs), k.0, k.1) == Dedup(Lookup(z, k.0, k.1), Select(rrs, k))
    ensures Load(z, rrs).origin == z.origin
    decreases |rrs|
  {
    if rrs != [] {
      var rr := rrs[0];
      var z' := if InZone(rr.owner, z.origin) then Add(z, rr) else z;
      AddLookup(z, rr, k.0, k.1);
      LoadLookup(z', rrs[1..], k);
      var rest := Select(rrs[1..], k);
      if KeyOf(rr) == k {
        assert ([rr] + rest)[1..] == rest;
      } else {
        assert [] + rest == rest;
      }
    }
  }

  predicate HasData(rrs: seq<RR>, d: RData) {
    exists i :: 0 <= i < |rrs| && rrs[i].data == d
  }

  ghost predicate AllOf(rrs: seq<RR>, k: RRsetKey) {
    forall i :: 0 <= i < |rrs| ==> KeyOf(rrs[i]) == k
  }

  lemma {:induction false} SelectAllOf(rrs: seq<RR>, k: RRsetKey)
    ensures AllOf(Select(rrs, k), k)
  {
    if rrs != [] {
      SelectAllOf(rrs[1..], k);
    }
  }

  /** Removing duplicates keeps the RDATA of an RRset. */
  lemma {:induction false} DedupData(acc: seq<RR>, rrs: seq<RR>, k: RRsetKey)
    requires AllOf(acc, k) && AllOf(rrs, k)
    ensures AllOf(Dedup(acc, rrs), k)
    ensures forall d :: HasData(Dedup(acc, rrs), d) <==> HasData(acc, d) || HasData(rrs, d)
    ensures Dedup(acc, rrs) == [] <==> acc == [] && rrs == []
    decreases |rrs|
  {
    if rrs != [] {
      var rr := rrs[0];
      var acc' := if HasDuplicate(acc, rr) then acc else acc + [rr];
      DedupData(acc', rrs[1..], k);
      forall d ensures HasData(acc', d) <==> HasData(acc, d) || rr.data == d {
        if HasDuplicate(acc, rr) {
          assert HasData(acc, rr.data);
        } else {
          assert acc'[|acc|] == rr;
          assert forall i :: 0 <= i < |acc| ==> acc'[i] == acc[i];
        }
      }
      forall d ensures HasData(rrs, d) <==> rr.data == d || HasData(rrs[1..], d) {
        assert forall i :: 0 <= i < |rrs| - 1 ==> rrs[1..][i] == rrs[i + 1];
        assert forall i :: 1 <= i < |rrs| ==> rrs[i] == rrs[1..][i - 1];
      }
    }
  }

  /** Equal bags of RDATA have the same members, and as many. */
  lemma EqualBagsSameData(x: seq<RR>, y: seq<RR>)
    requires RRsetEqual(x, y)
    ensures forall d :: HasData(x, d) <==> HasData(y, d)
    ensures x == [] <==> y == []
  {
    forall d ensures HasData(x, d) <==> d in multiset(RDataOf(x)) {
      assert d in RDataOf(x) <==> HasData(x, d);
    }
    forall d ensures HasData(y, d) <==> d in multiset(RDataOf(y)) {
      assert d in RDataOf(y) <==> HasData(y, d);
    }
    assert |multiset(RDataOf(x))| == |x| && |multiset(RDataOf(y))| == |y|;
  }

  lemma {:induction false} PrunedSelect(a: Alias, backup: seq<RR>, root: Option<seq<RR>>, rest: seq<RR>, k: RRsetKey)
    ensures Select(Pruned(a, backup, root, rest), k) ==
            if Decide(a, backup, root, k) == Delete then [] else Select(rest, k)
  {
    if rest != [] {
      PrunedSelect(a, backup, root, rest[1..], k);
      var x, tail := rest[0], Pruned(a, backup, root, rest[1..]);
      assert Pruned(a, backup, root, rest) == (if Decide(a, backup, root, KeyOf(x)) == Delete then [] else [x]) + tail;
      assert rest == [x] + rest[1..] && [] + tail == tail;
      SelectCons(x, rest[1..], k);
      SelectCons(x, tail, k);
      hide *;
    }
  }

  /** The RRset has the RDATA of its counterpart in the root file, as the files have it. */
  predicate RepeatsRoot(a: Alias, backup: seq<RR>, root: seq<RR>, k: RRsetKey) {
    RRsetEqual(Select(backup, k), Select(root, (Rewrite(k.0, a.backup, a.root), k.1)))
  }

  /** The pruner leaves nothing the server would ignore, and no override that repeats the root. */
  lemma NothingRedundantIsKept(a: Alias, backup: seq<RR>, root: seq<RR>, k: RRsetKey)
    ensures var kept := Select(Pruned(a, backup, Some(root), backup), k);
            && (kept == [] || kept == Select(backup, k))
            && (kept != [] ==> Overridable(k.1) || k.1 == TYPE_SOA || (k.1 == TYPE_NS && k.0 == a.backup))
            && (Overridable(k.1) ==>
                  (kept == [] <==> Select(backup, k) == [] || RepeatsRoot(a, backup, root, k)))
  {
    PrunedSelect(a, backup, Some(root), backup, k);
  }

  /** The pruned file holds exactly the records that stay, each as often as before, the SOA and the apex NS among them. */
  lemma {:induction false} PrunedExactly(a: Alias, backup: seq<RR>, root: Option<seq<RR>>, rest: seq<RR>, rr: RR)
    ensures multiset(Pruned(a, backup, root, rest))[rr] ==
            if Stays(a, backup, root, rr.owner, rr.rtype) then multiset(rest)[rr] else 0
  {
    if rest != [] {
      var x, tail := rest[0], Pruned(a, backup, root, rest[1..]);
      PrunedExactly(a, backup, root, rest[1..], rr);
      DecidedByStays(a, backup, root, KeyOf(x));
      assert rest == [x] + rest[1..];
      assert Pruned(a, backup, root, rest) == (if Decide(a, backup, root, KeyOf(x)) == Delete then [] else [x]) + tail;
      hide Stays, Decide, Pruned;
    }
  }

  /** RRset by RRset: all of it stays or none. */
  lemma PrunedRRset(a: Alias, backup: seq<RR>, root: Option<seq<RR>>, k: RRsetKey)
    ensures Select(Pruned(a, backup, root, backup), k) == if Stays(a, backup, root, k.0, k.1) then Select(backup, k) else []
    ensures k.1 == 6 || (k.1 == 2 && k.0 == a.backup) ==> Select(Pruned(a, backup, root, backup), k) == Select(backup, k)
  {
    PrunedSelect(a, backup, root, backup, k);
    DecidedByStays(a, backup, root, k);
    hide Decide, Select, Repeated;
  }

  lemma {:induction false} KeptMembersRetained(a: Alias, backup: seq<RR>, root: Option<seq<RR>>, rest: seq<RR>, rr: RR)
    requires rr in Pruned(a, backup, root, rest)
    ensures Decide(a, backup, root, KeyOf(rr)) == Retain
  {
    if rr in Pruned(a, backup, root, rest[1..]) {
      KeptMembersRetained(a, backup, root, rest[1..], rr);
    }
  }

  lemma {:induction false} RetainedStays(a: Alias, backup: seq<RR>, root: Option<seq<RR>>, rest: seq<RR>)
    requires forall rr :: rr in rest ==> Decide(a, backup, root, KeyOf(rr)) == Retain
    ensures Pruned(a, backup, root, rest) == rest
  {
    if rest != [] {
      hide Decide, KeyOf;
      assert rest == [rest[0]] + rest[1..];
      assert Pruned(a, backup, root, rest) == [rest[0]] + Pruned(a, backup, root, rest[1..]);
      hide Pruned;
      RetainedStays(a, backup, root, rest[1..]);
    }
  }

  /** Pruning a pruned file changes nothing more. */
  lemma PruningIsIdempotent(a: Alias, backup: seq<RR>, root: Option<seq<RR>>)
    ensures var once := Pruned(a, backup, root, backup); Pruned(a, once, root, once) == once
  {
    var once := Pruned(a, backup, root, backup);
    forall rr | rr in once ensures Decide(a, once, root, KeyOf(rr)) == Retain {
      KeptMembersRetained(a, backup, root, backup, rr);
      PrunedSelect(a, backup, root, backup, KeyOf(rr));
    }
    RetainedStays(a, once, root, once);
  }

  lemma {:induction false} PrunedTyped(a: Alias, backup: seq<RR>, root: Option<seq<RR>>, rest: seq<RR>)
    requires Typed(rest)
    ensures Typed(Pruned(a, backup, root, rest))
  {
    if rest != [] {
      PrunedTyped(a, backup, root, rest[1..]);
    }
  }

  // ----- the zones the server loads

  ghost predicate Typed(rrs: seq<RR>) {
    forall i :: 0 <= i < |rrs| ==> WellTyped(rrs[i])
  }

  function RootZone(a: Alias, root: seq<RR>): Zone {
    Load(Zone(a.root, map[], None), root)
  }

  function BackupZone(a: Alias, backup: seq<RR>): Zone {
    BackupFilter(Load(Zone(a.backup, map[], None), backup))
  }

  lemma BackupLookup(a: Alias, backup: seq<RR>, q: Name, t: RRType)
    requires Typed(backup) && a.backup != [] && InZone(q, a.backup)
    ensures WellFormed(BackupZone(a, backup))
    ensures Lookup(BackupZone(a, backup), q, t) ==
            if Overridable(t) then Dedup([], Select(backup, (q, t))) else []
  {
    var empty := Zone(a.backup, map[], None);
    LoadedZoneOk(empty, backup);
    BackupFilterKeeps(Load(empty, backup));
    LoadLookup(empty, backup, (q, t));
  }

  /** What the pruner is run on, and what the server needs to serve the pair. */
  ghost predicate Pair(a: Alias, backup: seq<RR>, root: seq<RR>) {
    && a.root != [] && a.backup != [] && Typed(backup) && Typed(root)
    && ApexSOA(RootZone(a, root))
    && (forall t :: Overridable(t) ==> Classify(a, t) != UncoveredName)
  }

  /** The RRset (q, t) is an override that the pruner deletes. */
  predicate DeletedOverride(a: Alias, backup: seq<RR>, root: seq<RR>, q: Name, t: RRType) {
    Overridable(t) && Select(backup, (q, t)) != [] && Decide(a, backup, Some(root), (q, t)) == Delete
  }

  /** The rewrite maps the RRset's RDATA, as a set, onto itself. */
  ghost predicate RewriteStable(a: Alias, rrs: seq<RR>) {
    forall d :: HasData(rrs, d) <==> HasData(RewriteRRs(a, rrs), d)
  }

  /** Under the suffix rule, RDATA that names nothing in the root is a fixed point of the rewrite. */
  lemma OutsideDataIsStable(a: Alias, rrs: seq<RR>)
    requires !a.anywhere
    requires forall i, n :: 0 <= i < |rrs| && n in NamesIn(rrs[i].data) ==> !InZone(n, a.root)
    ensures RewriteStable(a, rrs)
  {
    forall i | 0 <= i < |rrs| ensures RewriteRData(a, rrs[i].rtype, rrs[i].data) == rrs[i].data {
      OutsideDataIsKept(a, rrs[i].rtype, rrs[i].data);
    }
  }

  lemma OutsideDataIsKept(a: Alias, t: RRType, d: RData)
    requires !a.anywhere && forall n :: n in NamesIn(d) ==> !InZone(n, a.root)
    ensures RewriteRData(a, t, d) == d
  {
    match d
    case Cname(target) => assert target in NamesIn(d);
    case Soa(ns, mbox, _, _, _, _, _) => assert ns in NamesIn(d) && mbox in NamesIn(d);
    case Other(names, payload) =>
      forall i | 0 <= i < |names| ensures RewriteValue(a, names[i]) == names[i] {
        assert names[i] in NamesIn(d);
      }
      assert RewriteValues(a, names) == names;
  }

  // ----- comparing replies

  function Essence(rr: RR): (Name, RRType, RData) {
    (rr.owner, rr.rtype, rr.data)
  }

  predicate HasEssence(rrs: seq<RR>, e: (Name, RRType, RData)) {
    exists i :: 0 <= i < |rrs| && Essence(rrs[i]) == e
  }

  /** Same rcode, same authority, and the same set of records up to TTL. */
  ghost predicate SameReply(x: Reply, y: Reply) {
    && x.rcode == y.rcode && x.authority == y.authority
    && (forall e :: HasEssence(x.answer, e) <==> HasEssence(y.answer, e))
  }

  lemma SameDataSameEssence(x: seq<RR>, y: seq<RR>, k: RRsetKey)
    requires AllOf(x, k) && AllOf(y, k)
    ensures (forall e :: HasEssence(x, e) <==> HasEssence(y, e)) <==> (forall d :: HasData(x, d) <==> HasData(y, d))
  {
    forall d ensures HasData(x, d) <==> HasEssence(x, (k.0, k.1, d)) {
      assert forall i :: 0 <= i < |x| ==> (x[i].data == d <==> Essence(x[i]) == (k.0, k.1, d));
    }
    forall d ensures HasData(y, d) <==> HasEssence(y, (k.0, k.1, d)) {
      assert forall i :: 0 <= i < |y| ==> (y[i].data == d <==> Essence(y[i]) == (k.0, k.1, d));
    }
    forall e | HasEssence(x, e) || HasEssence(y, e) ensures e == (k.0, k.1, e.2) {
    }
  }

  // ----- a deleted override comes back from the root

  lemma DeletedMatchesRoot(a: Alias, backup: seq<RR>, root: seq<RR>, q: Name, t: RRType)
    requires Pair(a, backup, root) && InZone(q, a.backup) && DeletedOverride(a, backup, root, q, t)
    ensures var r := Rewrite(q, a.backup, a.root);
            var rootRRs := Lookup(RootZone(a, root), r, t);
            && rootRRs != [] && AllOf(rootRRs, (r, t))
            && (forall d :: HasData(rootRRs, d) <==> HasData(Select(backup, (q, t)), d))
  {
    var r := Rewrite(q, a.backup, a.root);
    RewriteLandsInTarget(q, a.backup, a.root);
    EqualBagsSameData(Select(backup, (q, t)), Select(root, (r, t)));
    LoadLookup(Zone(a.root, map[], None), root, (r, t));
    SelectAllOf(root, (r, t));
    DedupData([], Select(root, (r, t)), (r, t));
  }

  /** The root's records, served through the alias. */
  lemma ServedFromRoot(a: Alias, rz: Zone, collapse: bool, q: Name, t: RRType, eph: seq<string>)
    requires WellFormed(rz) && ApexSOA(rz) && InZone(q, a.backup)
    requires Overridable(t) && Classify(a, t) != UncoveredName
    requires Lookup(rz, Rewrite(q, a.backup, a.root), t) != []
    ensures HandleBackup(a, None, rz, collapse, q, t, eph) ==
            Positive(RewriteRRs(a, Lookup(rz, Rewrite(q, a.backup, a.root), t)))
  {
    FoundInRoot(a, rz, q, t);
    var found := RewriteRRs(a, Lookup(rz, Rewrite(q, a.backup, a.root), t));
    assert found != [] && t != TYPE_CNAME && t != TYPE_SOA;
    assert ExactStage(a, None, rz, collapse, q, t) == Stage(found, false, []) by {
      hide ResolveExactNoCNAME, Lookup, RewriteRRs, InZone, WellFormed, Classify;
    }
    hide ExactStage, Lookup, RewriteRRs, InZone, LaterStages, WellFormed, Classify, BackupNegative, EphemeralTXT;
  }

  lemma FoundInRoot(a: Alias, rz: Zone, q: Name, t: RRType)
    requires WellFormed(rz) && Overridable(t) && Classify(a, t) != UncoveredName
    requires Lookup(rz, Rewrite(q, a.backup, a.root), t) != []
    ensures ResolveExactNoCNAME(a, None, rz, q, t) ==
            Stage(RewriteRRs(a, Lookup(rz, Rewrite(q, a.backup, a.root), t)), false, [])
  {
    var rootRRs := Lookup(rz, Rewrite(q, a.backup, a.root), t);
    LookupOk(rz, Rewrite(q, a.backup, a.root), t);
    NothingWithheld(a, rootRRs);
    hide WellFormed, Lookup, Kept, WithheldOf, RewriteRRs, InZone, FollowCNAME;
  }

  lemma RewrittenRRset(a: Alias, x: seq<RR>, y: seq<RR>, q: Name, t: RRType)
    requires InZone(q, a.backup) && AllOf(x, (Rewrite(q, a.backup, a.root), t)) && AllOf(y, (q, t))
    requires forall d :: HasData(x, d) <==> HasData(y, d)
    ensures AllOf(RewriteRRs(a, x), (q, t))
    ensures forall d :: HasData(RewriteRRs(a, x), d) <==> HasData(RewriteRRs(a, y), d)
  {
    RewriteRoundTrip(q, a.backup, a.root);
    forall d ensures HasData(RewriteRRs(a, x), d) <==> exists e :: HasData(x, e) && RewriteRData(a, t, e) == d {
      RewrittenData(a, x, t, d);
    }
    forall d ensures HasData(RewriteRRs(a, y), d) <==> exists e :: HasData(y, e) && RewriteRData(a, t, e) == d {
      RewrittenData(a, y, t, d);
    }
  }

  lemma RewrittenData(a: Alias, x: seq<RR>, t: RRType, d: RData)
    requires forall i :: 0 <= i < |x| ==> x[i].rtype == t
    ensures HasData(RewriteRRs(a, x), d) <==> exists e :: HasData(x, e) && RewriteRData(a, t, e) == d
  {
    if HasData(RewriteRRs(a, x), d) {
      var i :| 0 <= i < |x| && RewriteRRs(a, x)[i].data == d;
      assert HasData(x, x[i].data) && RewriteRData(a, t, x[i].data) == d;
    }
    if exists e :: HasData(x, e) && RewriteRData(a, t, e) == d {
      var e :| HasData(x, e) && RewriteRData(a, t, e) == d;
      var i :| 0 <= i < |x| && x[i].data == e;
      assert RewriteRRs(a, x)[i].data == d;
    }
  }

  lemma RootZoneOk(a: Alias, root: seq<RR>)
    requires a.root != [] && Typed(root)
    ensures WellFormed(RootZone(a, root))
  {
    LoadedZoneOk(Zone(a.root, map[], None), root);
  }

  /** Before, the override answers; after, the root does. */
  lemma DeletedOverrideReplies(a: Alias, backup: seq<RR>, root: seq<RR>, collapse: bool, q: Name, t: RRType, eph: seq<string>)
    requires Pair(a, backup, root) && InZone(q, a.backup) && DeletedOverride(a, backup, root, q, t)
    ensures var rz := RootZone(a, root);
            var bz := BackupZone(a, backup);
            var bz' := BackupZone(a, Pruned(a, backup, Some(root), backup));
            && HandleBackup(a, Some(bz), rz, collapse, q, t, eph) == Positive(Dedup([], Select(backup, (q, t))))
            && HandleBackup(a, Some(bz'), rz, collapse, q, t, eph) ==
               Positive(RewriteRRs(a, Lookup(rz, Rewrite(q, a.backup, a.root), t)))
  {
    var rz := RootZone(a, root);
    var bz, bz' := BackupZone(a, backup), BackupZone(a, Pruned(a, backup, Some(root), backup));
    RootZoneOk(a, root);
    SameOverrideLookup(a, backup, root, q, t);
    BackupLookup(a, backup, q, t);
    SelectAllOf(backup, (q, t));
    DedupData([], Select(backup, (q, t)), (q, t));
    DeletedMatchesRoot(a, backup, root, q, t);
    ServedFromRoot(a, rz, collapse, q, t, eph);
    OverridesOverlay(a, Some(bz), rz, collapse, q, t, eph);
    OverridesOverlay(a, Some(bz'), rz, collapse, q, t, eph);
    hide HandleBackup, BackupZone, RootZone, Select, Dedup, Decide, WellFormed;
  }

  lemma DeletedOverrideReply(a: Alias, backup: seq<RR>, root: seq<RR>, collapse: bool, q: Name, t: RRType, eph: seq<string>)
    requires Pair(a, backup, root) && InZone(q, a.backup) && DeletedOverride(a, backup, root, q, t)
    ensures var rz := RootZone(a, root);
            var bz := BackupZone(a, backup);
            var bz' := BackupZone(a, Pruned(a, backup, Some(root), backup));
            SameReply(HandleBackup(a, Some(bz), rz, collapse, q, t, eph), HandleBackup(a, Some(bz'), rz, collapse, q, t, eph))
            <==> RewriteStable(a, Select(backup, (q, t)))
  {
    var own, k := Select(backup, (q, t)), (q, t);
    var rootRRs := Lookup(RootZone(a, root), Rewrite(q, a.backup, a.root), t);
    DeletedOverrideReplies(a, backup, root, collapse, q, t, eph);
    SelectAllOf(backup, k);
    DedupData([], own, k);
    DeletedMatchesRoot(a, backup, root, q, t);
    hide HandleBackup, BackupZone, RootZone, Select, Dedup, Decide, Pair, DeletedOverride, Lookup;
    RewrittenRRset(a, rootRRs, own, q, t);
    SameDataSameEssence(Dedup([], own), RewriteRRs(a, rootRRs), k);
  }

  // ----- every other query

  lemma NxdomainOnlyIfAbsent(a: Alias, rz: Zone, collapse: bool, q: Name, t: RRType, eph: seq<string>)
    requires rz.soa.Some? && SoaOk(rz)
    requires HandleBackup(a, None, rz, collapse, q, t, eph).rcode == NxDomain
    ensures !RootHasName(rz, Rewrite(q, a.backup, a.root))
  {
  }

  lemma SameOverrideLookup(a: Alias, backup: seq<RR>, root: seq<RR>, q: Name, t: RRType)
    requires Pair(a, backup, root) && InZone(q, a.backup)
    ensures var bz, bz' := BackupZone(a, backup), BackupZone(a, Pruned(a, backup, Some(root), backup));
            && WellFormed(bz) && WellFormed(bz')
            && Lookup(bz', q, t) == if DeletedOverride(a, backup, root, q, t) then [] else Lookup(bz, q, t)
  {
    PrunedTyped(a, backup, Some(root), backup);
    PrunedSelect(a, backup, Some(root), backup, (q, t));
    BackupLookup(a, backup, q, t);
    BackupLookup(a, Pruned(a, backup, Some(root), backup), q, t);
  }

  /** Pruning removes a name from the overrides only if the root zone has it. */
  lemma OverrideNamesKept(a: Alias, backup: seq<RR>, root: seq<RR>, q: Name)
    requires Pair(a, backup, root) && InZone(q, a.backup)
    requires !RootHasName(RootZone(a, root), Rewrite(q, a.backup, a.root))
    ensures q in BackupZone(a, backup).recs <==> q in BackupZone(a, Pruned(a, backup, Some(root), backup)).recs
  {
    var rz, r := RootZone(a, root), Rewrite(q, a.backup, a.root);
    var bz, bz' := BackupZone(a, backup), BackupZone(a, Pruned(a, backup, Some(root), backup));
    SameOverrideLookup(a, backup, root, q, 0);
    forall t ensures Lookup(bz', q, t) == Lookup(bz, q, t) {
      if DeletedOverride(a, backup, root, q, t) {
        DeletedMatchesRoot(a, backup, root, q, t);
      }
      SameOverrideLookup(a, backup, root, q, t);
    }
    OwnerHasRecords(bz, q);
    OwnerHasRecords(bz', q);
  }

  lemma OwnerHasRecords(z: Zone, q: Name)
    requires WellFormed(z)
    ensures q in z.recs <==> exists t :: Lookup(z, q, t) != []
  {
    if q in z.recs {
      var store := z.recs[q];
      assert store.Keys != {} by {
        assert store.Keys == {} ==> store == map[];
      }
      var t := SomeElement(store.Keys);
      assert Lookup(z, q, t) != [];
    }
  }

  lemma OtherQueriesUnchanged(a: Alias, backup: seq<RR>, root: seq<RR>, collapse: bool, q: Name, t: RRType, eph: seq<string>)
    requires Pair(a, backup, root) && InZone(q, a.backup) && !DeletedOverride(a, backup, root, q, t)
    ensures var rz := RootZone(a, root);
            var bz := BackupZone(a, backup);
            var bz' := BackupZone(a, Pruned(a, backup, Some(root), backup));
            HandleBackup(a, Some(bz'), rz, collapse, q, t, eph) == HandleBackup(a, Some(bz), rz, collapse, q, t, eph)
  {
    var rz := RootZone(a, root);
    var bz, bz' := BackupZone(a, backup), BackupZone(a, Pruned(a, backup, Some(root), backup));
    OverridesOverlay(a, Some(bz), rz, collapse, q, t, eph);
    OverridesOverlay(a, Some(bz'), rz, collapse, q, t, eph);
    SameOverrideLookup(a, backup, root, q, t);
    if HandleBackup(a, None, rz, collapse, q, t, eph).rcode == NxDomain {
      NxdomainOnlyIfAbsent(a, rz, collapse, q, t, eph);
      OverrideNamesKept(a, backup, root, q);
    }
  }

  /**
   Pruning preserves meaning. For every query, with collapsing on or off and any ephemeral
   values: the reply before and after has the same rcode, authority and record set (TTLs
   aside) exactly when the RRset asked for is not a deleted override, or is one whose RDATA
   the rewrite maps onto itself.
   */
  lemma PruningPreservesMeaning(a: Alias, backup: seq<RR>, root: seq<RR>, collapse: bool, q: Name, t: RRType, eph: seq<string>)
    requires Pair(a, backup, root) && InZone(q, a.backup)
    ensures var rz := RootZone(a, root);
            var bz := BackupZone(a, backup);
            var bz' := BackupZone(a, Pruned(a, backup, Some(root), backup));
            SameReply(HandleBackup(a, Some(bz), rz, collapse, q, t, eph), HandleBackup(a, Some(bz'), rz, collapse, q, t, eph))
            <==> (DeletedOverride(a, backup, root, q, t) ==> RewriteStable(a, Select(backup, (q, t))))
  {
    if DeletedOverride(a, backup, root, q, t) {
      DeletedOverrideReply(a, backup, root, collapse, q, t, eph);
    } else {
      OtherQueriesUnchanged(a, backup, root, collapse, q, t, eph);
    }
  }

  /** Without a root file no override is deleted, and no reply changes at all. */
  lemma RootlessPruningIsInvisible(a: Alias, backup: seq<RR>, rz: Zone, collapse: bool, q: Name, t: RRType, eph: seq<string>)
    requires a.backup != [] && Typed(backup) && InZone(q, a.backup) && rz.soa.Some? && SoaOk(rz)
    ensures HandleBackup(a, Some(BackupZone(a, Pruned(a, backup, None, backup))), rz, collapse, q, t, eph) ==
            HandleBackup(a, Some(BackupZone(a, backup)), rz, collapse, q, t, eph)
  {
    var bz, bz' := BackupZone(a, backup), BackupZone(a, Pruned(a, backup, None, backup));
    PrunedTyped(a, backup, None, backup);
    BackupLookup(a, backup, q, 0);
    BackupLookup(a, Pruned(a, backup, None, backup), q, 0);
    forall u ensures Lookup(bz', q, u) == Lookup(bz, q, u) {
      PrunedSelect(a, backup, None, backup, (q, u));
      BackupLookup(a, backup, q, u);
      BackupLookup(a, Pruned(a, backup, None, backup), q, u);
    }
    OwnerHasRecords(bz, q);
    OwnerHasRecords(bz', q);
    assert Lookup(bz', q, t) == Lookup(bz, q, t) && (q in bz.recs <==> q in bz'.recs);
    hide HandleBackup, BackupZone, Lookup, Typed;
    OverridesOverlay(a, Some(bz), rz, collapse, q, t, eph);
    OverridesOverlay(a, Some(bz'), rz, collapse, q, t, eph);
  }

  // ----- the rewrite can change a deleted override

  const PAIR := Alias(["r"], ["b"], false, {})
  const ROOT_SOA := RR(["r"], TYPE_SOA, 60, Soa(["r"], ["r"], 1, 1, 1, 1, 1))
  const MAIL := Other([["m", "r"]], "10")
  const ROOT_MX := RR(["r"], TYPE_MX, 60, MAIL)
  const BACKUP_MX := RR(["b"], TYPE_MX, 60, MAIL)

  lemma MailIsRewritten()
    ensures !RewriteStable(PAIR, [BACKUP_MX])
  {
    var moved := RewriteRRs(PAIR, [BACKUP_MX]);
    assert ["m", "r"][1..] == ["r"] && ["m", "r"][..1] + ["b"] == ["m", "b"];
    assert Rewrite(["m", "r"], ["r"], ["b"]) == ["m", "b"];
    assert moved[0].data.names[0] == ["m", "b"] != ["m", "r"];
    assert HasData([BACKUP_MX], MAIL) by { assert [BACKUP_MX][0].data == MAIL; }
    assert !HasData(moved, MAIL);
  }

  lemma MailIsDeleted()
    ensures DeletedOverride(PAIR, [BACKUP_MX], [ROOT_SOA, ROOT_MX], ["b"], TYPE_MX)
    ensures Select([BACKUP_MX], (["b"], TYPE_MX)) == [BACKUP_MX]
  {
    var root, k := [ROOT_SOA, ROOT_MX], (["r"], TYPE_MX);
    assert root == [ROOT_SOA] + [ROOT_MX] && Rewrite(["b"], ["b"], ["r"]) == ["r"];
    assert KeyOf(BACKUP_MX) == (["b"], TYPE_MX) && KeyOf(ROOT_MX) == k && KeyOf(ROOT_SOA) != k;
    KeyedOne(BACKUP_MX, KeyOf, (["b"], TYPE_MX));
    KeyedOne(ROOT_MX, KeyOf, k);
    assert Select([BACKUP_MX], (["b"], TYPE_MX)) == [BACKUP_MX] && Select([ROOT_MX], k) == [ROOT_MX];
    SelectCons(ROOT_SOA, [ROOT_MX], k);
    assert RDataOf([BACKUP_MX]) == [MAIL] && RDataOf([ROOT_MX]) == [MAIL];
    hide Select, RDataOf, Rewrite;
  }

  lemma LoadTwo(z: Zone, x: RR, y: RR)
    requires InZone(x.owner, z.origin) && InZone(y.owner, z.origin)
    ensures Load(z, [x, y]) == Add(Add(z, x), y)
  {
    assert [x, y][1..] == [y] && [y][1..] == [];
    assert Load(Add(Add(z, x), y), []) == Add(Add(z, x), y);
    assert Load(Add(z, x), [y]) == Add(Add(z, x), y);
    hide Add;
  }

  lemma MailRootZone()
    ensures RootZone(PAIR, [ROOT_SOA, ROOT_MX]).soa == Some(ROOT_SOA) && RootZone(PAIR, [ROOT_SOA, ROOT_MX]).origin == ["r"]
  {
    hide Load, Add, HasDuplicate, Lookup;
    LoadTwo(Zone(["r"], map[], None), ROOT_SOA, ROOT_MX);
    SoaStored(Zone(["r"], map[], None), ROOT_SOA, ROOT_MX);
  }

  lemma MailPair()
    ensures Pair(PAIR, [BACKUP_MX], [ROOT_SOA, ROOT_MX])
  {
    hide RootZone, Load, Add;
    MailRootZone();
    assert Typed([BACKUP_MX]) && Typed([ROOT_SOA, ROOT_MX]);
    assert forall t :: Overridable(t) ==> Classify(PAIR, t) != UncoveredName;
  }

  lemma SoaStored(z: Zone, soa: RR, other: RR)
    requires z.recs == map[] && soa.data.Soa? && !other.data.Soa?
    ensures Add(Add(z, soa), other).soa == Some(soa) && Add(Add(z, soa), other).origin == z.origin
  {
    assert !HasDuplicate(Lookup(z, soa.owner, soa.rtype), soa);
    assert Add(z, soa).soa == Some(soa) && Add(z, soa).origin == z.origin;
  }

  /**
   Pruning can change a reply: a backup MX that repeats the root's, with a mail host inside the
   root zone, is deleted, and the same query is then answered with the rewritten host.
   */
  lemma PrunedMailHostChanges(collapse: bool, eph: seq<string>)
    ensures var backup, root := [BACKUP_MX], [ROOT_SOA, ROOT_MX];
            && Pair(PAIR, backup, root) && DeletedOverride(PAIR, backup, root, ["b"], TYPE_MX)
            && SoaOk(RootZone(PAIR, root)) && RootZone(PAIR, root).soa.Some?
            && !SameReply(HandleBackup(PAIR, Some(BackupZone(PAIR, backup)), RootZone(PAIR, root), collapse, ["b"], TYPE_MX, eph),
                          HandleBackup(PAIR, Some(BackupZone(PAIR, Pruned(PAIR, backup, Some(root), backup))),
                                       RootZone(PAIR, root), collapse, ["b"], TYPE_MX, eph))
  {
    MailPair();
    MailIsDeleted();
    MailIsRewritten();
    PruningPreservesMeaning(PAIR, [BACKUP_MX], [ROOT_SOA, ROOT_MX], collapse, ["b"], TYPE_MX, eph);
    hide *;
  }
}
