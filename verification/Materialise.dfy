/**
 The zone a backup stands for: the root zone with every owner and every RDATA name moved
 into the backup's namespace. Every zone operation commutes with the move.
 */
module Materialise {
  import opened Wrappers
  import opened DnsNames
  import opened Records
  import opened ZoneData

  function ToRoot(a: Alias, q: Name): Name {
    Rewrite(q, a.backup, a.root)
  }

  function ToBackup(a: Alias, o: Name): Name {
    Rewrite(o, a.root, a.backup)
  }

  function RewriteStore(a: Alias, s: Store): Store {
    map t | t in s :: RewriteRRs(a, s[t])
  }

  function Materialised(a: Alias, z: Zone): Zone
    requires InBailiwick(z) && z.origin == a.root
  {
    BackToRoot(a, z);
    Zone(a.backup,
         map b | b in MaterialisedOwners(a, z) :: RewriteStore(a, z.recs[ToRoot(a, b)]),
         if z.soa.None? then None else Some(RewriteRR(a.(anywhere := false), z.soa.value)))
  }

  function MaterialisedOwners(a: Alias, z: Zone): set<Name> {
    set o | o in z.recs :: ToBackup(a, o)
  }

  lemma BackToRoot(a: Alias, z: Zone)
    requires InBailiwick(z) && z.origin == a.root
    ensures forall b :: b in MaterialisedOwners(a, z) ==> InZone(b, a.backup) && ToRoot(a, b) in z.recs
  {
    forall o | o in z.recs
      ensures InZone(ToBackup(a, o), a.backup) && ToRoot(a, ToBackup(a, o)) == o
    {
      RewriteLandsInTarget(o, a.root, a.backup);
      RewriteRoundTrip(o, a.root, a.backup);
    }
  }

  /** The names a CNAME may point at for the move to be seamless. */
  predicate CleanTarget(a: Alias, target: Name) {
    if InZone(target, a.root) then RewriteValue(a, target) == ToBackup(a, target)
    else !InZone(RewriteValue(a, target), a.backup)
  }

  ghost predicate CleanRecord(a: Alias, rr: RR) {
    rr.data.Cname? ==> CleanTarget(a, rr.data.target)
  }

  /** A chain goes on at the last CNAME of an RRset, so that one must point at a clean target. */
  ghost predicate CleanTargets(a: Alias, z: Zone) {
    forall o :: o in z.recs && Lookup(z, o, TYPE_CNAME) != [] ==>
      CleanRecord(a, Lookup(z, o, TYPE_CNAME)[|Lookup(z, o, TYPE_CNAME)| - 1])
  }

  /** Under the suffix rule, a target is clean unless it lies in the backup zone and outside the root. */
  lemma CleanUnderSuffixRule(a: Alias, target: Name)
    requires !a.anywhere
    ensures CleanTarget(a, target) <==> (InZone(target, a.backup) ==> InZone(target, a.root))
  {
  }

  // ----- what commutes

  ghost predicate Ready(a: Alias, z: Zone) {
    InBailiwick(z) && z.origin == a.root && WellFormed(z)
  }

  lemma OwnersMove(a: Alias, z: Zone, q: Name)
    requires Ready(a, z)
    ensures q in Materialised(a, z).recs <==> InZone(q, a.backup) && ToRoot(a, q) in z.recs
    ensures q in Materialised(a, z).recs ==>
              Materialised(a, z).recs[q] == RewriteStore(a, z.recs[ToRoot(a, q)])
  {
    BackToRoot(a, z);
    if InZone(q, a.backup) && ToRoot(a, q) in z.recs {
      RewriteRoundTrip(q, a.backup, a.root);
      assert ToBackup(a, ToRoot(a, q)) == q;
    }
  }

  lemma LookupMoves(a: Alias, z: Zone, q: Name, t: RRType)
    requires Ready(a, z) && InZone(q, a.backup)
    ensures Lookup(Materialised(a, z), q, t) == RewriteRRs(a, Lookup(z, ToRoot(a, q), t))
  {
    OwnersMove(a, z, q);
  }

  /** What the walk sees at one step, on both sides. */
  lemma StepMoves(a: Alias, z: Zone, q: Name)
    requires Ready(a, z) && InZone(q, a.backup) && |q| > |a.backup|
    ensures var r, parent := ToRoot(a, q), q[1..];
            && InZone(r, a.root) && |r| > |a.root|
            && InZone(parent, a.backup) && r[1..] == ToRoot(a, parent)
            && (parent == a.backup <==> r[1..] == a.root)
            && (parent in Materialised(a, z).recs <==> r[1..] in z.recs)
            && (WildcardAt(parent) in Materialised(a, z).recs <==> WildcardAt(r[1..]) in z.recs)
            && ToBackup(a, WildcardAt(r[1..])) == WildcardAt(parent)
  {
    var parent := q[1..];
    RewriteLandsInTarget(q, a.backup, a.root);
    assert q != a.backup;
    RewriteParent(q, a.backup, a.root);
    RewritePrepend(WILDCARD, parent, a.backup, a.root);
    RewriteRoundTrip(WildcardAt(parent), a.backup, a.root);
    OwnersMove(a, z, WildcardAt(parent));
    OwnersMove(a, z, parent);
    RewriteApex(a.backup, a.root);
    RewriteInjective(parent, a.backup, a.backup, a.root);
  }

  lemma {:induction false} WalkMoves(a: Alias, z: Zone, q: Name)
    requires Ready(a, z) && InZone(q, a.backup) && |q| > |a.backup|
    ensures InZone(ToRoot(a, q), a.root) && |ToRoot(a, q)| > |a.root|
    ensures WildcardWalk(Materialised(a, z), q) ==
            match WildcardWalk(z, ToRoot(a, q))
            case None => None
            case Some(w) => Some(ToBackup(a, w))
    decreases |q|
  {
    var parent := q[1..];
    StepMoves(a, z, q);
    var m := Materialised(a, z);
    assert m.origin == a.backup && z.origin == a.root;
    if parent != a.backup {
      StrictlyBelow(parent, a.backup);
    }
    hide Materialised, Ready, ToRoot, ToBackup, WildcardAt;
    if WildcardAt(parent) !in m.recs && parent != a.backup && parent !in m.recs {
      WalkMoves(a, z, parent);
    }
  }

  lemma WildcardMoves(a: Alias, z: Zone, q: Name, t: RRType)
    requires Ready(a, z) && InZone(q, a.backup)
    ensures LookupWildcard(Materialised(a, z), q, t).0 == RewriteRRs(a, LookupWildcard(z, ToRoot(a, q), t).0)
    ensures HasWildcard(Materialised(a, z), q) == HasWildcard(z, ToRoot(a, q))
  {
    OwnerMoves(a, z, q);
    var w := WildcardOwner(z, ToRoot(a, q));
    if w.Some? {
      StoreMoves(a, z, w.value, t);
    }
    hide Ready, WildcardOwner, Materialised, ToRoot, ToBackup;
  }

  lemma OwnerMoves(a: Alias, z: Zone, q: Name)
    requires Ready(a, z) && InZone(q, a.backup)
    ensures var w := WildcardOwner(z, ToRoot(a, q));
            WildcardOwner(Materialised(a, z), q) == if w.Some? then Some(ToBackup(a, w.value)) else None
  {
    RewriteLandsInTarget(q, a.backup, a.root);
    if |q| > |a.backup| {
      WalkMoves(a, z, q);
    }
    hide WildcardWalk;
  }

  lemma StoreMoves(a: Alias, z: Zone, w: Name, t: RRType)
    requires Ready(a, z) && w in z.recs
    ensures var b, m := ToBackup(a, w), Materialised(a, z);
            && b in m.recs && m.recs[b].Keys == z.recs[w].Keys && Lookup(m, b, t) == RewriteRRs(a, Lookup(z, w, t))
  {
    RewriteLandsInTarget(w, a.root, a.backup);
    RewriteRoundTrip(w, a.root, a.backup);
    OwnersMove(a, z, ToBackup(a, w));
  }

  lemma WithOwnerMoves(a: Alias, rrs: seq<RR>, o: Name)
    ensures RewriteRRs(a, WithOwner(rrs, o)) == WithOwner(RewriteRRs(a, rrs), ToBackup(a, o))
  {
  }

  function RewriteHop(a: Alias, h: Hop): Hop {
    match h
    case Terminal(rrs) => Terminal(RewriteRRs(a, rrs))
    case Chain(rrs) => Chain(RewriteRRs(a, rrs))
    case _ => h
  }

  lemma TargetMoves(a: Alias, target: Name)
    requires CleanTarget(a, target)
    ensures InZone(RewriteValue(a, target), a.backup) <==> InZone(target, a.root)
    ensures InZone(target, a.root) ==> ToRoot(a, RewriteValue(a, target)) == target
  {
    if InZone(target, a.root) {
      RewriteLandsInTarget(target, a.root, a.backup);
      RewriteRoundTrip(target, a.root, a.backup);
    }
  }

  /** All four lookups a hop may make, on both sides. */
  lemma HopLookupsMove(a: Alias, z: Zone, target: Name, t: RRType)
    requires Ready(a, z) && CleanTarget(a, target) && InZone(target, a.root)
    ensures var b, m := RewriteValue(a, target), Materialised(a, z);
            && Lookup(m, b, t) == RewriteRRs(a, Lookup(z, target, t))
            && LookupWildcard(m, b, t).0 == RewriteRRs(a, LookupWildcard(z, target, t).0)
            && WithOwner(LookupWildcard(m, b, t).0, b) == RewriteRRs(a, WithOwner(LookupWildcard(z, target, t).0, target))
  {
    var b := RewriteValue(a, target);
    TargetMoves(a, target);
    LookupMoves(a, z, b, t);
    WildcardMoves(a, z, b, t);
    WithOwnerMoves(a, LookupWildcard(z, target, t).0, target);
  }

  lemma HopMoves(a: Alias, z: Zone, target: Name, t: RRType)
    requires Ready(a, z) && CleanTarget(a, target)
    ensures HopAt(Materialised(a, z), RewriteValue(a, target), t) == RewriteHop(a, HopAt(z, target, t))
    ensures CollapseHop(Materialised(a, z), RewriteValue(a, target), t) == RewriteHop(a, CollapseHop(z, target, t))
  {
    TargetMoves(a, target);
    assert Materialised(a, z).origin == a.backup && z.origin == a.root;
    if InZone(target, a.root) {
      InZoneHopMoves(a, z, target, t);
    }
    hide Materialised, Lookup, LookupWildcard, InZone, Ready, RewriteValue, RewriteRR, RewriteRRs, CleanTarget, WithOwner;
  }

  /** The first of a hop's four lookups that found something. */
  function FirstFound(own: seq<RR>, cnames: seq<RR>, wRRs: seq<RR>, wCNAMEs: seq<RR>): Hop {
    if own != [] then Terminal(own)
    else if cnames != [] then Chain(cnames)
    else if wRRs != [] then Terminal(wRRs)
    else if wCNAMEs != [] then Chain(wCNAMEs)
    else DeadEnd
  }

  lemma FirstFoundMoves(a: Alias, own: seq<RR>, cnames: seq<RR>, wRRs: seq<RR>, wCNAMEs: seq<RR>)
    ensures FirstFound(RewriteRRs(a, own), RewriteRRs(a, cnames), RewriteRRs(a, wRRs), RewriteRRs(a, wCNAMEs)) ==
            RewriteHop(a, FirstFound(own, cnames, wRRs, wCNAMEs))
  {
    hide RewriteRR;
  }

  lemma HopsFindFirst(z: Zone, target: Name, t: RRType)
    requires InZone(target, z.origin)
    ensures HopAt(z, target, t) ==
            FirstFound(Lookup(z, target, t), Lookup(z, target, TYPE_CNAME), WithOwner(LookupWildcard(z, target, t).0, target),
                       WithOwner(LookupWildcard(z, target, TYPE_CNAME).0, target))
    ensures CollapseHop(z, target, t) ==
            FirstFound(if t == TYPE_CNAME then [] else Lookup(z, target, t), Lookup(z, target, TYPE_CNAME),
                       if t == TYPE_CNAME then [] else LookupWildcard(z, target, t).0, LookupWildcard(z, target, TYPE_CNAME).0)
  {
    hide Lookup, LookupWildcard, InZone;
  }

  lemma InZoneHopMoves(a: Alias, z: Zone, target: Name, t: RRType)
    requires Ready(a, z) && CleanTarget(a, target) && InZone(target, a.root)
    ensures HopAt(Materialised(a, z), RewriteValue(a, target), t) == RewriteHop(a, HopAt(z, target, t))
    ensures CollapseHop(Materialised(a, z), RewriteValue(a, target), t) == RewriteHop(a, CollapseHop(z, target, t))
  {
    TargetMoves(a, target);
    HopLookupsMove(a, z, target, t);
    HopLookupsMove(a, z, target, TYPE_CNAME);
    var m, b, none: seq<RR> := Materialised(a, z), RewriteValue(a, target), [];
    HopsFindFirst(z, target, t);
    HopsFindFirst(m, b, t);
    var own, cnames := Lookup(z, target, t), Lookup(z, target, TYPE_CNAME);
    var wRRs, wCNAMEs := LookupWildcard(z, target, t).0, LookupWildcard(z, target, TYPE_CNAME).0;
    FirstFoundMoves(a, own, cnames, WithOwner(wRRs, target), WithOwner(wCNAMEs, target));
    FirstFoundMoves(a, if t == TYPE_CNAME then none else own, cnames, if t == TYPE_CNAME then none else wRRs, wCNAMEs);
    assert RewriteRRs(a, none) == none;
    hide *;
  }

  lemma ChainRecordsClean(a: Alias, z: Zone, target: Name, t: RRType)
    requires Ready(a, z) && CleanTargets(a, z)
    ensures var h := HopAt(z, target, t); h.Chain? ==> h.rrs != [] && CleanRecord(a, h.rrs[|h.rrs| - 1])
    ensures var h := CollapseHop(z, target, t); h.Chain? ==> h.rrs != [] && CleanRecord(a, h.rrs[|h.rrs| - 1])
  {
    LastIsClean(a, z, target);
    if InZone(target, z.origin) {
      HopsFindFirst(z, target, t);
      hide Lookup, LookupWildcard, CleanTargets, Ready, HopAt, CollapseHop, InZone, CleanTarget;
    }
  }

  /** What the zone holds at a name, or at its wildcard, ends in a clean record. */
  lemma LastIsClean(a: Alias, z: Zone, o: Name)
    requires CleanTargets(a, z)
    ensures var rrs := Lookup(z, o, TYPE_CNAME); rrs != [] ==> CleanRecord(a, rrs[|rrs| - 1])
    ensures var rrs := LookupWildcard(z, o, TYPE_CNAME).0; rrs != [] ==> CleanRecord(a, rrs[|rrs| - 1])
  {
    hide CleanRecord;
  }

  lemma {:induction false} FollowMoves(a: Alias, z: Zone, answer: seq<RR>, t: RRType, fuel: nat)
    requires Ready(a, z) && CleanTargets(a, z)
    requires answer != [] && CleanRecord(a, answer[|answer| - 1])
    ensures FollowFrom(Materialised(a, z), RewriteRRs(a, answer), t, fuel) ==
            RewriteRRs(a, FollowFrom(z, answer, t, fuel))
    decreases fuel
  {
    hide HopAt, Materialised, CleanTargets, Ready, RewriteRR, CleanRecord, RewriteValue;
    var last := answer[|answer| - 1];
    RewriteKeepsKind(a, last);
    assert RewriteRRs(a, answer)[|answer| - 1] == RewriteRR(a, last);
    hide RewriteRRs;
    if fuel > 0 && last.data.Cname? {
      FollowOneHop(a, z, answer, t);
      match HopAt(z, last.data.target, t) {
        case OutOfZone =>
        case DeadEnd =>
        case Terminal(rrs) =>
          RewriteRRsConcat(a, answer, rrs);
        case Chain(rrs) =>
          RewriteRRsConcat(a, answer, rrs);
          FollowMoves(a, z, answer + rrs, t, fuel - 1);
      }
    }
  }

  lemma RewriteKeepsKind(a: Alias, rr: RR)
    ensures RewriteRR(a, rr).data.Cname? == rr.data.Cname?
    ensures rr.data.Cname? ==> RewriteRR(a, rr).data.target == RewriteValue(a, rr.data.target)
  {
  }

  lemma FollowOneHop(a: Alias, z: Zone, answer: seq<RR>, t: RRType)
    requires Ready(a, z) && CleanTargets(a, z)
    requires answer != [] && answer[|answer| - 1].data.Cname? && CleanRecord(a, answer[|answer| - 1])
    ensures var last := RewriteRR(a, answer[|answer| - 1]);
            && last.data.Cname?
            && HopAt(Materialised(a, z), last.data.target, t) ==
               RewriteHop(a, HopAt(z, answer[|answer| - 1].data.target, t))
    ensures var h := HopAt(z, answer[|answer| - 1].data.target, t);
            h.Chain? ==> h.rrs != [] && CleanRecord(a, h.rrs[|h.rrs| - 1])
  {
    var target := answer[|answer| - 1].data.target;
    HopMoves(a, z, target, t);
    ChainRecordsClean(a, z, target, t);
  }

  /** Following a chain in the moved zone is moving the followed chain. */
  lemma FollowCNAMEMoves(a: Alias, z: Zone, initial: seq<RR>, t: RRType)
    requires Ready(a, z) && CleanTargets(a, z)
    requires initial != [] && CleanRecord(a, initial[|initial| - 1])
    ensures FollowCNAME(Materialised(a, z), RewriteRRs(a, initial), t) ==
            RewriteRRs(a, FollowCNAME(z, initial, t))
  {
    FollowMoves(a, z, initial, t, Budget(|initial|));
  }

  function RewriteCollapsed(a: Alias, r: Collapsed): Collapsed {
    match r
    case CollapseRecords(rrs, ttl) => CollapseRecords(RewriteRRs(a, rrs), ttl)
    case CollapseTail(target, ttl) => CollapseTail(RewriteValue(a, target), ttl)
    case CollapseNoData => CollapseNoData
  }

  lemma {:induction false} MinTTLMoves(a: Alias, c: nat, rrs: seq<RR>)
    ensures MinTTL(c, RewriteRRs(a, rrs)) == MinTTL(c, rrs)
  {
    if rrs != [] {
      assert RewriteRRs(a, rrs)[1..] == RewriteRRs(a, rrs[1..]);
      MinTTLMoves(a, Min(c, rrs[0].ttl), rrs[1..]);
    }
  }

  function RewriteChase(a: Alias, c: Chase): Chase {
    match c
    case Ended(r) => Ended(RewriteCollapsed(a, r))
    case GoOn(target, consumed, ttl) => GoOn(RewriteValue(a, target), consumed, ttl)
  }

  lemma CollapseStepMoves(a: Alias, h: Hop, target: Name, consumed: nat, ttl: nat)
    requires h.Chain? ==> h.rrs != []
    ensures CollapseStep(RewriteHop(a, h), RewriteValue(a, target), consumed, ttl) ==
            RewriteChase(a, CollapseStep(h, target, consumed, ttl))
  {
    if h.Terminal? || h.Chain? {
      MinTTLMoves(a, ttl, h.rrs);
      if h.rrs != [] {
        RewriteKeepsKind(a, h.rrs[|h.rrs| - 1]);
      }
    }
  }

  lemma {:induction false} CollapseMoves(a: Alias, z: Zone, target: Name, consumed: nat, ttl: nat, t: RRType)
    requires Ready(a, z) && CleanTargets(a, z) && CleanTarget(a, target)
    ensures CollapseFrom(Materialised(a, z), RewriteValue(a, target), consumed, ttl, t) ==
            RewriteCollapsed(a, CollapseFrom(z, target, consumed, ttl, t))
    decreases Budget(consumed)
  {
    var h := CollapseHop(z, target, t);
    CollapseOneHop(a, z, target, t);
    CollapseStepMoves(a, h, target, consumed, ttl);
    var step := CollapseStep(h, target, consumed, ttl);
    assert step.GoOn? ==> CleanTarget(a, step.target);
    hide CollapseHop, CollapseStep, Materialised, CleanTarget, CleanTargets, Ready, RewriteValue, RewriteHop, MinTTL, CleanRecord;
    match CollapseStep(h, target, consumed, ttl) {
      case Ended(_) =>
      case GoOn(target', consumed', ttl') =>
        CollapseMoves(a, z, target', consumed', ttl', t);
    }
  }

  lemma CollapseOneHop(a: Alias, z: Zone, target: Name, t: RRType)
    requires Ready(a, z) && CleanTargets(a, z) && CleanTarget(a, target)
    ensures CollapseHop(Materialised(a, z), RewriteValue(a, target), t) == RewriteHop(a, CollapseHop(z, target, t))
    ensures var h := CollapseHop(z, target, t);
            h.Chain? ==> h.rrs != [] && CleanRecord(a, h.rrs[|h.rrs| - 1])
  {
    HopMoves(a, z, target, t);
    ChainRecordsClean(a, z, target, t);
  }

  /** Collapsing a chain in the moved zone is moving the collapsed outcome. */
  lemma CollapseCNAMEMoves(a: Alias, z: Zone, initial: seq<RR>, t: RRType)
    requires Ready(a, z) && CleanTargets(a, z)
    requires initial != [] && CleanRecord(a, initial[|initial| - 1])
    ensures CollapseCNAME(Materialised(a, z), RewriteRRs(a, initial), t) ==
            RewriteCollapsed(a, CollapseCNAME(z, initial, t))
  {
    var last := initial[|initial| - 1];
    RewriteKeepsKind(a, last);
    if last.data.Cname? {
      assert RewriteRRs(a, initial)[1..] == RewriteRRs(a, initial[1..]);
      MinTTLMoves(a, initial[0].ttl, initial[1..]);
      CollapseMoves(a, z, last.data.target, |initial|, MinTTL(initial[0].ttl, initial[1..]), t);
      hide CollapseFrom, Materialised, MinTTL, Ready, CleanTargets, RewriteRRs, RewriteValue;
    }
  }
}
