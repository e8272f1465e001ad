/**
 Alias transparency: answering a backup query by rewriting the query, and then the root
 zone's answer, is the same as serving the materialised renamed zone directly, under the
 backup's own overrides.
 */
module Transparency {
  import opened Wrappers
  import opened DnsNames
  import opened Records
  import opened ZoneData
  import opened Resolver
  import opened Handler
  import opened Materialise

  /** The root zone has its SOA, at the apex. */
  predicate ApexSOA(z: Zone) {
    z.soa.Some? && z.soa.value.data.Soa? && z.soa.value.owner == z.origin
  }

  /** A backup's overrides laid over a reply: they replace an RRset, and make a name exist. */
  function Overlay(bz: Option<Zone>, q: Name, t: RRType, reply: Reply): Reply {
    if bz.None? then reply
    else if Overridable(t) && Lookup(bz.value, q, t) != [] then Positive(Lookup(bz.value, q, t))
    else if reply.rcode == NxDomain && q in bz.value.recs then reply.(rcode := NoError)
    else reply
  }

  // ----- nothing is withheld when the query type is not

  ghost predicate TypesOf(rrs: seq<RR>, t: RRType) {
    forall i :: 0 <= i < |rrs| ==> rrs[i].rtype == t || rrs[i].rtype == TYPE_CNAME
  }

  lemma KeepsAll(a: Alias, rrs: seq<RR>, t: RRType)
    requires TypesOf(rrs, t) && Classify(a, t) != UncoveredName
    ensures Kept(a, rrs) == rrs && WithheldOf(a, rrs) == []
  {
    NothingWithheld(a, rrs);
  }

  lemma LookupTypes(z: Zone, q: Name, t: RRType)
    requires WellFormed(z)
    ensures TypesOf(Lookup(z, q, t), t) && TypesOf(LookupWildcard(z, q, t).0, t)
    ensures t != TYPE_CNAME ==> forall i :: 0 <= i < |Lookup(z, q, t)| ==> !Lookup(z, q, t)[i].data.Cname?
    ensures t != TYPE_CNAME ==>
              forall i :: 0 <= i < |LookupWildcard(z, q, t).0| ==> !LookupWildcard(z, q, t).0[i].data.Cname?
    ensures forall i :: 0 <= i < |Lookup(z, q, TYPE_CNAME)| ==> Lookup(z, q, TYPE_CNAME)[i].data.Cname?
    ensures forall i :: 0 <= i < |LookupWildcard(z, q, TYPE_CNAME).0| ==> LookupWildcard(z, q, TYPE_CNAME).0[i].data.Cname?
  {
    LookupOk(z, q, t);
    LookupOk(z, q, TYPE_CNAME);
    var w := WildcardOwner(z, q);
    if w.Some? {
      LookupOk(z, w.value, t);
      LookupOk(z, w.value, TYPE_CNAME);
    }
  }

  lemma HopTypes(z: Zone, target: Name, t: RRType)
    requires WellFormed(z)
    ensures var h := HopAt(z, target, t); h.Terminal? || h.Chain? ==> TypesOf(h.rrs, t)
  {
    LookupTypes(z, target, t);
    LookupTypes(z, target, TYPE_CNAME);
    hide WellFormed, Lookup, LookupWildcard, InZone;
  }

  lemma TypesConcat(x: seq<RR>, y: seq<RR>, t: RRType)
    requires TypesOf(x, t) && TypesOf(y, t)
    ensures TypesOf(x + y, t)
  {
  }

  lemma {:induction false} FollowTypes(z: Zone, answer: seq<RR>, t: RRType, fuel: nat)
    requires WellFormed(z) && answer != [] && TypesOf(answer, t)
    ensures TypesOf(FollowFrom(z, answer, t, fuel), t)
    decreases fuel
  {
    var last := answer[|answer| - 1];
    if fuel > 0 && last.data.Cname? {
      HopTypes(z, last.data.target, t);
      hide HopAt, WellFormed, TypesOf;
      match HopAt(z, last.data.target, t) {
        case OutOfZone =>
        case DeadEnd =>
        case Terminal(rrs) =>
          TypesConcat(answer, rrs, t);
        case Chain(rrs) =>
          TypesConcat(answer, rrs, t);
          FollowTypes(z, answer + rrs, t, fuel - 1);
      }
    }
  }

  lemma {:induction false} CollapsedTypes(z: Zone, target: Name, consumed: nat, ttl: nat, t: RRType)
    requires WellFormed(z)
    ensures var r := CollapseFrom(z, target, consumed, ttl, t);
            r.CollapseRecords? ==> r.rrs != [] && TypesOf(r.rrs, t)
    decreases Budget(consumed)
  {
    LookupTypes(z, target, t);
    var h := CollapseHop(z, target, t);
    match CollapseStep(h, target, consumed, ttl) {
      case Ended(_) =>
      case GoOn(target', consumed', ttl') =>
        CollapsedTypes(z, target', consumed', ttl', t);
    }
  }

  // ----- stage by stage

  /** What the theorem asks of the root zone and the query. */
  ghost predicate Setting(a: Alias, rz: Zone, q: Name, t: RRType) {
    && Ready(a, rz) && CleanTargets(a, rz) && ApexSOA(rz)
    && InZone(q, a.backup) && Classify(a, t) != UncoveredName
  }

  /** Emitting a chain that starts with the given clean records. */
  lemma FinalizeMoves(a: Alias, rz: Zone, start: seq<RR>, q: Name, t: RRType)
    requires Setting(a, rz, q, t)
    requires start != [] && TypesOf(start, t) && CleanRecord(a, start[|start| - 1])
    ensures Finalize(a, rz, start, t) ==
            Stage(if t != TYPE_CNAME && start[|start| - 1].data.Cname?
                  then FollowCNAME(Materialised(a, rz), RewriteRRs(a, start), t)
                  else RewriteRRs(a, start), false, [])
  {
    if t != TYPE_CNAME && start[|start| - 1].data.Cname? {
      FollowCNAMEMoves(a, rz, start, t);
      FollowTypes(rz, start, t, Budget(|start|));
    }
    KeepsAll(a, Chased(rz, start, t), t);
  }

  lemma NegativeMoves(a: Alias, rz: Zone, q: Name, t: RRType)
    requires Setting(a, rz, q, t)
    ensures var m := Materialised(a, rz);
            SoaOk(m) && m.origin == a.backup && m.soa == Some(BackupSOA(a, rz.soa.value)) &&
            RootNegative(m, q) == BackupNegative(a, None, rz, q)
  {
    OwnersMove(a, rz, q);
    WildcardMoves(a, rz, q, t);
    BackupSOAIsRewrite(a.(anywhere := false), rz.soa.value);
  }

  /** A consumed chain, seen through the alias, is the materialised zone's consumed chain. */
  lemma CollapseResultMoves(a: Alias, rz: Zone, start: seq<RR>, q: Name, t: RRType)
    requires Setting(a, rz, q, t)
    requires start != [] && CleanRecord(a, start[|start| - 1])
    ensures var s := CollapseResult(a, CollapseCNAME(rz, start, t), q);
            var m := Materialised(a, rz);
            && SoaOk(m) && !Missed(s)
            && Answered(a, None, rz, q, s) == CollapseRoot(m, CollapseCNAME(m, RewriteRRs(a, start), t), q)
  {
    var r := CollapseCNAME(rz, start, t);
    CollapseCNAMEMoves(a, rz, start, t);
    NegativeMoves(a, rz, q, t);
    if start[|start| - 1].data.Cname? {
      CollapsedTypes(rz, start[|start| - 1].data.target, |start|, MinTTL(start[0].ttl, start[1..]), t);
    }
    hide Materialised, Setting, WellFormed, Lookup, CollapseCNAME, CollapseFrom, MinTTL, RewriteRR;
    match r {
      case CollapseRecords(rrs, ttl) =>
        KeepsAll(a, rrs, t);
        assert Flattened(RewriteRRs(a, rrs), q, ttl) != [];
      case CollapseTail(_, _) =>
      case CollapseNoData =>
    }
  }

  /** The records the two sides start from. */
  lemma StartsMove(a: Alias, rz: Zone, q: Name, t: RRType)
    requires Setting(a, rz, q, t)
    ensures var r, m := ToRoot(a, q), Materialised(a, rz);
            && Lookup(m, q, t) == RewriteRRs(a, Lookup(rz, r, t))
            && LookupWildcard(m, q, t).0 == RewriteRRs(a, LookupWildcard(rz, r, t).0)
            && Lookup(m, q, TYPE_CNAME) == RewriteRRs(a, Lookup(rz, r, TYPE_CNAME))
            && LookupWildcard(m, q, TYPE_CNAME).0 == RewriteRRs(a, LookupWildcard(rz, r, TYPE_CNAME).0)
  {
    LookupMoves(a, rz, q, t);
    LookupMoves(a, rz, q, TYPE_CNAME);
    WildcardMoves(a, rz, q, t);
    WildcardMoves(a, rz, q, TYPE_CNAME);
  }

  /** The exact stage misses exactly when the materialised zone has nothing at the name. */
  lemma ExactMisses(a: Alias, rz: Zone, collapse: bool, q: Name, t: RRType)
    requires Setting(a, rz, q, t) && Lookup(rz, ToRoot(a, q), t) == []
    ensures Missed(ExactStage(a, None, rz, collapse, q, t)) && Lookup(Materialised(a, rz), q, t) == []
  {
    LookupMoves(a, rz, q, t);
    hide Lookup, Materialised, Ready, CleanTargets, ApexSOA, Classify;
  }

  lemma ExactCollapses(a: Alias, rz: Zone, q: Name)
    requires Setting(a, rz, q, TYPE_CNAME) && Lookup(rz, ToRoot(a, q), TYPE_CNAME) != []
    ensures var s, m := ExactStage(a, None, rz, true, q, TYPE_CNAME), Materialised(a, rz);
            && SoaOk(m) && Lookup(m, q, TYPE_CNAME) != [] && !Missed(s)
            && Answered(a, None, rz, q, s) == HandleRoot(m, true, q, TYPE_CNAME, [])
  {
    hide HandleRoot, ExactStage, CollapseRoot, CollapseResult, CollapseCNAME, Materialised, Answered, Missed, CleanTargets,
         ApexSOA, WellFormed, Lookup, Classify, ToRoot, CleanRecord, InZone, RewriteRR;
    var start, m := Lookup(rz, ToRoot(a, q), TYPE_CNAME), Materialised(a, rz);
    LookupMoves(a, rz, q, TYPE_CNAME);
    LastIsClean(a, rz, ToRoot(a, q));
    AliasCollapses(a, rz, q);
    CollapseResultMoves(a, rz, start, q, TYPE_CNAME);
    RootCollapses(m, q);
  }

  lemma AliasCollapses(a: Alias, rz: Zone, q: Name)
    requires Lookup(rz, ToRoot(a, q), TYPE_CNAME) != []
    ensures ExactStage(a, None, rz, true, q, TYPE_CNAME) ==
            CollapseResult(a, CollapseCNAME(rz, Lookup(rz, ToRoot(a, q), TYPE_CNAME), TYPE_CNAME), q)
  {
    hide Lookup, CollapseCNAME, CollapseResult;
  }

  lemma RootCollapses(z: Zone, q: Name)
    requires SoaOk(z) && Lookup(z, q, TYPE_CNAME) != []
    ensures HandleRoot(z, true, q, TYPE_CNAME, []) == CollapseRoot(z, CollapseCNAME(z, Lookup(z, q, TYPE_CNAME), TYPE_CNAME), q)
  {
    hide Lookup, CollapseCNAME, CollapseRoot, RootLater;
  }

  lemma ExactEmits(a: Alias, rz: Zone, collapse: bool, q: Name, t: RRType)
    requires Setting(a, rz, q, t) && Lookup(rz, ToRoot(a, q), t) != []
    requires t != TYPE_CNAME || !collapse
    ensures ExactStage(a, None, rz, collapse, q, t) == Stage(Lookup(Materialised(a, rz), q, t), false, [])
    ensures Lookup(Materialised(a, rz), q, t) != []
  {
    var start := Lookup(rz, ToRoot(a, q), t);
    LookupMoves(a, rz, q, t);
    LookupTypes(rz, ToRoot(a, q), t);
    LastIsClean(a, rz, ToRoot(a, q));
    FinalizeMoves(a, rz, start, q, t);
    assert ExactStage(a, None, rz, collapse, q, t) == Finalize(a, rz, start, t) by {
      hide Lookup, Materialised, Finalize, RewriteRRs, Setting, FollowCNAME;
    }
    hide Lookup, Materialised, Finalize, RewriteRRs, Setting, ExactStage, FollowCNAME, CleanRecord;
  }

  lemma ExactMoves(a: Alias, rz: Zone, collapse: bool, q: Name, t: RRType)
    requires Setting(a, rz, q, t)
    requires !(t == TYPE_SOA && q == a.backup)
    ensures var s, m := ExactStage(a, None, rz, collapse, q, t), Materialised(a, rz);
            && SoaOk(m)
            && (Lookup(m, q, t) == [] <==> Missed(s))
            && (!Missed(s) ==> Answered(a, None, rz, q, s) == HandleRoot(m, collapse, q, t, []))
  {
    NegativeMoves(a, rz, q, t);
    hide Materialised, Lookup, Setting, ExactStage, RootLater, BackupNegative, RootNegative, SoaOk, CollapseRoot;
    if Lookup(rz, ToRoot(a, q), t) == [] {
      ExactMisses(a, rz, collapse, q, t);
    } else if t == TYPE_CNAME && collapse {
      ExactCollapses(a, rz, q);
    } else {
      ExactEmits(a, rz, collapse, q, t);
    }
  }

  lemma FallbackMoves(a: Alias, rz: Zone, collapse: bool, q: Name, t: RRType)
    requires Setting(a, rz, q, t) && t != TYPE_CNAME
    ensures var m := Materialised(a, rz);
            var s := if collapse then ResolveCNAMEFallbackCollapse(a, rz, q, t) else ResolveCNAMEFallback(a, rz, q, t);
            && SoaOk(m)
            && (Lookup(m, q, TYPE_CNAME) == [] <==> Missed(s))
            && (!Missed(s) ==> Answered(a, None, rz, q, s) == RootLater(m, collapse, q, t))
  {
    var start := Lookup(rz, ToRoot(a, q), TYPE_CNAME);
    StartsMove(a, rz, q, t);
    LookupTypes(rz, ToRoot(a, q), t);
    LookupTypes(rz, ToRoot(a, q), TYPE_CNAME);
    NegativeMoves(a, rz, q, t);
    if start != [] {
      LastIsClean(a, rz, ToRoot(a, q));
      if collapse {
        CollapseResultMoves(a, rz, start, q, t);
      } else {
        FinalizeMoves(a, rz, start, q, t);
      }
    }
  }

  lemma WildcardSynthesisMoves(a: Alias, rz: Zone, start: seq<RR>, q: Name, t: RRType)
    requires Setting(a, rz, q, t)
    requires start != [] && TypesOf(start, t) && CleanRecord(a, start[|start| - 1])
    ensures SynthesizeWildcard(a, rz, start, q, t) ==
            Stage(if t != TYPE_CNAME && start[|start| - 1].data.Cname?
                  then FollowCNAME(Materialised(a, rz), WithOwner(RewriteRRs(a, start), q), t)
                  else WithOwner(RewriteRRs(a, start), q), false, [])
  {
    KeepsAll(a, start, t);
    var r := ToRoot(a, q);
    FinalizeMoves(a, rz, WithOwner(start, r), q, t);
    WithOwnerMoves(a, start, r);
    RewriteRoundTrip(q, a.backup, a.root);
    assert ToBackup(a, r) == q;
  }

  lemma WildcardStageMoves(a: Alias, rz: Zone, collapse: bool, q: Name, t: RRType)
    requires Setting(a, rz, q, t)
    requires t == TYPE_CNAME || Lookup(Materialised(a, rz), q, TYPE_CNAME) == []
    ensures var m := Materialised(a, rz);
            var s := if collapse then ResolveWildcardCollapse(a, rz, q, t) else ResolveWildcard(a, rz, q, t);
            SoaOk(m) && Answered(a, None, rz, q, s) == RootLater(m, collapse, q, t)
  {
    var r := ToRoot(a, q);
    var wRRs, wCNAMEs := LookupWildcard(rz, r, t).0, LookupWildcard(rz, r, TYPE_CNAME).0;
    StartsMove(a, rz, q, t);
    LookupTypes(rz, r, t);
    LookupTypes(rz, r, TYPE_CNAME);
    NegativeMoves(a, rz, q, t);
    LastIsClean(a, rz, r);
    if wRRs != [] {
      if t == TYPE_CNAME && collapse {
        CollapseResultMoves(a, rz, wRRs, q, t);
      } else {
        WildcardSynthesisMoves(a, rz, wRRs, q, t);
      }
    } else if t != TYPE_CNAME && wCNAMEs != [] {
      if collapse {
        CollapseResultMoves(a, rz, wCNAMEs, q, t);
      } else {
        WildcardSynthesisMoves(a, rz, wCNAMEs, q, t);
      }
    }
  }

  /** Without overrides: the backup path is the root path run on the materialised zone. */
  lemma NoOverridesTransparent(a: Alias, rz: Zone, collapse: bool, q: Name, t: RRType, eph: seq<string>)
    requires Setting(a, rz, q, t)
    ensures SoaOk(Materialised(a, rz))
    ensures HandleBackup(a, None, rz, collapse, q, t, eph) == HandleRoot(Materialised(a, rz), collapse, q, t, eph)
  {
    var m := Materialised(a, rz);
    NegativeMoves(a, rz, q, t);
    if !(t == TYPE_SOA && q == a.backup) {
      ExactMoves(a, rz, collapse, q, t);
      if Lookup(m, q, t) == [] && EphemeralTXT(q, t, eph) == [] {
        if t != TYPE_CNAME {
          FallbackMoves(a, rz, collapse, q, t);
        }
        if t == TYPE_CNAME || Lookup(m, q, TYPE_CNAME) == [] {
          WildcardStageMoves(a, rz, collapse, q, t);
        }
      }
    }
  }

  /** Overrides act on their own RRset and on the NXDOMAIN/NODATA choice, and nowhere else. */
  lemma OverridesOverlay(a: Alias, bz: Option<Zone>, rz: Zone, collapse: bool, q: Name, t: RRType, eph: seq<string>)
    requires rz.soa.Some? && SoaOk(rz)
    ensures HandleBackup(a, bz, rz, collapse, q, t, eph) ==
            Overlay(bz, q, t, HandleBackup(a, None, rz, collapse, q, t, eph))
  {
    var exact := ExactStage(a, bz, rz, collapse, q, t);
    if !(t == TYPE_SOA && q == a.backup) && bz.Some? && !(Overridable(t) && Lookup(bz.value, q, t) != []) {
      assert exact == ExactStage(a, None, rz, collapse, q, t);
    }
  }

  /**
   Alias transparency. For every root zone with its SOA at the apex and clean CNAME targets,
   every backup name and query type that is not withheld, with collapsing on or off and
   whatever ephemeral values are live: answer section, rcode and authority of the backup path
   are those of the root path on the materialised zone, under the overrides.
   */
  lemma AliasTransparency(a: Alias, bz: Option<Zone>, rz: Zone, collapse: bool, q: Name, t: RRType, eph: seq<string>)
    requires Setting(a, rz, q, t)
    ensures SoaOk(Materialised(a, rz))
    ensures HandleBackup(a, bz, rz, collapse, q, t, eph) ==
            Overlay(bz, q, t, HandleRoot(Materialised(a, rz), collapse, q, t, eph))
  {
    NoOverridesTransparent(a, rz, collapse, q, t, eph);
    OverridesOverlay(a, bz, rz, collapse, q, t, eph);
  }

  // ----- the condition on CNAME targets is exact

  /** The queries transparency is about: names in the backup, types that are not withheld. */
  predicate Served(a: Alias, q: Name, t: RRType) {
    InZone(q, a.backup) && Classify(a, t) != UncoveredName
  }

  /** The backup serves exactly the materialised zone under its overrides, whatever is asked. */
  ghost predicate Transparent(a: Alias, rz: Zone)
    requires Ready(a, rz) && ApexSOA(rz) && SoaOk(Materialised(a, rz))
  {
    forall bz, collapse, q, t, eph :: Served(a, q, t) ==>
      HandleBackup(a, bz, rz, collapse, q, t, eph) ==
      Overlay(bz, q, t, HandleRoot(Materialised(a, rz), collapse, q, t, eph))
  }

  /** No CNAME RRset is so large that it uses up the chain budget on its own. */
  ghost predicate ShortCNAMESets(z: Zone) {
    forall o :: o in z.recs ==> |Lookup(z, o, TYPE_CNAME)| < MAX_CNAME_DEPTH
  }

  /** A type that no owner of the zone has and that is not withheld. */
  lemma UnusedType(a: Alias, z: Zone) returns (t: RRType)
    ensures t != TYPE_CNAME && t != TYPE_SOA && Classify(a, t) != UncoveredName
    ensures forall o :: Lookup(z, o, t) == []
    ensures forall q :: LookupWildcard(z, q, t).0 == []
  {
    var used := set o, u | o in z.recs && u in z.recs[o] :: u;
    var taken := a.uncovered + COVERED + used;
    assert TYPE_CNAME in taken && TYPE_SOA in taken;
    t := NewInt(taken);
    forall o ensures Lookup(z, o, t) == [] {
      assert o in z.recs && t in z.recs[o] ==> t in used;
    }
    forall q ensures LookupWildcard(z, q, t).0 == [] {
      var w := WildcardOwner(z, q);
      assert w.Some? && t in z.recs[w.value] ==> t in used;
    }
  }

  lemma NewInt(s: set<int>) returns (x: int)
    ensures x !in s
  {
    x := Above(s);
  }

  lemma {:induction false} Above(s: set<int>) returns (x: int)
    ensures forall y :: y in s ==> y < x
  {
    if s == {} {
      x := 0;
    } else {
      var y := SomeElement(s);
      var above := Above(s - {y});
      x := if above > y then above else y + 1;
      assert forall z :: z in s ==> z == y || z in s - {y};
    }
  }

  /** The CNAME RRset at ToRoot(q) ends in an unclean target, and nothing there has type t. */
  ghost predicate Unclean(a: Alias, rz: Zone, q: Name, t: RRType) {
    && Ready(a, rz) && ApexSOA(rz) && InZone(q, a.backup) && !a.anywhere
    && t != TYPE_CNAME && t != TYPE_SOA && Lookup(rz, ToRoot(a, q), t) == []
    && var c := Lookup(rz, ToRoot(a, q), TYPE_CNAME);
       c != [] && c[|c| - 1].data.Cname? && !CleanTarget(a, c[|c| - 1].data.target)
  }

  /** The target: in the backup zone, outside the root, and left alone by the rewrite. */
  function UncleanTarget(a: Alias, rz: Zone, q: Name): Name
    requires var c := Lookup(rz, ToRoot(a, q), TYPE_CNAME); c != [] && c[|c| - 1].data.Cname?
  {
    var c := Lookup(rz, ToRoot(a, q), TYPE_CNAME);
    c[|c| - 1].data.target
  }

  lemma UncleanStart(a: Alias, rz: Zone, q: Name, t: RRType)
    requires Unclean(a, rz, q, t)
    ensures var target := UncleanTarget(a, rz, q);
            && InZone(target, a.backup) && !InZone(target, a.root) && RewriteValue(a, target) == target
    ensures var c, m := Lookup(rz, ToRoot(a, q), TYPE_CNAME), Materialised(a, rz);
            && Lookup(m, q, t) == [] && Lookup(m, q, TYPE_CNAME) == RewriteRRs(a, c)
            && SoaOk(m)
    ensures var c := Lookup(rz, ToRoot(a, q), TYPE_CNAME);
            var last := RewriteRRs(a, c)[|c| - 1];
            last.data.Cname? && last.data.target == UncleanTarget(a, rz, q)
  {
    var c := Lookup(rz, ToRoot(a, q), TYPE_CNAME);
    CleanUnderSuffixRule(a, c[|c| - 1].data.target);
    LookupMoves(a, rz, q, t);
    LookupMoves(a, rz, q, TYPE_CNAME);
    RewriteKeepsKind(a, c[|c| - 1]);
    BackupSOAIsRewrite(a.(anywhere := false), rz.soa.value);
  }

  /**
   When no further chain starts at the unclean target, collapse mode shows it: the alias
   answers with the target, the materialised zone looks behind it.
   */
  lemma UncleanTargetShows(a: Alias, rz: Zone, q: Name, t: RRType)
    requires Unclean(a, rz, q, t)
    requires !CollapseHop(Materialised(a, rz), UncleanTarget(a, rz, q), t).Chain?
    ensures SoaOk(Materialised(a, rz))
    ensures HandleBackup(a, None, rz, true, q, t, []) != HandleRoot(Materialised(a, rz), true, q, t, [])
  {
    UncleanStart(a, rz, q, t);
    AliasSeesTarget(a, rz, q, t);
    MaterialisedSeesBehind(a, rz, q, t);
  }

  lemma AliasSeesTarget(a: Alias, rz: Zone, q: Name, t: RRType)
    requires Unclean(a, rz, q, t)
    ensures var answer := HandleBackup(a, None, rz, true, q, t, []).answer;
            answer != [] && answer[0].rtype == TYPE_CNAME
  {
    UncleanIsTail(a, rz, q, t);
    ExactMissed(a, rz, q, t);
    assert !(t == TYPE_SOA && q == a.backup);
    hide Unclean, ExactStage, LaterStages, Missed;
  }

  /** The first hop already leaves the root zone. */
  lemma UncleanIsTail(a: Alias, rz: Zone, q: Name, t: RRType)
    requires Unclean(a, rz, q, t)
    ensures var s := LaterStages(a, rz, true, q, t);
            !s.nodata && s.rrs != [] && s.rrs[0].rtype == TYPE_CNAME
  {
    var start := Lookup(rz, ToRoot(a, q), TYPE_CNAME);
    UncleanStart(a, rz, q, t);
    assert rz.origin == a.root && t != TYPE_CNAME && start != [] && start[|start| - 1].data.Cname?;
    assert !InZone(start[|start| - 1].data.target, rz.origin);
    hide *;
    LeavesAtOnce(rz, start, t);
    TailAnswers(a, rz, q, t);
  }

  lemma LeavesAtOnce(z: Zone, start: seq<RR>, t: RRType)
    requires start != [] && start[|start| - 1].data.Cname? && !InZone(start[|start| - 1].data.target, z.origin)
    ensures CollapseCNAME(z, start, t).CollapseTail?
  {
    hide MinTTL, InZone, Lookup, LookupWildcard;
  }

  lemma TailAnswers(a: Alias, rz: Zone, q: Name, t: RRType)
    requires t != TYPE_CNAME && Lookup(rz, ToRoot(a, q), TYPE_CNAME) != []
    requires CollapseCNAME(rz, Lookup(rz, ToRoot(a, q), TYPE_CNAME), t).CollapseTail?
    ensures var s := LaterStages(a, rz, true, q, t);
            !s.nodata && s.rrs != [] && s.rrs[0].rtype == TYPE_CNAME
  {
    hide Lookup, CollapseCNAME, RewriteValue, Rewrite;
  }

  lemma ExactMissed(a: Alias, rz: Zone, q: Name, t: RRType)
    requires t != TYPE_CNAME && Lookup(rz, ToRoot(a, q), t) == []
    ensures Missed(ExactStage(a, None, rz, true, q, t)) && EphemeralTXT(q, t, []) == []
  {
    hide Lookup;
  }

  lemma MaterialisedSeesBehind(a: Alias, rz: Zone, q: Name, t: RRType)
    requires Unclean(a, rz, q, t) && SoaOk(Materialised(a, rz))
    requires !CollapseHop(Materialised(a, rz), UncleanTarget(a, rz, q), t).Chain?
    ensures var answer := HandleRoot(Materialised(a, rz), true, q, t, []).answer;
            answer != [] ==> answer[0].rtype == t
  {
    UncleanStart(a, rz, q, t);
    TerminalTypes(a, rz, UncleanTarget(a, rz, q), t);
    hide Lookup, Materialised, RewriteRRs, Ready, Classify, CollapseHop;
  }

  /** What a hop in the materialised zone ends in has the type asked for. */
  lemma TerminalTypes(a: Alias, rz: Zone, target: Name, t: RRType)
    requires Ready(a, rz) && InZone(target, a.backup)
    ensures var h := CollapseHop(Materialised(a, rz), target, t);
            !h.OutOfZone? && (h.Terminal? ==> h.rrs != [] && h.rrs[0].rtype == t)
  {
    LookupMoves(a, rz, target, t);
    WildcardMoves(a, rz, target, t);
    WildcardMoves(a, rz, target, TYPE_CNAME);
    LookupTypes(rz, ToRoot(a, target), t);
    WildcardTypesExact(rz, ToRoot(a, target), t);
  }

  lemma WildcardTypesExact(z: Zone, q: Name, t: RRType)
    requires WellFormed(z)
    ensures forall i :: 0 <= i < |Lookup(z, q, t)| ==> Lookup(z, q, t)[i].rtype == t
    ensures forall i :: 0 <= i < |LookupWildcard(z, q, t).0| ==> LookupWildcard(z, q, t).0[i].rtype == t
  {
    LookupOk(z, q, t);
    var w := WildcardOwner(z, q);
    if w.Some? {
      LookupOk(z, w.value, t);
    }
  }

  /** With collapsing off, the alias's answer stops at the unclean target. */
  lemma UncleanEmitted(a: Alias, rz: Zone, q: Name, t: RRType)
    requires Unclean(a, rz, q, t)
    ensures |HandleBackup(a, None, rz, false, q, t, []).answer| <= |Lookup(rz, ToRoot(a, q), TYPE_CNAME)|
  {
    UncleanStart(a, rz, q, t);
    var c := Lookup(rz, ToRoot(a, q), TYPE_CNAME);
    assert Finalize(a, rz, c, t).rrs == RewriteRRs(a, Kept(a, c)) by {
      assert HopAt(rz, c[|c| - 1].data.target, t) == OutOfZone;
    }
    KeptNoLonger(a, c);
    FallbackAnswers(a, rz, q, t);
    hide *;
  }

  /** With collapsing off and nothing of type t there, the CNAME fallback answers. */
  lemma FallbackAnswers(a: Alias, rz: Zone, q: Name, t: RRType)
    requires Unclean(a, rz, q, t)
    ensures HandleBackup(a, None, rz, false, q, t, []).answer == Finalize(a, rz, Lookup(rz, ToRoot(a, q), TYPE_CNAME), t).rrs
  {
    hide Finalize, Lookup, CleanTarget, Materialised, ResolveWildcard;
    NothingKeptIsWithheld(a, rz, Lookup(rz, ToRoot(a, q), TYPE_CNAME), t);
  }

  /** A stage that finalizes something is not a miss. */
  lemma NothingKeptIsWithheld(a: Alias, rz: Zone, rrs: seq<RR>, t: RRType)
    requires rrs != []
    ensures !Missed(Finalize(a, rz, rrs, t)) && !Finalize(a, rz, rrs, t).nodata
  {
    NothingWithheld(a, Chased(rz, rrs, t));
  }

  lemma {:induction false} KeptNoLonger(a: Alias, rrs: seq<RR>)
    ensures |Kept(a, rrs)| <= |rrs|
  {
    if rrs != [] {
      KeptNoLonger(a, rrs[1..]);
    }
  }

  /** The materialised zone's answer goes on when a chain starts there. */
  lemma UncleanFollowed(a: Alias, rz: Zone, q: Name, t: RRType)
    requires Unclean(a, rz, q, t) && |Lookup(rz, ToRoot(a, q), TYPE_CNAME)| < MAX_CNAME_DEPTH
    requires HopAt(Materialised(a, rz), UncleanTarget(a, rz, q), t).Chain?
    ensures SoaOk(Materialised(a, rz))
    ensures |HandleRoot(Materialised(a, rz), false, q, t, []).answer| > |Lookup(rz, ToRoot(a, q), TYPE_CNAME)|
  {
    UncleanStart(a, rz, q, t);
    var c, m := Lookup(rz, ToRoot(a, q), TYPE_CNAME), Materialised(a, rz);
    var start := RewriteRRs(a, c);
    var hop := HopAt(m, UncleanTarget(a, rz, q), t);
    assert hop.rrs != [];
    assert FollowCNAME(m, start, t) == FollowFrom(m, start + hop.rrs, t, Budget(|start|) - 1);
    hide FollowFrom, HopAt, Lookup, Materialised, Unclean, RewriteRRs;
    assert HandleRoot(m, false, q, t, []).answer == FollowCNAME(m, start, t);
  }

  /** With a type the zone does not use, both walks see the same kind of hop. */
  lemma SameKindOfHop(a: Alias, rz: Zone, target: Name, t: RRType)
    requires Ready(a, rz) && InZone(target, a.backup) && t != TYPE_CNAME
    requires (forall o :: Lookup(rz, o, t) == []) && forall q :: LookupWildcard(rz, q, t).0 == []
    ensures HopAt(Materialised(a, rz), target, t).Chain? <==> CollapseHop(Materialised(a, rz), target, t).Chain?
  {
    LookupMoves(a, rz, target, t);
    WildcardMoves(a, rz, target, t);
    assert Lookup(Materialised(a, rz), target, t) == [];
    assert LookupWildcard(Materialised(a, rz), target, t).0 == [];
    hide Lookup, LookupWildcard, Materialised;
  }

  /** Any unclean target shows in some query, with collapsing on or off. */
  lemma UncleanIsOpaque(a: Alias, rz: Zone, q: Name, t: RRType) returns (collapse: bool)
    requires Unclean(a, rz, q, t) && |Lookup(rz, ToRoot(a, q), TYPE_CNAME)| < MAX_CNAME_DEPTH
    requires (forall o :: Lookup(rz, o, t) == []) && forall p :: LookupWildcard(rz, p, t).0 == []
    ensures SoaOk(Materialised(a, rz))
    ensures HandleBackup(a, None, rz, collapse, q, t, []) != HandleRoot(Materialised(a, rz), collapse, q, t, [])
  {
    UncleanStart(a, rz, q, t);
    SameKindOfHop(a, rz, UncleanTarget(a, rz, q), t);
    hide HandleBackup, HandleRoot, Materialised, HopAt, CollapseHop, LookupWildcard;
    collapse := !HopAt(Materialised(a, rz), UncleanTarget(a, rz, q), t).Chain?;
    if collapse {
      UncleanTargetShows(a, rz, q, t);
    } else {
      UncleanEmitted(a, rz, q, t);
      UncleanFollowed(a, rz, q, t);
    }
  }

  /**
   The exact condition, under the suffix rule. A backup serves its renamed zone for every
   query, every set of overrides, both collapse modes and any ephemeral values if and only if
   every CNAME RRset of the root ends in a clean target: one that does not lie in the backup
   zone and outside the root.
   */
  lemma TransparentExactlyWhenClean(a: Alias, rz: Zone)
    requires Ready(a, rz) && ApexSOA(rz) && ShortCNAMESets(rz) && !a.anywhere
    ensures SoaOk(Materialised(a, rz))
    ensures Transparent(a, rz) <==> CleanTargets(a, rz)
  {
    BackupSOAIsRewrite(a.(anywhere := false), rz.soa.value);
    if CleanTargets(a, rz) {
      forall bz, collapse, q, t, eph | Served(a, q, t)
        ensures HandleBackup(a, bz, rz, collapse, q, t, eph) ==
                Overlay(bz, q, t, HandleRoot(Materialised(a, rz), collapse, q, t, eph))
      {
        AliasTransparency(a, bz, rz, collapse, q, t, eph);
      }
    } else {
      var o :| o in rz.recs && Lookup(rz, o, TYPE_CNAME) != [] &&
        !CleanRecord(a, Lookup(rz, o, TYPE_CNAME)[|Lookup(rz, o, TYPE_CNAME)| - 1]);
      OpaqueOwner(a, rz, o);
    }
  }

  lemma OpaqueOwner(a: Alias, rz: Zone, o: Name)
    requires Ready(a, rz) && ApexSOA(rz) && ShortCNAMESets(rz) && !a.anywhere && SoaOk(Materialised(a, rz))
    requires o in rz.recs && Lookup(rz, o, TYPE_CNAME) != []
    requires !CleanRecord(a, Lookup(rz, o, TYPE_CNAME)[|Lookup(rz, o, TYPE_CNAME)| - 1])
    ensures !Transparent(a, rz)
  {
    var q := ToBackup(a, o);
    var t := UnusedType(a, rz);
    RewriteRoundTrip(o, a.root, a.backup);
    RewriteLandsInTarget(o, a.root, a.backup);
    assert ToRoot(a, q) == o && Unclean(a, rz, q, t);
    var collapse := UncleanIsOpaque(a, rz, q, t);
    hide HandleBackup, HandleRoot, Materialised, Unclean, Lookup, LookupWildcard;
    assert Served(a, q, t);
    assert Overlay(None, q, t, HandleRoot(Materialised(a, rz), collapse, q, t, [])) ==
           HandleRoot(Materialised(a, rz), collapse, q, t, []);
  }
}
