/**
 No root name reaches a backup's client: under the suffix rule, what the backup path emits
 has no owner and no RDATA name inside the root zone, and no record of a name-bearing type
 the rewrite does not cover.
 */
module Leak {
  import opened Wrappers
  import opened DnsNames
  import opened Records
  import opened ZoneData
  import opened Resolver
  import opened Handler

  /** Nothing about this record points into the root zone, and its type may be emitted. */
  predicate Clean(a: Alias, rr: RR) {
    && !Withheld(a, rr)
    && !InZone(rr.owner, a.root)
    && (forall i :: 0 <= i < |NamesIn(rr.data)| ==> !InZone(NamesIn(rr.data)[i], a.root))
  }

  ghost predicate AllClean(a: Alias, rrs: seq<RR>) {
    forall i :: 0 <= i < |rrs| ==> Clean(a, rrs[i])
  }

  /** Neither origin lies inside the other. */
  predicate Apart(a: Alias) {
    !InZone(a.backup, a.root) && !InZone(a.root, a.backup)
  }

  /**
   Where suffix replacement can land back in the root zone: only when one origin lies inside
   the other, and then exactly for these prefixes.
   */
  lemma PrefixedNameInRoot(p: Name, backup: Name, root: Name)
    ensures InZone(p + backup, root) <==>
            if |root| <= |backup| then InZone(backup, root)
            else InZone(root, backup) && InZone(p, root[..|root| - |backup|])
  {
    var n := p + backup;
    if |root| <= |backup| {
      assert n[|n| - |root|..] == backup[|backup| - |root|..];
    } else if |root| <= |n| {
      var k := |root| - |backup|;
      assert n[|n| - |root|..] == p[|p| - k..] + backup;
      assert root == root[..k] + root[k..];
      if InZone(n, root) {
        assert root[..k] == (p[|p| - k..] + backup)[..k] == p[|p| - k..];
        assert root[k..] == (p[|p| - k..] + backup)[k..] == backup;
      }
    }
  }

  lemma RewriteLeavesRoot(a: Alias, n: Name)
    requires Apart(a)
    ensures !InZone(Rewrite(n, a.root, a.backup), a.root)
    ensures InZone(n, a.backup) ==> !InZone(n, a.root)
  {
    if InZone(n, a.root) {
      PrefixedNameInRoot(n[..|n| - |a.root|], a.backup, a.root);
    }
    if InZone(n, a.backup) {
      PrefixedNameInRoot(n[..|n| - |a.backup|], a.backup, a.root);
      assert n == n[..|n| - |a.backup|] + a.backup;
    }
  }

  /** A root name whose rewrite is still a root name, when the origins are not apart. */
  lemma StayingName(a: Alias) returns (n: Name)
    requires !Apart(a)
    ensures InZone(n, a.root) && InZone(Rewrite(n, a.root, a.backup), a.root)
  {
    assert InZone(a.root, a.root) by { assert a.root[0..] == a.root; }
    if InZone(a.backup, a.root) {
      n := a.root;
      RewriteApex(a.root, a.backup);
    } else {
      var p := a.root[..|a.root| - |a.backup|];
      n := p + a.root;
      assert p + a.backup == a.root && n[|n| - |a.root|..] == a.root && n[..|n| - |a.root|] == p;
    }
  }

  /** Suffix rewriting keeps every root name out of the root zone exactly when the origins are apart. */
  lemma RewriteLeavesRootExactly(a: Alias)
    ensures (forall n :: InZone(n, a.root) ==> !InZone(Rewrite(n, a.root, a.backup), a.root)) <==> Apart(a)
  {
    if Apart(a) {
      forall n | InZone(n, a.root) ensures !InZone(Rewrite(n, a.root, a.backup), a.root) {
        RewriteLeavesRoot(a, n);
      }
    } else {
      var n := StayingName(a);
    }
  }

  /** When the root lies inside the backup, rewriting can yield a root name: "www" is enough. */
  lemma NestedOriginsLeak()
    ensures var root, backup := ["www", "backup", "com"], ["backup", "com"];
            !InZone(backup, root) && InZone(Rewrite(["www"] + root, root, backup), root)
  {
    var root: Name, backup: Name := ["www", "backup", "com"], ["backup", "com"];
    var n := ["www"] + root;
    assert n[1..] == root && n[..1] == ["www"];
    assert ["www"] + backup == root;
    assert root[0..] == root;
  }

  /** The type table knows every name-bearing record of the zone. */
  predicate Tabled(a: Alias, rr: RR) {
    rr.data.Other? && rr.data.names != [] ==> Classify(a, rr.rtype) != NoName
  }

  ghost predicate AllTabled(a: Alias, rrs: seq<RR>) {
    forall i :: 0 <= i < |rrs| ==> Tabled(a, rrs[i])
  }

  ghost predicate ZoneTabled(a: Alias, z: Zone) {
    forall o, t :: AllTabled(a, Lookup(z, o, t))
  }

  lemma RewrittenDataClean(a: Alias, rr: RR)
    requires Apart(a) && !a.anywhere && Tabled(a, rr) && !Withheld(a, rr)
    ensures forall i :: 0 <= i < |NamesIn(RewriteRData(a, rr.rtype, rr.data))| ==>
              !InZone(NamesIn(RewriteRData(a, rr.rtype, rr.data))[i], a.root)
  {
    var d := rr.data;
    forall i | 0 <= i < |NamesIn(d)| ensures !InZone(Rewrite(NamesIn(d)[i], a.root, a.backup), a.root) {
      RewriteLeavesRoot(a, NamesIn(d)[i]);
    }
    match d {
      case Cname(target) => RewriteLeavesRoot(a, target);
      case Soa(ns, mbox, _, _, _, _, _) => RewriteLeavesRoot(a, ns); RewriteLeavesRoot(a, mbox);
      case Other(names, _) =>
    }
  }

  lemma RewrittenClean(a: Alias, rrs: seq<RR>)
    requires Apart(a) && !a.anywhere && AllTabled(a, rrs)
    ensures AllClean(a, RewriteRRs(a, Kept(a, rrs)))
  {
    var kept := Kept(a, rrs);
    forall i | 0 <= i < |kept|
      ensures Clean(a, RewriteRR(a, kept[i]))
    {
      KeptMembers(a, rrs, kept[i]);
      RewrittenDataClean(a, kept[i]);
      RewriteLeavesRoot(a, kept[i].owner);
    }
  }

  lemma {:induction false} FollowTabled(a: Alias, z: Zone, answer: seq<RR>, t: RRType, fuel: nat)
    requires ZoneTabled(a, z) && answer != [] && AllTabled(a, answer)
    ensures AllTabled(a, FollowFrom(z, answer, t, fuel))
    decreases fuel
  {
    var last := answer[|answer| - 1];
    if fuel > 0 && last.data.Cname? {
      HopTabled(a, z, last.data.target, t);
      match HopAt(z, last.data.target, t) {
        case OutOfZone =>
        case DeadEnd =>
        case Terminal(rrs) =>
        case Chain(rrs) =>
          if rrs != [] {
            FollowTabled(a, z, answer + rrs, t, fuel - 1);
          }
      }
    }
  }

  lemma HopTabled(a: Alias, z: Zone, target: Name, t: RRType)
    requires ZoneTabled(a, z)
    ensures HopAt(z, target, t).Terminal? ==> AllTabled(a, HopAt(z, target, t).rrs)
    ensures HopAt(z, target, t).Chain? ==> AllTabled(a, HopAt(z, target, t).rrs)
    ensures CollapseHop(z, target, t).Terminal? ==> AllTabled(a, CollapseHop(z, target, t).rrs)
  {
    WildcardTabled(a, z, target, t);
    WildcardTabled(a, z, target, TYPE_CNAME);
  }

  lemma WildcardTabled(a: Alias, z: Zone, q: Name, t: RRType)
    requires ZoneTabled(a, z)
    ensures AllTabled(a, LookupWildcard(z, q, t).0)
  {
  }

  lemma {:induction false} CollapseTabled(a: Alias, z: Zone, target: Name, consumed: nat, ttl: nat, t: RRType)
    requires ZoneTabled(a, z)
    ensures var r := CollapseFrom(z, target, consumed, ttl, t); r.CollapseRecords? ==> AllTabled(a, r.rrs)
    decreases Budget(consumed)
  {
    HopTabled(a, z, target, t);
    match CollapseStep(CollapseHop(z, target, t), target, consumed, ttl) {
      case Ended(_) =>
      case GoOn(target', consumed', ttl') =>
        CollapseTabled(a, z, target', consumed', ttl', t);
    }
  }

  // ----- stages

  ghost predicate LeakSetting(a: Alias, rz: Zone, q: Name) {
    Apart(a) && !a.anywhere && ZoneTabled(a, rz) && InZone(q, a.backup)
  }

  lemma FinalizeClean(a: Alias, rz: Zone, start: seq<RR>, q: Name, t: RRType)
    requires LeakSetting(a, rz, q) && AllTabled(a, start)
    ensures AllClean(a, Finalize(a, rz, start, t).rrs)
  {
    if start != [] {
      FollowTabled(a, rz, start, t, Budget(|start|));
    }
    RewrittenClean(a, Chased(rz, start, t));
  }

  lemma SynthesizeClean(a: Alias, rz: Zone, wRRs: seq<RR>, q: Name, t: RRType)
    requires LeakSetting(a, rz, q) && AllTabled(a, wRRs)
    ensures AllClean(a, SynthesizeWildcard(a, rz, wRRs, q, t).rrs)
  {
    var kept := Kept(a, wRRs);
    forall i | 0 <= i < |kept| ensures Tabled(a, kept[i]) {
      KeptMembers(a, wRRs, kept[i]);
    }
    FinalizeClean(a, rz, WithOwner(kept, Rewrite(q, a.backup, a.root)), q, t);
  }

  lemma CollapseClean(a: Alias, rz: Zone, initial: seq<RR>, q: Name, t: RRType)
    requires LeakSetting(a, rz, q)
    ensures AllClean(a, CollapseResult(a, CollapseCNAME(rz, initial, t), q).rrs)
  {
    RewriteLeavesRoot(a, q);
    var r := CollapseCNAME(rz, initial, t);
    if initial != [] && initial[|initial| - 1].data.Cname? {
      CollapseTabled(a, rz, initial[|initial| - 1].data.target, |initial|, MinTTL(initial[0].ttl, initial[1..]), t);
    }
    match r {
      case CollapseRecords(rrs, ttl) => RewrittenClean(a, rrs);
      case CollapseTail(target, ttl) => RewriteLeavesRoot(a, target);
      case CollapseNoData =>
    }
  }

  /** An answer record that does not come from the root zone: an override or an ephemeral value. */
  ghost predicate Own(bz: Option<Zone>, q: Name, t: RRType, eph: seq<string>, rr: RR) {
    (bz.Some? && Overridable(t) && rr in Lookup(bz.value, q, t)) || rr in EphemeralTXT(q, t, eph)
  }

  lemma StagesClean(a: Alias, bz: Option<Zone>, rz: Zone, collapse: bool, q: Name, t: RRType)
    requires LeakSetting(a, rz, q)
    ensures var s := ExactStage(a, bz, rz, collapse, q, t);
            AllClean(a, s.rrs) || (bz.Some? && Overridable(t) && s.rrs == Lookup(bz.value, q, t))
    ensures AllClean(a, LaterStages(a, rz, collapse, q, t).rrs)
  {
    var r := Rewrite(q, a.backup, a.root);
    var exact, cnames := Lookup(rz, r, t), Lookup(rz, r, TYPE_CNAME);
    var wRRs, wCNAMEs := LookupWildcard(rz, r, t).0, LookupWildcard(rz, r, TYPE_CNAME).0;
    WildcardTabled(a, rz, r, t);
    WildcardTabled(a, rz, r, TYPE_CNAME);
    FinalizeClean(a, rz, exact, q, t);
    FinalizeClean(a, rz, cnames, q, t);
    SynthesizeClean(a, rz, wRRs, q, t);
    SynthesizeClean(a, rz, wCNAMEs, q, t);
    CollapseClean(a, rz, cnames, q, t);
    CollapseClean(a, rz, wCNAMEs, q, t);
  }

  lemma BackupSOAClean(a: Alias, soa: RR)
    requires Apart(a) && soa.data.Soa?
    ensures Clean(a, BackupSOA(a, soa)) && Clean(a, CappedSOA(BackupSOA(a, soa)))
  {
    RewriteLeavesRoot(a, soa.data.ns);
    RewriteLeavesRoot(a, soa.data.mbox);
  }

  /** A reply that leaks nothing: each answer record is clean or the backup's own, the SOA is clean. */
  ghost predicate LeakFree(a: Alias, reply: Reply, bz: Option<Zone>, q: Name, t: RRType, eph: seq<string>) {
    && (forall i :: 0 <= i < |reply.answer| ==> Clean(a, reply.answer[i]) || Own(bz, q, t, eph, reply.answer[i]))
    && (reply.authority.Some? ==> Clean(a, reply.authority.value))
  }

  lemma CleanOrOwn(a: Alias, bz: Option<Zone>, q: Name, t: RRType, eph: seq<string>, rrs: seq<RR>)
    requires AllClean(a, rrs) || (bz.Some? && Overridable(t) && rrs == Lookup(bz.value, q, t)) || rrs == EphemeralTXT(q, t, eph)
    ensures forall i :: 0 <= i < |rrs| ==> Clean(a, rrs[i]) || Own(bz, q, t, eph, rrs[i])
  {
    hide Clean, EphemeralTXT, Lookup;
  }

  lemma BackupAuthority(a: Alias, bz: Option<Zone>, rz: Zone, collapse: bool, q: Name, t: RRType, eph: seq<string>)
    requires rz.soa.Some? && SoaOk(rz)
    ensures var authority := HandleBackup(a, bz, rz, collapse, q, t, eph).authority;
            authority.Some? ==> authority.value == CappedSOA(BackupSOA(a, rz.soa.value))
  {
    hide ExactStage, LaterStages, Missed, CappedSOA, BackupHasName, EphemeralTXT;
  }

  /** Every stage's records are clean, an override, or ephemeral. */
  lemma AnswersClean(a: Alias, bz: Option<Zone>, rz: Zone, collapse: bool, q: Name, t: RRType, eph: seq<string>)
    requires LeakSetting(a, rz, q) && rz.soa.Some? && SoaOk(rz)
    ensures var rrs := HandleBackup(a, bz, rz, collapse, q, t, eph).answer;
            AllClean(a, rrs) || (bz.Some? && Overridable(t) && rrs == Lookup(bz.value, q, t)) || rrs == EphemeralTXT(q, t, eph)
  {
    StagesClean(a, bz, rz, collapse, q, t);
    BackupSOAClean(a, rz.soa.value);
    hide LeakSetting, ExactStage, LaterStages, Clean, EphemeralTXT, Lookup, Missed;
  }

  /**
   With the suffix rule and neither origin inside the other, every answer record of every
   backup reply is clean unless it is the backup's own, and so is the authority SOA.
   */
  lemma NoRootNameLeaks(a: Alias, bz: Option<Zone>, rz: Zone, collapse: bool, q: Name, t: RRType, eph: seq<string>)
    requires LeakSetting(a, rz, q) && rz.soa.Some? && SoaOk(rz)
    ensures LeakFree(a, HandleBackup(a, bz, rz, collapse, q, t, eph), bz, q, t, eph)
  {
    AnswersClean(a, bz, rz, collapse, q, t, eph);
    BackupSOAClean(a, rz.soa.value);
    CleanOrOwn(a, bz, q, t, eph, HandleBackup(a, bz, rz, collapse, q, t, eph).answer);
    BackupAuthority(a, bz, rz, collapse, q, t, eph);
    hide HandleBackup, LeakSetting, Clean, Own, AllClean, Lookup, EphemeralTXT, CappedSOA, BackupSOA;
  }

  /** The root zones a reply may come from: indexed soundly, with an SOA, every type in the table. */
  ghost predicate Source(a: Alias, rz: Zone) {
    WellFormed(rz) && InBailiwick(rz) && rz.origin == a.root && ZoneTabled(a, rz) && rz.soa.Some? && SoaOk(rz)
  }

  /** No reply of the alias leaks, whatever root zone it has and whatever is asked. */
  ghost predicate NeverLeaks(a: Alias) {
    forall bz, rz, collapse, q, t, eph :: Source(a, rz) && InZone(q, a.backup) ==>
      LeakFree(a, HandleBackup(a, bz, rz, collapse, q, t, eph), bz, q, t, eph)
  }

  /** The root zone that holds nothing but this SOA at its apex. */
  function OnlySOA(root: Name, soa: RR): Zone {
    Add(Zone(root, map[], None), soa)
  }

  lemma OnlySOAIsSource(a: Alias, soa: RR)
    requires a.root != [] && soa.data.Soa? && WellTyped(soa) && soa.owner == a.root
    ensures Source(a, OnlySOA(a.root, soa)) && OnlySOA(a.root, soa).soa == Some(soa)
  {
    var empty := Zone(a.root, map[], None);
    RewriteApex(a.root, a.root);
    AddKeepsWellFormed(empty, soa);
    assert WellFormed(empty) && InBailiwick(empty);
    assert OnlySOA(a.root, soa).soa == Some(soa) && OnlySOA(a.root, soa).origin == a.root by {
      hide WellFormed, InBailiwick, ZoneTabled;
    }
    OnlySOATabled(a, soa);
    hide WellFormed, InBailiwick, ZoneTabled, Add;
  }

  lemma OnlySOATabled(a: Alias, soa: RR)
    requires soa.data.Soa?
    ensures ZoneTabled(a, OnlySOA(a.root, soa))
  {
    var empty := Zone(a.root, map[], None);
    forall o, t ensures AllTabled(a, Lookup(OnlySOA(a.root, soa), o, t)) {
      AddLookup(empty, soa, o, t);
      assert Lookup(empty, o, t) == [] && [] + [soa] == [soa];
      hide Lookup, Add, HasDuplicate;
    }
  }

  lemma SOAReply(a: Alias, rz: Zone)
    requires rz.soa.Some? && SoaOk(rz)
    ensures HandleBackup(a, None, rz, false, a.backup, TYPE_SOA, []).answer == [BackupSOA(a, rz.soa.value)]
  {
    hide ExactStage, LaterStages, Answered;
  }

  lemma UncleanAnswerLeaks(a: Alias, reply: Reply, rr: RR)
    requires reply.answer == [rr] && !Clean(a, rr)
    ensures !LeakFree(a, reply, None, a.backup, TYPE_SOA, [])
  {
    assert reply.answer[0] == rr && !Own(None, a.backup, TYPE_SOA, [], rr);
  }

  /** With origins that are not apart, the backup's own SOA can name a server inside the root. */
  lemma NestedSOALeaks(a: Alias) returns (rz: Zone)
    requires !Apart(a) && a.root != []
    ensures Source(a, rz)
    ensures !LeakFree(a, HandleBackup(a, None, rz, false, a.backup, TYPE_SOA, []), None, a.backup, TYPE_SOA, [])
  {
    var n := StayingName(a);
    var soa := RR(a.root, TYPE_SOA, 0, Soa(n, n, 0, 0, 0, 0, 0));
    OnlySOAIsSource(a, soa);
    rz := OnlySOA(a.root, soa);
    var rr := BackupSOA(a, soa);
    assert NamesIn(rr.data)[0] == Rewrite(n, a.root, a.backup);
    assert !Clean(a, rr) && SoaOk(rz);
    hide *;
    SOAReply(a, rz);
    UncleanAnswerLeaks(a, HandleBackup(a, None, rz, false, a.backup, TYPE_SOA, []), rr);
  }

  /** Under the suffix rule no reply leaks, for any root zone and any query, exactly when the origins are apart. */
  lemma NoLeakExactlyWhenApart(a: Alias)
    requires !a.anywhere && a.root != []
    ensures NeverLeaks(a) <==> Apart(a)
  {
    hide HandleBackup, LeakFree, WellFormed, InBailiwick, ZoneTabled;
    if Apart(a) {
      forall bz, rz, collapse, q, t, eph | Source(a, rz) && InZone(q, a.backup)
        ensures LeakFree(a, HandleBackup(a, bz, rz, collapse, q, t, eph), bz, q, t, eph)
      {
        NoRootNameLeaks(a, bz, rz, collapse, q, t, eph);
      }
    } else {
      var rz := NestedSOALeaks(a);
      RewriteApex(a.backup, a.backup);
    }
  }
}
