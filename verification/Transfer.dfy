/**
 Zone transfer of a backup (internal/transfer/axfr.go): the root zone's records, rewritten,
 with the backup's overrides in place of the RRsets they replace.
 */
module Transfer {
  import opened Wrappers
  import opened DnsNames
  import opened NameText
  import opened Records
  import opened ZoneData
  import opened Resolver
  import opened Handler
  import opened Materialise
  import opened Sorting
  import opened Leak

  // ----- order

  predicate OwnerLeq(o: Name, p: Name) {
    TextLeq(Text(o), Text(p))
  }

  predicate TypeLeq(t: RRType, u: RRType) {
    t <= u
  }

  lemma OrdersAreTotal()
    ensures TotalPreorder(OwnerLeq) && TotalPreorder(TypeLeq)
  {
    forall o: Name, p: Name ensures OwnerLeq(o, p) || OwnerLeq(p, o) {
      TextLeqTotal(Text(o), Text(p));
    }
    forall o: Name, p: Name, r: Name | OwnerLeq(o, p) && OwnerLeq(p, r) ensures OwnerLeq(o, r) {
      TextLeqTransitive(Text(o), Text(p), Text(r));
    }
  }

  /** owners lists the zone's owners in byte order, and types[o] the types at o in order. */
  ghost predicate TransferOrder(z: Zone, owners: seq<Name>, types: map<Name, seq<RRType>>) {
    && SortedListing(owners, z.recs.Keys, OwnerLeq)
    && (forall o :: o in owners ==> o in types && SortedListing(types[o], z.recs[o].Keys, TypeLeq))
  }

  /** In byte order of their texts, and by number: each strictly after the one before. */
  lemma OrderIsStrict(z: Zone, owners: seq<Name>, types: map<Name, seq<RRType>>)
    requires TransferOrder(z, owners, types)
    ensures forall i, j :: 0 <= i < j < |owners| ==> TextLeq(Text(owners[i]), Text(owners[j])) && owners[i] != owners[j]
    ensures forall o :: o in owners <==> o in z.recs
    ensures forall o :: o in z.recs ==>
              && o in types && (forall t :: t in types[o] <==> t in z.recs[o])
              && forall i, j :: 0 <= i < j < |types[o]| ==> types[o][i] < types[o][j]
  {
    forall o | o in z.recs
      ensures o in types && (forall t :: t in types[o] <==> t in z.recs[o])
      ensures forall i, j :: 0 <= i < j < |types[o]| ==> types[o][i] < types[o][j]
    {
      assert o in owners;
      assert SortedListing(types[o], z.recs[o].Keys, TypeLeq);
    }
  }

  // ----- what a query would be answered

  /** The exact-match answer a client gets for the renamed owner; the SOA is sent separately. */
  function QueryAnswer(a: Alias, bz: Option<Zone>, rz: Zone, o: Name, t: RRType): seq<RR> {
    if t == TYPE_SOA then [] else ResolveExactNoCNAME(a, bz, rz, ToBackup(a, o), t).rrs
  }

  function QueryWithheld(a: Alias, bz: Option<Zone>, rz: Zone, o: Name, t: RRType): seq<RR> {
    if t == TYPE_SOA then [] else ResolveExactNoCNAME(a, bz, rz, ToBackup(a, o), t).withheld
  }

  function AnswersAt(a: Alias, bz: Option<Zone>, rz: Zone, o: Name, types: seq<RRType>): seq<RR> {
    if types == [] then []
    else AnswersAt(a, bz, rz, o, types[..|types| - 1]) + QueryAnswer(a, bz, rz, o, types[|types| - 1])
  }

  function WithheldAt(a: Alias, bz: Option<Zone>, rz: Zone, o: Name, types: seq<RRType>): seq<RR> {
    if types == [] then []
    else WithheldAt(a, bz, rz, o, types[..|types| - 1]) + QueryWithheld(a, bz, rz, o, types[|types| - 1])
  }

  function AnswersOver(a: Alias, bz: Option<Zone>, rz: Zone, owners: seq<Name>, types: map<Name, seq<RRType>>): seq<RR>
    requires forall o :: o in owners ==> o in types
  {
    if owners == [] then []
    else
      var last := owners[|owners| - 1];
      AnswersOver(a, bz, rz, owners[..|owners| - 1], types) + AnswersAt(a, bz, rz, last, types[last])
  }

  function WithheldOver(a: Alias, bz: Option<Zone>, rz: Zone, owners: seq<Name>, types: map<Name, seq<RRType>>): seq<RR>
    requires forall o :: o in owners ==> o in types
  {
    if owners == [] then []
    else
      var last := owners[|owners| - 1];
      WithheldOver(a, bz, rz, owners[..|owners| - 1], types) + WithheldAt(a, bz, rz, last, types[last])
  }

  // ----- what the transfer emits

  /** Without an override, a query is answered with the root's own records, none of them a CNAME to chase. */
  lemma AnswerFromRoot(a: Alias, bz: Option<Zone>, rz: Zone, o: Name, t: RRType)
    requires Ready(a, rz) && o in rz.recs && t in rz.recs[o] && t != TYPE_SOA
    requires !(Overridable(t) && bz.Some? && Lookup(bz.value, ToBackup(a, o), t) != [])
    ensures QueryAnswer(a, bz, rz, o, t) == RewriteRRs(a, Kept(a, rz.recs[o][t]))
    ensures QueryWithheld(a, bz, rz, o, t) == WithheldOf(a, rz.recs[o][t])
  {
    RewriteRoundTrip(o, a.root, a.backup);
    LookupOk(rz, o, t);
    hide Kept, WithheldOf, RewriteRRs, Ready, FollowCNAME, InZone;
  }

  lemma AnswerFromOverride(a: Alias, bz: Option<Zone>, rz: Zone, o: Name, t: RRType)
    requires Overridable(t) && bz.Some? && Lookup(bz.value, ToBackup(a, o), t) != []
    ensures QueryAnswer(a, bz, rz, o, t) == Lookup(bz.value, ToBackup(a, o), t)
    ensures QueryWithheld(a, bz, rz, o, t) == []
  {
    hide Lookup, ToBackup;
  }

  /** One RRset of the walk: the override, or the root's records filtered and rewritten. */
  method EmitRRset(a: Alias, bz: Option<Zone>, rz: Zone, o: Name, t: RRType) returns (rrs: seq<RR>, withheld: seq<RR>)
    requires Ready(a, rz) && o in rz.recs && t in rz.recs[o]
    ensures rrs == QueryAnswer(a, bz, rz, o, t)
    ensures withheld == QueryWithheld(a, bz, rz, o, t)
  {
    if t == TYPE_SOA {
      return [], [];
    }
    hide *;
    var backupOwner := ToBackup(a, o);
    if Overridable(t) && bz.Some? && Lookup(bz.value, backupOwner, t) != [] {
      AnswerFromOverride(a, bz, rz, o, t);
      return Lookup(bz.value, backupOwner, t), [];
    }
    AnswerFromRoot(a, bz, rz, o, t);
    var kept;
    kept, withheld := FilterBackupRRs(a, rz.recs[o][t]);
    rrs := RewriteAll(a, kept);
  }

  method EmitOwner(a: Alias, bz: Option<Zone>, rz: Zone, o: Name, types: seq<RRType>) returns (rrs: seq<RR>, withheld: seq<RR>)
    requires Ready(a, rz) && o in rz.recs && forall t :: t in types ==> t in rz.recs[o]
    ensures rrs == AnswersAt(a, bz, rz, o, types)
    ensures withheld == WithheldAt(a, bz, rz, o, types)
  {
    rrs, withheld := [], [];
    for i := 0 to |types|
      invariant rrs == AnswersAt(a, bz, rz, o, types[..i])
      invariant withheld == WithheldAt(a, bz, rz, o, types[..i])
    {
      var more, moreWithheld := EmitRRset(a, bz, rz, o, types[i]);
      assert types[..i + 1][..i] == types[..i];
      rrs, withheld := rrs + more, withheld + moreWithheld;
    }
    assert types[..|types|] == types;
  }

  /** Collects and sorts the owners, and the types at each. */
  method SortZone(rz: Zone) returns (owners: seq<Name>, types: map<Name, seq<RRType>>)
    ensures TransferOrder(rz, owners, types)
  {
    OrdersAreTotal();
    owners := SortSet(rz.recs.Keys, OwnerLeq);
    types := map[];
    for i := 0 to |owners|
      invariant forall j :: 0 <= j < i ==> owners[j] in types
      invariant forall j :: 0 <= j < i ==> SortedListing(types[owners[j]], rz.recs[owners[j]].Keys, TypeLeq)
    {
      var ts := SortSet(rz.recs[owners[i]].Keys, TypeLeq);
      types := types[owners[i] := ts];
    }
  }

  lemma OwnerInOrder(rz: Zone, owners: seq<Name>, types: map<Name, seq<RRType>>, i: nat)
    requires TransferOrder(rz, owners, types) && i < |owners|
    ensures owners[i] in owners && owners[i] in rz.recs && owners[i] in types
    ensures forall t :: t in types[owners[i]] ==> t in rz.recs[owners[i]]
  {
  }

  /**
   The non-SOA records of a backup transfer: over the root's owners and types, in order, the
   concatenation of the exact-match answers, with the same overrides and withholding.
   */
  method BuildAliasRecords(a: Alias, bz: Option<Zone>, rz: Zone)
    returns (records: seq<RR>, withheld: seq<RR>, owners: seq<Name>, types: map<Name, seq<RRType>>)
    requires Ready(a, rz)
    ensures TransferOrder(rz, owners, types)
    ensures records == AnswersOver(a, bz, rz, owners, types)
    ensures withheld == WithheldOver(a, bz, rz, owners, types)
  {
    owners, types := SortZone(rz);
    hide SortedListing, Ready;
    records, withheld := [], [];
    for i := 0 to |owners|
      invariant records == AnswersOver(a, bz, rz, owners[..i], types)
      invariant withheld == WithheldOver(a, bz, rz, owners[..i], types)
    {
      OwnerInOrder(rz, owners, types, i);
      var more, moreWithheld := EmitOwner(a, bz, rz, owners[i], types[owners[i]]);
      assert owners[..i + 1][..i] == owners[..i];
      records, withheld := records + more, withheld + moreWithheld;
    }
    assert owners[..|owners|] == owners;
  }

  /** SOA, records in transfer order, SOA. */
  ghost predicate Streams(a: Alias, bz: Option<Zone>, rz: Zone, owners: seq<Name>, types: map<Name, seq<RRType>>,
                          stream: seq<RR>)
  {
    && TransferOrder(rz, owners, types)
    && rz.soa.Some? && SoaOk(rz)
    && var soa := BackupSOA(a, rz.soa.value);
       stream == [soa] + AnswersOver(a, bz, rz, owners, types) + [soa]
  }

  ghost predicate NoSOAIn(rrs: seq<RR>) {
    forall i :: 0 <= i < |rrs| ==> rrs[i].rtype != 6
  }

  /** No RRset of the walk holds an SOA. */
  lemma AnswerHoldsNoSOA(a: Alias, bz: Option<Zone>, rz: Zone, o: Name, t: RRType)
    requires WellFormed(rz) && (bz.Some? ==> WellFormed(bz.value)) && InZone(o, a.root)
    ensures NoSOAIn(QueryAnswer(a, bz, rz, o, t))
  {
    if t != TYPE_SOA {
      RewriteRoundTrip(o, a.root, a.backup);
      LookupOk(rz, o, t);
      if bz.Some? { LookupOk(bz.value, ToBackup(a, o), t); }
      var rrs := Lookup(rz, o, t);
      if rrs != [] {
        KeptNoSOA(a, rrs);
        assert Chased(rz, rrs, t) == rrs;
      }
      hide WellFormed, Lookup, Kept, WithheldOf, FollowCNAME, InZone;
    }
  }

  lemma KeptNoSOA(a: Alias, rrs: seq<RR>)
    requires NoSOAIn(rrs)
    ensures NoSOAIn(Kept(a, rrs))
  {
    forall i | 0 <= i < |Kept(a, rrs)| ensures Kept(a, rrs)[i].rtype != 6 {
      KeptMembers(a, rrs, Kept(a, rrs)[i]);
    }
  }

  lemma {:induction false} OwnerHoldsNoSOA(a: Alias, bz: Option<Zone>, rz: Zone, o: Name, types: seq<RRType>)
    requires WellFormed(rz) && (bz.Some? ==> WellFormed(bz.value)) && InZone(o, a.root)
    ensures NoSOAIn(AnswersAt(a, bz, rz, o, types))
  {
    hide QueryAnswer, WellFormed, InZone;
    if types != [] {
      OwnerHoldsNoSOA(a, bz, rz, o, types[..|types| - 1]);
      AnswerHoldsNoSOA(a, bz, rz, o, types[|types| - 1]);
    }
  }

  /** The stream has the backup's SOA at its two ends and no SOA in between. */
  lemma {:induction false} BodyHoldsNoSOA(a: Alias, bz: Option<Zone>, rz: Zone, owners: seq<Name>, types: map<Name, seq<RRType>>)
    requires WellFormed(rz) && (bz.Some? ==> WellFormed(bz.value))
    requires forall p :: p in owners ==> p in types && InZone(p, a.root)
    ensures NoSOAIn(AnswersOver(a, bz, rz, owners, types))
  {
    hide AnswersAt, WellFormed, InZone;
    if owners != [] {
      var last := owners[|owners| - 1];
      BodyHoldsNoSOA(a, bz, rz, owners[..|owners| - 1], types);
      OwnerHoldsNoSOA(a, bz, rz, last, types[last]);
    }
  }

  /** The stream of a backup transfer, or None when it is refused. */
  method HandleAliasAXFR(udp: bool, a: Alias, bz: Option<Zone>, rz: Option<Zone>) returns (stream: Option<seq<RR>>)
    requires rz.Some? ==> Ready(a, rz.value)
    ensures stream.Some? <==> !udp && rz.Some? && rz.value.soa.Some?
    ensures stream.Some? ==> exists owners, types :: Streams(a, bz, rz.value, owners, types, stream.value)
  {
    if udp || rz.None? || rz.value.soa.None? {
      return None;
    }
    var soa := BackupSOA(a, rz.value.soa.value);
    var records, _, owners, types := BuildAliasRecords(a, bz, rz.value);
    assert Streams(a, bz, rz.value, owners, types, [soa] + records + [soa]);
    return Some([soa] + records + [soa]);
  }

  lemma EmptyOnlyIfWithheld(a: Alias, rrs: seq<RR>)
    requires rrs != []
    ensures Kept(a, rrs) != [] || WithheldOf(a, rrs) != []
  {
    NothingWithheld(a, rrs);
  }

  /** The transferred RRset is the answer section of the backup's reply for that name and type. */
  lemma TransferMatchesQueries(a: Alias, bz: Option<Zone>, rz: Zone, collapse: bool, o: Name, t: RRType)
    requires Ready(a, rz) && rz.soa.Some? && o in rz.recs && t in rz.recs[o]
    requires t != TYPE_SOA && !(t == TYPE_CNAME && collapse)
    ensures HandleBackup(a, bz, rz, collapse, ToBackup(a, o), t, []).answer == QueryAnswer(a, bz, rz, o, t)
  {
    RewriteRoundTrip(o, a.root, a.backup);
    LookupOk(rz, o, t);
    var rrs := Lookup(rz, o, t);
    EmptyOnlyIfWithheld(a, rrs);
  }

  // ----- a CNAME under collapsing

  /** The one CNAME of owner o. */
  ghost predicate SoleCNAME(rz: Zone, o: Name, rr: RR) {
    o in rz.recs && Lookup(rz, o, TYPE_CNAME) == [rr] && rr.data.Cname?
  }

  /** The chain from rr is answered with a CNAME indistinguishable from the transferred one. */
  predicate SameTail(a: Alias, rz: Zone, rr: RR)
    requires rr.data.Cname?
  {
    var r := CollapseCNAME(rz, [rr], TYPE_CNAME);
    r.CollapseTail? && RewriteValue(a, r.target) == RewriteValue(a, rr.data.target) && r.minTTL == rr.ttl
  }

  /** The transfer sends an owner's CNAME as it stands, while a collapsing reply consumes the chain. */
  lemma CollapsedCNAMETransfer(a: Alias, bz: Option<Zone>, rz: Zone, o: Name, rr: RR)
    requires Ready(a, rz) && rz.soa.Some? && SoaOk(rz) && SoleCNAME(rz, o, rr)
    ensures HandleBackup(a, bz, rz, true, ToBackup(a, o), TYPE_CNAME, []).answer == QueryAnswer(a, bz, rz, o, TYPE_CNAME)
            <==> SameTail(a, rz, rr)
  {
    LookupOk(rz, o, TYPE_CNAME);
    RewriteRoundTrip(o, a.root, a.backup);
    TransferredCNAME(a, bz, rz, o, rr);
    CollapsedTailIsCNAME(rz, rr.data.target, 1, rr.ttl);
    hide CollapseFrom, Ready, RewriteValue;
  }

  lemma TransferredCNAME(a: Alias, bz: Option<Zone>, rz: Zone, o: Name, rr: RR)
    requires Ready(a, rz) && SoleCNAME(rz, o, rr)
    ensures QueryAnswer(a, bz, rz, o, TYPE_CNAME) == [RR(ToBackup(a, o), TYPE_CNAME, rr.ttl, Cname(RewriteValue(a, rr.data.target)))]
  {
    LookupOk(rz, o, TYPE_CNAME);
    RewriteRoundTrip(o, a.root, a.backup);
    assert Kept(a, [rr]) == [rr] by { NothingWithheld(a, [rr]); }
  }

  /** For CNAME queries a consumed chain never ends in records. */
  lemma {:induction false} CollapsedTailIsCNAME(z: Zone, target: Name, consumed: nat, ttl: nat)
    ensures !CollapseFrom(z, target, consumed, ttl, TYPE_CNAME).CollapseRecords?
    decreases Budget(consumed)
  {
    var h := CollapseHop(z, target, TYPE_CNAME);
    match CollapseStep(h, target, consumed, ttl) {
      case Ended(_) =>
      case GoOn(target', consumed', ttl') => CollapsedTailIsCNAME(z, target', consumed', ttl');
    }
  }

  /** What decides it at the first hop: a target outside the root agrees, a dead end does not. */
  lemma FirstHopDecides(a: Alias, rz: Zone, rr: RR)
    requires rr.data.Cname?
    ensures !InZone(rr.data.target, rz.origin) ==> SameTail(a, rz, rr)
    ensures CollapseHop(rz, rr.data.target, TYPE_CNAME).DeadEnd? ==> !SameTail(a, rz, rr)
  {
  }

  /** A rank that every hop from a CNAME lowers: the zone has no CNAME loop. */
  ghost predicate LowersRank(z: Zone, rank: Name -> nat) {
    forall x :: ChainsOn(z, x) ==> rank(NextTarget(z, x)) < rank(x)
  }

  /** A CNAME, the name's own or a wildcard's, leads on from x. */
  predicate ChainsOn(z: Zone, x: Name) {
    var h := CollapseHop(z, x, TYPE_CNAME);
    h.Chain? && h.rrs != [] && h.rrs[|h.rrs| - 1].data.Cname?
  }

  function NextTarget(z: Zone, x: Name): Name
    requires ChainsOn(z, x)
  {
    var rrs := CollapseHop(z, x, TYPE_CNAME).rrs;
    rrs[|rrs| - 1].data.target
  }

  /** The tail of a consumed chain is where it started, or a clean target of lower rank. */
  lemma {:induction false} TailIsLower(a: Alias, z: Zone, rank: Name -> nat, target: Name, consumed: nat, ttl: nat)
    requires Ready(a, z) && CleanTargets(a, z) && LowersRank(z, rank)
    ensures var r := CollapseFrom(z, target, consumed, ttl, TYPE_CNAME);
            r.CollapseTail? && r.target != target ==> rank(r.target) < rank(target) && CleanTarget(a, r.target)
    ensures var r := CollapseFrom(z, target, consumed, ttl, TYPE_CNAME);
            r.CollapseTail? && ChainsOn(z, target) && consumed < MAX_CNAME_DEPTH ==> r.target != target
    ensures CollapseHop(z, target, TYPE_CNAME).DeadEnd? ==> !CollapseFrom(z, target, consumed, ttl, TYPE_CNAME).CollapseTail?
    decreases Budget(consumed)
  {
    ChainRecordsClean(a, z, target, TYPE_CNAME);
    var h := CollapseHop(z, target, TYPE_CNAME);
    hide CollapseHop, CleanTargets, Ready, CleanTarget;
    match CollapseStep(h, target, consumed, ttl) {
      case Ended(_) =>
      case GoOn(target', consumed', ttl') =>
        assert ChainsOn(z, target) && NextTarget(z, target) == target';
        TailIsLower(a, z, rank, target', consumed', ttl');
    }
  }

  /** Moving names into the backup tells a clean tail from any other target inside the root. */
  lemma TailIsTold(a: Alias, target: Name, tail: Name)
    requires !a.anywhere && InZone(target, a.root) && CleanTarget(a, tail) && tail != target
    ensures RewriteValue(a, tail) != RewriteValue(a, target)
  {
    if InZone(tail, a.root) {
      RewriteInjective(tail, target, a.root, a.backup);
    } else {
      RewriteLandsInTarget(target, a.root, a.backup);
    }
  }

  /**
   Under the suffix rule, with clean targets and no CNAME loop, a collapsing reply shows the CNAME
   that is transferred exactly when its target lies outside the root zone.
   */
  lemma CollapsedCNAMEAgreesExactly(a: Alias, bz: Option<Zone>, rz: Zone, rank: Name -> nat, o: Name, rr: RR)
    requires Ready(a, rz) && rz.soa.Some? && SoaOk(rz) && SoleCNAME(rz, o, rr)
    requires !a.anywhere && CleanTargets(a, rz) && LowersRank(rz, rank)
    ensures HandleBackup(a, bz, rz, true, ToBackup(a, o), TYPE_CNAME, []).answer == QueryAnswer(a, bz, rz, o, TYPE_CNAME)
            <==> !InZone(rr.data.target, a.root)
  {
    var target := rr.data.target;
    CollapsedCNAMETransfer(a, bz, rz, o, rr);
    TailIsLower(a, rz, rank, target, 1, rr.ttl);
    FirstHopDecides(a, rz, rr);
    ChainRecordsClean(a, rz, target, TYPE_CNAME);
    if InZone(target, a.root) {
      HopEndsOrChains(rz, target);
    }
    var r := CollapseCNAME(rz, [rr], TYPE_CNAME);
    hide HandleBackup, QueryAnswer, CollapseHop, CollapseFrom, CleanTargets, CleanTarget, InZone, RewriteValue;
    if r.CollapseTail? && r.target != target && InZone(target, a.root) {
      TailIsTold(a, target, r.target);
    }
  }

  lemma HopEndsOrChains(z: Zone, target: Name)
    requires WellFormed(z) && InZone(target, z.origin)
    ensures CollapseHop(z, target, TYPE_CNAME).DeadEnd? || ChainsOn(z, target)
  {
    var w := WildcardOwner(z, target);
    LookupOk(z, target, TYPE_CNAME);
    if w.Some? {
      LookupOk(z, w.value, TYPE_CNAME);
    }
  }

  const PLAIN := Alias(["r"], ["b"], false, {})
  const DANGLING := RR(["www", "r"], TYPE_CNAME, 60, Cname(["gone", "r"]))
  const APEX := RR(["r"], TYPE_SOA, 60, Soa(["r"], ["r"], 1, 1, 1, 1, 1))

  const UNDER_R := Zone(["r"], map[], None)

  /** A root zone whose only CNAME, at "www", points at a name with nothing. */
  function DanglingZone(): Zone {
    Add(Add(UNDER_R, APEX), DANGLING)
  }

  lemma DanglingZoneIsReady()
    ensures Ready(PLAIN, DanglingZone()) && DanglingZone().soa == Some(APEX)
    ensures SoleCNAME(DanglingZone(), ["www", "r"], DANGLING)
  {
    assert ["www", "r"][1..] == ["r"];
    AddKeepsWellFormed(UNDER_R, APEX);
    AddKeepsWellFormed(Add(UNDER_R, APEX), DANGLING);
    AddLookup(UNDER_R, APEX, ["www", "r"], TYPE_CNAME);
    AddLookup(Add(UNDER_R, APEX), DANGLING, ["www", "r"], TYPE_CNAME);
    hide WellFormed, InBailiwick;
  }

  lemma DanglingIsDeadEnd()
    ensures CollapseHop(DanglingZone(), ["gone", "r"], TYPE_CNAME) == DeadEnd
  {
    var z, target := DanglingZone(), ["gone", "r"];
    assert z.recs.Keys == {["r"], ["www", "r"]};
    assert target[1..] == ["r"] && WildcardAt(["r"]) == ["*", "r"];
    assert ["*", "r"][0] != ["www", "r"][0] && target[0] != ["www", "r"][0];
    assert ["*", "r"] !in z.recs && target !in z.recs;
    assert LookupWildcard(z, target, TYPE_CNAME).0 == [];
  }

  /** The two can differ: a dangling CNAME is transferred, but collapsed away in a reply. */
  lemma CollapsedCNAMECanDiffer()
    ensures Ready(PLAIN, DanglingZone()) && SoleCNAME(DanglingZone(), ["www", "r"], DANGLING)
    ensures HandleBackup(PLAIN, None, DanglingZone(), true, ToBackup(PLAIN, ["www", "r"]), TYPE_CNAME, []).answer !=
            QueryAnswer(PLAIN, None, DanglingZone(), ["www", "r"], TYPE_CNAME)
  {
    DanglingZoneIsReady();
    DanglingIsDeadEnd();
    FirstHopDecides(PLAIN, DanglingZone(), DANGLING);
    CollapsedCNAMETransfer(PLAIN, None, DanglingZone(), ["www", "r"], DANGLING);
  }

  const LOOPING := RR(["www", "r"], TYPE_CNAME, 60, Cname(["www", "r"]))

  /** A root zone whose only CNAME points at itself. */
  function LoopingZone(): Zone {
    Add(Add(UNDER_R, APEX), LOOPING)
  }

  lemma LoopingZoneIsReady()
    ensures Ready(PLAIN, LoopingZone()) && LoopingZone().soa == Some(APEX)
    ensures SoleCNAME(LoopingZone(), ["www", "r"], LOOPING)
    ensures InZone(["www", "r"], ["r"])
  {
    assert ["www", "r"][1..] == ["r"];
    AddKeepsWellFormed(UNDER_R, APEX);
    AddKeepsWellFormed(Add(UNDER_R, APEX), LOOPING);
    AddLookup(UNDER_R, APEX, ["www", "r"], TYPE_CNAME);
    AddLookup(Add(UNDER_R, APEX), LOOPING, ["www", "r"], TYPE_CNAME);
    hide WellFormed, InBailiwick;
  }

  /** A loop is walked until the budget is used up. */
  lemma {:induction false} LoopEndsWhereItStarts(consumed: nat)
    requires 1 <= consumed <= MAX_CNAME_DEPTH
    ensures CollapseFrom(LoopingZone(), ["www", "r"], consumed, 60, TYPE_CNAME) == CollapseTail(["www", "r"], 60)
    decreases MAX_CNAME_DEPTH - consumed
  {
    LoopingZoneIsReady();
    hide Lookup, LoopingZone;
    assert CollapseHop(LoopingZone(), ["www", "r"], TYPE_CNAME) == Chain([LOOPING]);
    assert MinTTL(60, [LOOPING]) == 60 by { assert [LOOPING][1..] == []; }
    if consumed < MAX_CNAME_DEPTH {
      LoopEndsWhereItStarts(consumed + 1);
    }
  }

  /** Loops are why the zone must have none: a CNAME at itself is answered as transferred. */
  lemma LoopingCNAMEAgrees()
    ensures Ready(PLAIN, LoopingZone()) && SoleCNAME(LoopingZone(), ["www", "r"], LOOPING)
    ensures InZone(LOOPING.data.target, PLAIN.root)
    ensures HandleBackup(PLAIN, None, LoopingZone(), true, ToBackup(PLAIN, ["www", "r"]), TYPE_CNAME, []).answer ==
            QueryAnswer(PLAIN, None, LoopingZone(), ["www", "r"], TYPE_CNAME)
  {
    LoopingZoneIsReady();
    LoopingSameTail();
    assert SoaOk(LoopingZone());
    hide *;
    CollapsedCNAMETransfer(PLAIN, None, LoopingZone(), ["www", "r"], LOOPING);
  }

  lemma LoopingSameTail()
    ensures SameTail(PLAIN, LoopingZone(), LOOPING)
  {
    LoopEndsWhereItStarts(1);
    assert [LOOPING][1..] == [] && MinTTL(60, []) == 60;
    hide LoopingZone, CollapseFrom;
  }

  // ----- what is streamed at all

  /** An answer is part of the walk exactly when the root owns the type at the rewritten name. */
  lemma TransferredExactlyWhenRootOwns(a: Alias, bz: Option<Zone>, rz: Zone, owners: seq<Name>, types: map<Name, seq<RRType>>,
                                       q: Name, t: RRType)
    requires Ready(a, rz) && TransferOrder(rz, owners, types) && InZone(q, a.backup)
    ensures var o := ToRoot(a, q);
            (o in owners && o in types && t in types[o]) <==> Lookup(rz, o, t) != []
    ensures Lookup(rz, ToRoot(a, q), t) != [] ==>
              exists before, after :: AnswersOver(a, bz, rz, owners, types) == before + QueryAnswer(a, bz, rz, ToRoot(a, q), t) + after
  {
    var o := ToRoot(a, q);
    LookupOk(rz, o, t);
    assert o in owners <==> o in rz.recs.Keys;
    if o in owners {
      assert t in types[o] <==> t in rz.recs[o].Keys;
    }
    if Lookup(rz, o, t) != [] {
      assert o in rz.recs && t in rz.recs[o];
      assert forall p :: p in owners ==> p in types;
      var before, after := AnswerStreamed(a, bz, rz, owners, types, o, t);
    }
  }

  lemma {:induction false} AnswerStreamed(a: Alias, bz: Option<Zone>, rz: Zone, owners: seq<Name>, types: map<Name, seq<RRType>>,
                                          o: Name, t: RRType) returns (before: seq<RR>, after: seq<RR>)
    requires forall p :: p in owners ==> p in types
    requires o in owners && t in types[o]
    ensures AnswersOver(a, bz, rz, owners, types) == before + QueryAnswer(a, bz, rz, o, t) + after
  {
    hide QueryAnswer;
    var front, last := owners[..|owners| - 1], owners[|owners| - 1];
    var here := AnswersAt(a, bz, rz, last, types[last]);
    if o == last {
      before, after := AnswerAtOwner(a, bz, rz, o, types[o], t);
      before := AnswersOver(a, bz, rz, front, types) + before;
    } else {
      assert owners == front + [last];
      before, after := AnswerStreamed(a, bz, rz, front, types, o, t);
      after := after + here;
    }
  }

  lemma {:induction false} AnswerAtOwner(a: Alias, bz: Option<Zone>, rz: Zone, o: Name, types: seq<RRType>, t: RRType)
    returns (before: seq<RR>, after: seq<RR>)
    requires t in types
    ensures AnswersAt(a, bz, rz, o, types) == before + QueryAnswer(a, bz, rz, o, t) + after
  {
    hide QueryAnswer;
    var front, last := types[..|types| - 1], types[|types| - 1];
    if t == last {
      before, after := AnswersAt(a, bz, rz, o, front), [];
    } else {
      assert types == front + [last];
      before, after := AnswerAtOwner(a, bz, rz, o, front, t);
      after := after + QueryAnswer(a, bz, rz, o, last);
    }
  }

  function OverrideAt(bz: Option<Zone>, q: Name, t: RRType): seq<RR> {
    if bz.Some? then Lookup(bz.value, q, t) else []
  }

  /**
   The stream depends on the overrides at the root's own owners and types only: an override
   with no counterpart in the root zone is never sent.
   */
  lemma {:induction false} OtherOverridesAreNotStreamed(a: Alias, bz: Option<Zone>, bz': Option<Zone>, rz: Zone,
                                                        owners: seq<Name>, types: map<Name, seq<RRType>>)
    requires forall p :: p in owners ==> p in types
    requires forall o, t :: o in owners && t in types[o] ==> OverrideAt(bz, ToBackup(a, o), t) == OverrideAt(bz', ToBackup(a, o), t)
    ensures AnswersOver(a, bz, rz, owners, types) == AnswersOver(a, bz', rz, owners, types)
  {
    hide QueryAnswer;
    if owners != [] {
      var last := owners[|owners| - 1];
      OtherOverridesAreNotStreamed(a, bz, bz', rz, owners[..|owners| - 1], types);
      SameAnswersAt(a, bz, bz', rz, last, types[last]);
    }
  }

  lemma {:induction false} SameAnswersAt(a: Alias, bz: Option<Zone>, bz': Option<Zone>, rz: Zone, o: Name, types: seq<RRType>)
    requires forall t :: t in types ==> OverrideAt(bz, ToBackup(a, o), t) == OverrideAt(bz', ToBackup(a, o), t)
    ensures AnswersAt(a, bz, rz, o, types) == AnswersAt(a, bz', rz, o, types)
  {
    if types != [] {
      SameAnswersAt(a, bz, bz', rz, o, types[..|types| - 1]);
      SameAnswer(a, bz, bz', rz, o, types[|types| - 1]);
      hide QueryAnswer;
    }
  }

  lemma SameAnswer(a: Alias, bz: Option<Zone>, bz': Option<Zone>, rz: Zone, o: Name, t: RRType)
    requires OverrideAt(bz, ToBackup(a, o), t) == OverrideAt(bz', ToBackup(a, o), t)
    ensures QueryAnswer(a, bz, rz, o, t) == QueryAnswer(a, bz', rz, o, t)
  {
    hide Lookup, Finalize, ToBackup;
  }

  // ----- no leak by transfer either

  ghost predicate CleanOrOverride(a: Alias, bz: Option<Zone>, rr: RR) {
    Clean(a, rr) || (bz.Some? && exists o, t :: Overridable(t) && rr in Lookup(bz.value, o, t))
  }

  lemma QueryAnswerClean(a: Alias, bz: Option<Zone>, rz: Zone, o: Name, t: RRType)
    requires Ready(a, rz) && Apart(a) && !a.anywhere && ZoneTabled(a, rz)
    ensures forall i :: 0 <= i < |QueryAnswer(a, bz, rz, o, t)| ==> CleanOrOverride(a, bz, QueryAnswer(a, bz, rz, o, t)[i])
  {
    var b := ToBackup(a, o);
    var rootRRs := Lookup(rz, ToRoot(a, b), t);
    if rootRRs != [] {
      FollowTabled(a, rz, rootRRs, t, Budget(|rootRRs|));
    }
    RewrittenClean(a, Chased(rz, rootRRs, t));
  }

  lemma {:induction false} OwnerAnswersClean(a: Alias, bz: Option<Zone>, rz: Zone, o: Name, types: seq<RRType>)
    requires Ready(a, rz) && Apart(a) && !a.anywhere && ZoneTabled(a, rz)
    ensures forall i :: 0 <= i < |AnswersAt(a, bz, rz, o, types)| ==> CleanOrOverride(a, bz, AnswersAt(a, bz, rz, o, types)[i])
  {
    if types != [] {
      OwnerAnswersClean(a, bz, rz, o, types[..|types| - 1]);
      QueryAnswerClean(a, bz, rz, o, types[|types| - 1]);
    }
  }

  /** Every transferred record is an override, or clean in the sense of module Leak. */
  lemma {:induction false} NoRootNameTransferred(a: Alias, bz: Option<Zone>, rz: Zone, owners: seq<Name>, types: map<Name, seq<RRType>>)
    requires Ready(a, rz) && Apart(a) && !a.anywhere && ZoneTabled(a, rz)
    requires forall o :: o in owners ==> o in types
    ensures forall i :: 0 <= i < |AnswersOver(a, bz, rz, owners, types)| ==>
              CleanOrOverride(a, bz, AnswersOver(a, bz, rz, owners, types)[i])
  {
    if owners != [] {
      var last := owners[|owners| - 1];
      NoRootNameTransferred(a, bz, rz, owners[..|owners| - 1], types);
      OwnerAnswersClean(a, bz, rz, last, types[last]);
    }
  }
}
