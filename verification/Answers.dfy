/**
 What a reply holds, read off the records of the zone: stored RRsets, covering wildcards, chains
 through CNAMEs, ephemeral values and overrides. Module Transparency carries the root path's
 answers over to the backups.
 */
module Answers {
  import opened Wrappers
  import opened DnsNames
  import opened Records
  import opened ZoneData
  import opened ChainAgreement
  import opened Resolver
  import opened Handler
  import opened Transparency

  /** The name owns an RRset of the type. */
  predicate Owns(z: Zone, q: Name, t: RRType) {
    q in z.recs && t in z.recs[q]
  }

  // ----- root zones

  /** An RRset of the query name is the answer, as it is stored. */
  lemma StoredAnswer(z: Zone, collapse: bool, q: Name, t: RRType, eph: seq<string>)
    requires WellFormed(z) && Owns(z, q, t)
    requires !(t == TYPE_SOA && q == z.origin) && !(t == TYPE_CNAME && collapse)
    ensures HandleRoot(z, collapse, q, t, eph) == Reply(NoError, z.recs[q][t], None)
  {
    LookupOk(z, q, t);
  }

  lemma ApexSOAAnswer(z: Zone, collapse: bool, eph: seq<string>)
    requires WellFormed(z) && z.soa.Some?
    ensures HandleRoot(z, collapse, z.origin, TYPE_SOA, eph) == Reply(NoError, [z.soa.value], None)
  {
  }

  /** Ephemeral values answer TXT queries of a name without stored TXT records, one record each, in order. */
  lemma EphemeralAnswer(z: Zone, collapse: bool, q: Name, eph: seq<string>)
    requires WellFormed(z) && !Owns(z, q, 16) && eph != []
    ensures var reply := HandleRoot(z, collapse, q, 16, eph);
            && reply.rcode == NoError && reply.authority == None && |reply.answer| == |eph|
            && forall i :: 0 <= i < |eph| ==>
                 var rr := reply.answer[i]; rr.owner == q && rr.rtype == 16 && rr.data == Other([], eph[i])
  {
    LookupOk(z, q, 16);
  }

  /** Other types never see them. */
  lemma EphemeralIsTXTOnly(z: Zone, collapse: bool, q: Name, t: RRType, eph: seq<string>)
    requires SoaOk(z) && t != 16
    ensures HandleRoot(z, collapse, q, t, eph) == HandleRoot(z, collapse, q, t, [])
  {
  }

  /** A name that owns neither the type nor a CNAME is answered by the nearest wildcard, under its own name. */
  lemma WildcardAnswer(z: Zone, collapse: bool, q: Name, t: RRType, k: int, w: Name)
    requires WellFormed(z) && InZone(q, z.origin) && NearestWildcard(z, q, k, w)
    requires !Owns(z, q, t) && !Owns(z, q, TYPE_CNAME) && Owns(z, w, t)
    requires t != 0 && !(t == TYPE_CNAME && collapse)
    ensures var reply := HandleRoot(z, collapse, q, t, []);
            && reply.rcode == NoError && reply.authority == None && |reply.answer| == |z.recs[w][t]|
            && forall i :: 0 <= i < |reply.answer| ==> reply.answer[i] == z.recs[w][t][i].(owner := q)
  {
    WildcardRecords(z, q, k, w, t);
    LookupOk(z, w, t);
    BelowApex(z, q, k, w);
  }

  lemma BelowApex(z: Zone, q: Name, k: int, w: Name)
    requires NearestWildcard(z, q, k, w)
    ensures q != z.origin
  {
  }

  /** An empty answer carries the zone's SOA, capped; a positive one carries none and is no error. */
  lemma NegativeCarriesSOA(z: Zone, collapse: bool, q: Name, t: RRType, eph: seq<string>)
    requires WellFormed(z) && z.soa.Some?
    ensures var reply := HandleRoot(z, collapse, q, t, eph);
            var soa := z.soa.value;
            if reply.answer == [] then
              reply.authority == Some(soa.(ttl := if soa.data.minttl < soa.ttl then soa.data.minttl else soa.ttl))
            else
              reply.authority == None && reply.rcode == NoError
  {
    EitherWay(z, collapse, q, t, eph);
    hide HandleRoot, RootHasName, WellFormed;
  }

  /** The negative reply, or a reply with records. */
  ghost predicate NegativeOrFull(z: Zone, q: Name, reply: Reply)
    requires SoaOk(z)
  {
    reply == RootNegative(z, q) || (reply.answer != [] && reply.rcode == NoError && reply.authority == None)
  }

  lemma EitherWay(z: Zone, collapse: bool, q: Name, t: RRType, eph: seq<string>)
    requires WellFormed(z) && SoaOk(z)
    ensures NegativeOrFull(z, q, HandleRoot(z, collapse, q, t, eph))
  {
    EitherWayLater(z, collapse, q, t);
    CollapsedAnswerNonEmpty(z, Lookup(z, q, t), q, t);
    hide Lookup, CollapseCNAME, CollapseRoot, EphemeralTXT, RootNegative, RootLater, WellFormed;
  }

  lemma EitherWayLater(z: Zone, collapse: bool, q: Name, t: RRType)
    requires WellFormed(z) && SoaOk(z)
    ensures NegativeOrFull(z, q, RootLater(z, collapse, q, t))
  {
    CollapsedAnswerNonEmpty(z, Lookup(z, q, TYPE_CNAME), q, t);
    CollapsedAnswerNonEmpty(z, LookupWildcard(z, q, t).0, q, t);
    CollapsedAnswerNonEmpty(z, LookupWildcard(z, q, TYPE_CNAME).0, q, t);
    hide Lookup, LookupWildcard, CollapseCNAME, CollapseRoot, FollowCNAME, RootNegative, WellFormed;
  }

  /** A consumed chain is answered with records, or with the negative reply. */
  lemma CollapsedAnswerNonEmpty(z: Zone, start: seq<RR>, q: Name, t: RRType)
    requires WellFormed(z) && SoaOk(z)
    ensures NegativeOrFull(z, q, CollapseRoot(z, CollapseCNAME(z, start, t), q))
  {
    if start != [] && start[|start| - 1].data.Cname? {
      CollapsedTypes(z, start[|start| - 1].data.target, |start|, MinTTL(start[0].ttl, start[1..]), t);
    }
    hide CollapseFrom, RootNegative, MinTTL, WellFormed;
  }

  // ----- through a CNAME

  /** The CNAME a query for another type is redirected by: the name's own, or the nearest wildcard's. */
  ghost predicate Redirects(z: Zone, q: Name, t: RRType, cname: RR) {
    && t != TYPE_CNAME && !Owns(z, q, t)
    && if Owns(z, q, TYPE_CNAME) then z.recs[q][TYPE_CNAME] == [cname]
       else
         && InZone(q, z.origin)
         && exists k, w :: NearestWildcard(z, q, k, w) && !Owns(z, w, t) && Owns(z, w, TYPE_CNAME) &&
              z.recs[w][TYPE_CNAME] == [cname]
  }

  /** What such a query is answered with: the chain emitted from the CNAME, or consumed from it. */
  lemma RedirectedReply(z: Zone, q: Name, t: RRType, cname: RR)
    requires WellFormed(z) && Redirects(z, q, t, cname) && t != TYPE_SOA && t != 0
    ensures cname.data.Cname? && t != TYPE_CNAME
    ensures HandleRoot(z, false, q, t, []) == Positive(FollowFrom(z, [cname.(owner := q)], t, 7))
    ensures HandleRoot(z, true, q, t, []) == CollapseRoot(z, CollapseFrom(z, cname.data.target, 1, cname.ttl, t), q)
  {
    LookupOk(z, q, t);
    LookupOk(z, q, TYPE_CNAME);
    assert [cname][1..] == [] && MinTTL(cname.ttl, []) == cname.ttl;
    if Owns(z, q, TYPE_CNAME) {
      assert z.recs[q][TYPE_CNAME][0] == cname;
      assert cname.owner == q && cname.(owner := q) == cname;
    } else {
      var k, w :| NearestWildcard(z, q, k, w) && !Owns(z, w, t) && Owns(z, w, TYPE_CNAME) && z.recs[w][TYPE_CNAME] == [cname];
      WildcardRecords(z, q, k, w, t);
      WildcardRecords(z, q, k, w, TYPE_CNAME);
      LookupOk(z, w, TYPE_CNAME);
      assert z.recs[w][TYPE_CNAME][0] == cname;
      assert WithOwner([cname], q) == [cname.(owner := q)];
    }
    hide FollowFrom, CollapseFrom, LookupWildcard, WellFormed, NearestWildcard, CollapseRoot;
  }

  /** What a hop finds is what the server answers for the target, chained on with what is left of the budget. */
  lemma HopIsReply(z: Zone, x: Name, t: RRType)
    requires WellFormed(z) && SingletonCNAMEs(z) && InZone(x, z.origin)
    requires t != TYPE_CNAME && t != TYPE_SOA && t != 0
    ensures var behind, h := HandleRoot(z, false, x, t, []).answer, HopAt(z, x, t);
            && !h.OutOfZone?
            && (h.DeadEnd? ==> behind == [])
            && (h.Terminal? ==> behind == h.rrs)
            && (h.Chain? ==> |h.rrs| == 1 && h.rrs[0].data.Cname? && behind == FollowFrom(z, h.rrs, t, 7))
  {
    HopShape(z, x, t);
    assert WithOwner(Lookup(z, x, t), x) == Lookup(z, x, t) by { LookupOk(z, x, t); }
    OneRecordEach(z, x);
    hide WellFormed, SingletonCNAMEs, Lookup, LookupWildcard, FollowFrom, CollapseHop, InZone, RootNegative;
  }

  lemma OneRecordEach(z: Zone, x: Name)
    requires SingletonCNAMEs(z)
    ensures |Lookup(z, x, TYPE_CNAME)| <= 1 && |LookupWildcard(z, x, TYPE_CNAME).0| <= 1
  {
  }

  /** Records in front of a chain do not change how it goes on. */
  lemma {:induction false} FollowBehind(z: Zone, front: seq<RR>, answer: seq<RR>, t: RRType, fuel: nat)
    requires answer != []
    ensures FollowFrom(z, front + answer, t, fuel) == front + FollowFrom(z, answer, t, fuel)
    decreases fuel
  {
    var last := answer[|answer| - 1];
    assert (front + answer)[|front + answer| - 1] == last;
    if fuel > 0 && last.data.Cname? {
      hide HopAt;
      match HopAt(z, last.data.target, t) {
        case OutOfZone =>
        case DeadEnd =>
        case Terminal(rrs) => assert front + answer + rrs == front + (answer + rrs);
        case Chain(rrs) =>
          assert front + answer + rrs == front + (answer + rrs);
          FollowBehind(z, front, answer + rrs, t, fuel - 1);
      }
    }
  }

  lemma ChainGrows(z: Zone, answer: seq<RR>, t: RRType)
    requires WellFormed(z) && SingletonCNAMEs(z) && t != TYPE_CNAME && answer != [] && AllCNAMEs(answer)
    ensures answer[|answer| - 1].data.Cname?
    ensures var h := HopAt(z, answer[|answer| - 1].data.target, t);
            && (h.Chain? ==> |h.rrs| == 1 && AllCNAMEs(answer + h.rrs) && |answer + h.rrs| == |answer| + 1)
            && (h.Terminal? ==> h.rrs != [] && !h.rrs[0].data.Cname? && ChainLength(answer + h.rrs) == |answer|)
    ensures ChainLength(answer) == |answer|
  {
    var target := answer[|answer| - 1].data.target;
    HopShape(z, target, t);
    ChainLengthOf(answer, []);
    assert answer + [] == answer;
    var h := HopAt(z, target, t);
    hide HopAt, CollapseHop, WellFormed, SingletonCNAMEs, ChainLength;
    if h.Terminal? {
      ChainLengthOf(answer, h.rrs);
    }
  }

  /** One hop of a followed chain. */
  lemma FollowStep(z: Zone, answer: seq<RR>, t: RRType, fuel: nat)
    requires answer != [] && answer[|answer| - 1].data.Cname? && fuel > 0
    ensures var h := HopAt(z, answer[|answer| - 1].data.target, t);
            && (h.OutOfZone? || h.DeadEnd? ==> FollowFrom(z, answer, t, fuel) == answer)
            && (h.Terminal? ==> FollowFrom(z, answer, t, fuel) == answer + h.rrs)
            && (h.Chain? ==> FollowFrom(z, answer, t, fuel) == FollowFrom(z, answer + h.rrs, t, fuel - 1))
  {
    hide HopAt;
  }

  lemma NoBudget(z: Zone, answer: seq<RR>, t: RRType)
    requires answer != []
    ensures FollowFrom(z, answer, t, 0) == answer
  {
  }

  /** One unit of budget more or less does not matter to a chain that ends before it is used up. */
  lemma {:induction false} FuelToSpare(z: Zone, answer: seq<RR>, t: RRType, fuel: nat)
    requires WellFormed(z) && SingletonCNAMEs(z) && t != TYPE_CNAME && answer != []
    requires AllCNAMEs(answer) && ChainLength(FollowFrom(z, answer, t, fuel + 1)) < |answer| + fuel
    ensures FollowFrom(z, answer, t, fuel) == FollowFrom(z, answer, t, fuel + 1)
    decreases fuel
  {
    hide *;
    ChainGrows(z, answer, t);
    FollowedLength(z, answer, t, fuel + 1);
    FollowStep(z, answer, t, fuel + 1);
    if fuel > 0 {
      FollowStep(z, answer, t, fuel);
      var h := HopAt(z, answer[|answer| - 1].data.target, t);
      if h.Chain? {
        var longer := answer + h.rrs;
        FuelToSpare(z, longer, t, fuel - 1);
      }
    }
  }

  /** A followed answer starts with the CNAMEs it was given, and takes in no more than the budget. */
  lemma {:induction false} FollowedLength(z: Zone, answer: seq<RR>, t: RRType, fuel: nat)
    requires WellFormed(z) && SingletonCNAMEs(z) && t != TYPE_CNAME && answer != [] && AllCNAMEs(answer)
    ensures |answer| <= ChainLength(FollowFrom(z, answer, t, fuel)) <= |answer| + fuel
    decreases fuel
  {
    hide *;
    ChainGrows(z, answer, t);
    if fuel == 0 {
      NoBudget(z, answer, t);
    } else {
      FollowStep(z, answer, t, fuel);
      var h := HopAt(z, answer[|answer| - 1].data.target, t);
      if h.Chain? {
        var longer := answer + h.rrs;
        FollowedLength(z, longer, t, fuel - 1);
      }
    }
  }

  /**
   The chain law. A redirected query is answered with the CNAME, under the query name, followed by
   exactly what a query for its target is answered with, as long as that holds fewer than seven
   CNAMEs of its own; nothing follows a target outside the zone.
   */
  lemma AnswerThroughCNAME(z: Zone, q: Name, t: RRType, cname: RR)
    requires WellFormed(z) && SingletonCNAMEs(z) && Redirects(z, q, t, cname) && t != TYPE_SOA && t != 0
    ensures cname.data.Cname? && HandleRoot(z, false, q, t, []).rcode == NoError
    ensures !InZone(cname.data.target, z.origin) ==> HandleRoot(z, false, q, t, []).answer == [cname.(owner := q)]
    ensures InZone(cname.data.target, z.origin) && ChainLength(HandleRoot(z, false, cname.data.target, t, []).answer) < 7 ==>
              HandleRoot(z, false, q, t, []).answer ==
              [cname.(owner := q)] + HandleRoot(z, false, cname.data.target, t, []).answer
  {
    RedirectedReply(z, q, t, cname);
    var head, target := [cname.(owner := q)], cname.data.target;
    if InZone(target, z.origin) {
      HopIsReply(z, target, t);
      hide HandleRoot, HopAt, WellFormed, SingletonCNAMEs;
      match HopAt(z, target, t) {
        case DeadEnd =>
        case Terminal(rrs) =>
        case Chain(rrs) =>
          FollowBehind(z, head, rrs, t, 6);
          if ChainLength(FollowFrom(z, rrs, t, 7)) < 7 {
            FuelToSpare(z, rrs, t, 6);
          }
      }
    }
  }

  /** No answer starts with more than eight CNAMEs, and a chain of eight in the zone is emitted whole. */
  lemma AtMostEightCNAMEs(z: Zone, q: Name, t: RRType, cname: RR)
    requires WellFormed(z) && SingletonCNAMEs(z) && Redirects(z, q, t, cname) && t != TYPE_SOA && t != 0
    ensures 1 <= ChainLength(HandleRoot(z, false, q, t, []).answer) <= 8
    ensures ChainLength(FollowCNAME(EightLinks(), [LinkRR(0)], TYPE_A)) == 8
  {
    RedirectedReply(z, q, t, cname);
    FollowedLength(z, [cname.(owner := q)], t, 7);
    EightCNAMEsDisagree();
    hide *;
  }

  // ----- consumed chains

  /** The smallest TTL among some records. */
  ghost predicate LeastTTL(rrs: seq<RR>, ttl: nat) {
    (forall i :: 0 <= i < |rrs| ==> ttl <= rrs[i].ttl) && exists i :: 0 <= i < |rrs| && ttl == rrs[i].ttl
  }

  /** The reply is the records in a row, each under the query name and with the one TTL. */
  ghost predicate Flat(reply: Reply, rrs: seq<RR>, q: Name, ttl: nat) {
    && reply.rcode == NoError && reply.authority == None && |reply.answer| == |rrs|
    && forall i :: 0 <= i < |rrs| ==> reply.answer[i] == rrs[i].(owner := q, ttl := ttl)
  }

  /** The reply sums up the chain: what stands behind its CNAMEs, where it leaves the zone, or nothing. */
  ghost predicate SumsUp(z: Zone, q: Name, chain: seq<RR>, reply: Reply)
    requires SoaOk(z)
  {
    var m := ChainLength(chain);
    && 1 <= m <= |chain| && chain[m - 1].data.Cname?
    && var target := chain[m - 1].data.target;
       if m < |chain| then exists ttl :: LeastTTL(chain, ttl) && Flat(reply, chain[m..], q, ttl)
       else if !InZone(target, z.origin) then
         exists ttl :: LeastTTL(chain, ttl) && reply == Reply(NoError, [RR(q, 5, ttl, Cname(target))], None)
       else reply == RootNegative(z, q)
  }

  /**
   With collapsing on, the reply sums up the answer given with it off: the records behind the
   CNAMEs; or, for a chain that leaves the zone, one CNAME to where it leaves; or nothing, for a
   chain that ends inside the zone. TTLs are the smallest of the whole chain.
   */
  lemma CollapsedReplySumsUp(z: Zone, q: Name, t: RRType, cname: RR)
    requires WellFormed(z) && SingletonCNAMEs(z) && Redirects(z, q, t, cname) && t != TYPE_SOA && t != 0 && SoaOk(z)
    requires ChainLength(HandleRoot(z, false, q, t, []).answer) < 8
    ensures SumsUp(z, q, HandleRoot(z, false, q, t, []).answer, HandleRoot(z, true, q, t, []))
  {
    hide WellFormed, SingletonCNAMEs, Redirects, HandleRoot, FollowFrom, CollapseFrom, InZone, HopAt, Agree, CollapseRoot, Leaves,
         SumsUp, ChainLength;
    RedirectedReply(z, q, t, cname);
    var head := cname.(owner := q);
    var chain := HandleRoot(z, false, q, t, []).answer;
    var consumed := CollapseFrom(z, cname.data.target, 1, cname.ttl, t);
    assert [head][1..] == [] && MinTTL(head.ttl, []) == head.ttl;
    assert FollowCNAME(z, [head], t) == chain && CollapseCNAME(z, [head], t) == consumed && AnswerTTL([head]) == head.ttl;
    assert !EightAndResolved(z, chain, t);
    assert AllCNAMEs([head]) && chain[0] == head && head.data.Cname?;
    hide MinTTL, AnswerTTL, EightAndResolved, CollapseCNAME, FollowCNAME;
    CollapseAgreesWithFollow(z, head, t);
    LeavingChains(z, [head], t);
    OutcomeSumsUp(z, q, chain, consumed);
  }

  lemma OutcomeSumsUp(z: Zone, q: Name, chain: seq<RR>, consumed: Collapsed)
    requires SoaOk(z) && chain != [] && chain[0].data.Cname? && Agree(z, chain, consumed) && Leaves(z, chain, consumed)
    ensures SumsUp(z, q, chain, CollapseRoot(z, consumed, q))
  {
    LeastIsAnswerTTL(chain);
    hide ChainLength, AnswerTTL, LeastTTL, InZone, RootNegative;
    match consumed {
      case CollapseRecords(rrs, ttl) =>
        assert Flat(CollapseRoot(z, consumed, q), chain[ChainLength(chain)..], q, ttl);
      case CollapseTail(tail, ttl) =>
      case CollapseNoData =>
    }
  }

  lemma LeastIsAnswerTTL(answer: seq<RR>)
    requires answer != []
    ensures LeastTTL(answer, AnswerTTL(answer))
  {
    MinTTLIsMinimum(answer[0].ttl, answer[1..]);
    assert forall i :: 1 <= i < |answer| ==> answer[i] == answer[1..][i - 1];
    var m := AnswerTTL(answer);
    if m != answer[0].ttl {
      var i :| 0 <= i < |answer[1..]| && m == answer[1..][i].ttl;
      assert answer[i + 1].ttl == m;
    } else {
      assert answer[0].ttl == m;
    }
  }

  /** A chain with budget to spare is a tail only when it leaves the zone. */
  lemma {:induction false} LeavingChains(z: Zone, chain: seq<RR>, t: RRType)
    requires WellFormed(z) && SingletonCNAMEs(z) && t != TYPE_CNAME && 1 <= |chain| <= 8 && AllCNAMEs(chain)
    requires ChainLength(FollowFrom(z, chain, t, 8 - |chain|)) < 8
    ensures var r := CollapseFrom(z, chain[|chain| - 1].data.target, |chain|, AnswerTTL(chain), t);
            Leaves(z, FollowFrom(z, chain, t, 8 - |chain|), r)
    decreases 8 - |chain|
  {
    var target := chain[|chain| - 1].data.target;
    FollowedLength(z, chain, t, 8 - |chain|);
    if CollapseHop(z, target, t).Chain? {
      WalksGoOn(z, chain, t);
      var longer := chain + WithOwner(CollapseHop(z, target, t).rrs, target);
      hide *;
      LeavingChains(z, longer, t);
    } else {
      LastHopLeaves(z, chain, t);
    }
  }

  lemma LastHopLeaves(z: Zone, chain: seq<RR>, t: RRType)
    requires WellFormed(z) && SingletonCNAMEs(z) && t != TYPE_CNAME && 1 <= |chain| < 8 && AllCNAMEs(chain)
    requires !CollapseHop(z, chain[|chain| - 1].data.target, t).Chain?
    ensures var r := CollapseFrom(z, chain[|chain| - 1].data.target, |chain|, AnswerTTL(chain), t);
            Leaves(z, FollowFrom(z, chain, t, 8 - |chain|), r)
  {
    var target := chain[|chain| - 1].data.target;
    HopShape(z, target, t);
    ChainGrows(z, chain, t);
    var r := CollapseFrom(z, target, |chain|, AnswerTTL(chain), t);
    hide WellFormed, SingletonCNAMEs, ChainLength, AnswerTTL, Leaves, AllCNAMEs, Lookup, LookupWildcard, MinTTL;
    match CollapseHop(z, target, t) {
      case OutOfZone => StoppedLeaves(z, chain, r);
      case DeadEnd => StoppedLeaves(z, chain, r);
      case Terminal(rrs) => RecordsLeave(z, FollowFrom(z, chain, t, 8 - |chain|), r);
    }
  }

  /** A tail leaves the zone behind the chain's last CNAME; no data means that nothing follows it. */
  ghost predicate Leaves(z: Zone, answer: seq<RR>, r: Collapsed) {
    var m := ChainLength(answer);
    && (r.CollapseTail? ==> 1 <= m <= |answer| && answer[m - 1].data.Cname? && !InZone(answer[m - 1].data.target, z.origin))
    && (r.CollapseNoData? ==> m == |answer|)
  }

  lemma StoppedLeaves(z: Zone, chain: seq<RR>, r: Collapsed)
    requires chain != [] && chain[|chain| - 1].data.Cname? && ChainLength(chain) == |chain|
    requires r.CollapseTail? ==> !InZone(chain[|chain| - 1].data.target, z.origin)
    ensures Leaves(z, chain, r)
  {
  }

  lemma RecordsLeave(z: Zone, answer: seq<RR>, r: Collapsed)
    requires r.CollapseRecords?
    ensures Leaves(z, answer, r)
  {
  }

  // ----- backup zones

  /** An override of the query name and type is the answer, as the backup stores it. */
  lemma OverrideAnswer(a: Alias, bz: Zone, rz: Zone, collapse: bool, q: Name, t: RRType, eph: seq<string>)
    requires rz.soa.Some? && SoaOk(rz)
    requires (t == 15 || t == 16 || t == 33) && Owns(bz, q, t) && bz.recs[q][t] != []
    ensures HandleBackup(a, Some(bz), rz, collapse, q, t, eph) == Reply(NoError, bz.recs[q][t], None)
  {
    hide LaterStages, EphemeralTXT;
  }

  /** Without TXT records of its own or of the root's, a backup name is answered with its ephemeral values. */
  lemma BackupEphemeralAnswer(a: Alias, bz: Option<Zone>, rz: Zone, collapse: bool, q: Name, eph: seq<string>)
    requires WellFormed(rz) && rz.soa.Some? && SoaOk(rz) && eph != []
    requires (bz.Some? ==> !Owns(bz.value, q, 16)) && !Owns(rz, Rewrite(q, a.backup, a.root), 16)
    ensures var reply := HandleBackup(a, bz, rz, collapse, q, 16, eph);
            && reply.rcode == NoError && reply.authority == None && |reply.answer| == |eph|
            && forall i :: 0 <= i < |eph| ==>
                 var rr := reply.answer[i]; rr.owner == q && rr.rtype == 16 && rr.data == Other([], eph[i])
  {
    LookupOk(rz, Rewrite(q, a.backup, a.root), 16);
    hide LaterStages, Rewrite;
  }

  /** A type that bears names the rewrite does not cover is withheld: the name exists, the answer is empty. */
  lemma WithheldAnswer(a: Alias, bz: Option<Zone>, rz: Zone, collapse: bool, q: Name, t: RRType, eph: seq<string>)
    requires WellFormed(rz) && rz.soa.Some? && SoaOk(rz)
    requires Owns(rz, Rewrite(q, a.backup, a.root), t) && t in a.uncovered && t !in COVERED && t != 16
    ensures var reply := HandleBackup(a, bz, rz, collapse, q, t, eph); reply.answer == [] && reply.rcode == NoError
  {
    var r := Rewrite(q, a.backup, a.root);
    LookupOk(rz, r, t);
    AllWithheld(a, Lookup(rz, r, t));
    hide LaterStages, Rewrite, Kept, WithheldOf, CappedSOA;
  }

  /** So are the records of a wildcard. */
  lemma WithheldWildcardAnswer(a: Alias, rz: Zone, collapse: bool, q: Name, t: RRType, k: int, w: Name)
    requires WellFormed(rz) && rz.soa.Some? && SoaOk(rz)
    requires var r := Rewrite(q, a.backup, a.root);
             InZone(r, rz.origin) && NearestWildcard(rz, r, k, w) && !Owns(rz, r, t) && !Owns(rz, r, TYPE_CNAME)
    requires Owns(rz, w, t) && t in a.uncovered && t !in COVERED && t != 0 && t != 16
    ensures HandleBackup(a, None, rz, collapse, q, t, []).answer == []
  {
    var r := Rewrite(q, a.backup, a.root);
    LookupOk(rz, w, t);
    WildcardRecords(rz, r, k, w, t);
    AllWithheld(a, rz.recs[w][t]);
    hide Rewrite, Kept, WithheldOf, CappedSOA, LookupWildcard, NearestWildcard, WellFormed;
  }

  lemma {:induction false} AllWithheld(a: Alias, rrs: seq<RR>)
    requires forall i :: 0 <= i < |rrs| ==> Withheld(a, rrs[i])
    ensures Kept(a, rrs) == [] && WithheldOf(a, rrs) == rrs
  {
    if rrs != [] {
      AllWithheld(a, rrs[1..]);
      assert [rrs[0]] + rrs[1..] == rrs;
    }
  }
}
