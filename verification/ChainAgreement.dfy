/**
 Emitting a CNAME chain (FollowCNAME) against consuming it (CollapseCNAME). Both walk the
 same hops, but count their depth budget differently, so they part at exactly eight CNAMEs.
 */
module ChainAgreement {
  import opened Wrappers
  import opened DnsNames
  import opened Records
  import opened ZoneData

  /** Every owner has at most one CNAME. */
  ghost predicate SingletonCNAMEs(z: Zone) {
    forall o :: o in z.recs ==> |Lookup(z, o, TYPE_CNAME)| <= 1
  }

  /** The number of CNAMEs an answer starts with. */
  function ChainLength(answer: seq<RR>): nat {
    if answer == [] || !answer[0].data.Cname? then 0 else 1 + ChainLength(answer[1..])
  }

  function AnswerTTL(answer: seq<RR>): nat
    requires answer != []
  {
    MinTTL(answer[0].ttl, answer[1..])
  }

  // ----- minima

  lemma {:induction false} MinTTLIsMinimum(c: nat, rrs: seq<RR>)
    ensures MinTTL(c, rrs) <= c
    ensures forall i :: 0 <= i < |rrs| ==> MinTTL(c, rrs) <= rrs[i].ttl
    ensures MinTTL(c, rrs) == c || exists i :: 0 <= i < |rrs| && MinTTL(c, rrs) == rrs[i].ttl
  {
    if rrs != [] {
      MinTTLIsMinimum(Min(c, rrs[0].ttl), rrs[1..]);
      assert forall i :: 1 <= i < |rrs| ==> rrs[i] == rrs[1..][i - 1];
      assert forall i :: 0 <= i < |rrs| - 1 ==> rrs[1..][i] == rrs[i + 1];
    }
  }

  lemma {:induction false} MinTTLConcat(c: nat, s: seq<RR>, t: seq<RR>)
    ensures MinTTL(c, s + t) == MinTTL(MinTTL(c, s), t)
  {
    if s == [] {
      assert s + t == t;
    } else {
      assert (s + t)[1..] == s[1..] + t;
      MinTTLConcat(Min(c, s[0].ttl), s[1..], t);
    }
  }

  lemma {:induction false} MinTTLIgnoresOwner(c: nat, rrs: seq<RR>, o: Name)
    ensures MinTTL(c, WithOwner(rrs, o)) == MinTTL(c, rrs)
  {
    if rrs != [] {
      assert WithOwner(rrs, o)[1..] == WithOwner(rrs[1..], o);
      MinTTLIgnoresOwner(Min(c, rrs[0].ttl), rrs[1..], o);
    }
  }

  lemma AnswerTTLGrows(answer: seq<RR>, rrs: seq<RR>, o: Name)
    requires answer != []
    ensures AnswerTTL(answer + WithOwner(rrs, o)) == MinTTL(AnswerTTL(answer), rrs)
  {
    assert (answer + WithOwner(rrs, o))[1..] == answer[1..] + WithOwner(rrs, o);
    MinTTLConcat(answer[0].ttl, answer[1..], WithOwner(rrs, o));
    MinTTLIgnoresOwner(AnswerTTL(answer), rrs, o);
  }

  // ----- hops

  ghost predicate AllCNAMEs(chain: seq<RR>) {
    forall i :: 0 <= i < |chain| ==> chain[i].data.Cname?
  }

  ghost predicate NoCNAMEs(rrs: seq<RR>) {
    forall i :: 0 <= i < |rrs| ==> !rrs[i].data.Cname?
  }

  /** The two walks look the same things up; only a wildcard's owner differs. */
  ghost predicate SameHop(emit: Hop, consume: Hop, target: Name) {
    match emit
    case OutOfZone => consume.OutOfZone?
    case DeadEnd => consume.DeadEnd?
    case Terminal(rrs) => consume.Terminal? && rrs == WithOwner(consume.rrs, target)
    case Chain(rrs) => consume.Chain? && rrs == WithOwner(consume.rrs, target)
  }

  /** What a hop brings back in a well-formed zone. */
  lemma HopShape(z: Zone, target: Name, t: RRType)
    requires WellFormed(z) && t != TYPE_CNAME
    ensures SameHop(HopAt(z, target, t), CollapseHop(z, target, t), target)
    ensures var h := CollapseHop(z, target, t);
            && (h.Terminal? ==> h.rrs != [] && NoCNAMEs(h.rrs))
            && (h.Chain? ==> h.rrs != [] && AllCNAMEs(h.rrs))
            && (h.Chain? && SingletonCNAMEs(z) ==> |h.rrs| == 1)
  {
    var w := WildcardOwner(z, target);
    if w.Some? {
      LookupOk(z, w.value, t);
      LookupOk(z, w.value, TYPE_CNAME);
    }
    LookupOk(z, target, t);
    LookupOk(z, target, TYPE_CNAME);
    assert WithOwner(Lookup(z, target, t), target) == Lookup(z, target, t);
    assert WithOwner(Lookup(z, target, TYPE_CNAME), target) == Lookup(z, target, TYPE_CNAME);
  }

  lemma {:induction false} ChainLengthOf(chain: seq<RR>, rest: seq<RR>)
    requires forall i :: 0 <= i < |chain| ==> chain[i].data.Cname?
    requires rest == [] || !rest[0].data.Cname?
    ensures ChainLength(chain + rest) == |chain|
  {
    if chain == [] {
      assert chain + rest == rest;
    } else {
      assert (chain + rest)[1..] == chain[1..] + rest;
      ChainLengthOf(chain[1..], rest);
    }
  }

  // ----- agreement

  /** The collapse outcome reads off the emitted answer. */
  ghost predicate Agree(z: Zone, answer: seq<RR>, r: Collapsed)
    requires answer != [] && answer[0].data.Cname?
  {
    var m := ChainLength(answer);
    && 1 <= m <= |answer| && answer[m - 1].data.Cname?
    && var target := answer[m - 1].data.target;
       match r
       case CollapseRecords(rrs, ttl) =>
         rrs != [] && answer[m..] == WithOwner(rrs, target) && ttl == AnswerTTL(answer)
       case CollapseTail(tail, ttl) => m == |answer| && tail == target && ttl == AnswerTTL(answer)
       case CollapseNoData => m == |answer| && InZone(target, z.origin)
  }

  /** The one way to disagree: eight CNAMEs, and the eighth target resolves inside the zone. */
  ghost predicate EightAndResolved(z: Zone, answer: seq<RR>, t: RRType) {
    && ChainLength(answer) == MAX_CNAME_DEPTH == |answer|
    && answer[MAX_CNAME_DEPTH - 1].data.Cname?
    && HopAt(z, answer[MAX_CNAME_DEPTH - 1].data.target, t).Terminal?
  }

  /** A walk that stops at `chain` without looking further. */
  lemma StoppedWalk(z: Zone, chain: seq<RR>, r: Collapsed, t: RRType)
    requires chain != [] && AllCNAMEs(chain)
    ensures ChainLength(chain) == |chain|
    ensures Agree(z, chain, r) <==>
            match r
            case CollapseRecords(_, _) => false
            case CollapseTail(tail, ttl) => tail == chain[|chain| - 1].data.target && ttl == AnswerTTL(chain)
            case CollapseNoData => InZone(chain[|chain| - 1].data.target, z.origin)
    ensures EightAndResolved(z, chain, t) <==>
            |chain| == MAX_CNAME_DEPTH && HopAt(z, chain[|chain| - 1].data.target, t).Terminal?
  {
    assert chain + [] == chain;
    ChainLengthOf(chain, []);
    assert chain[|chain|..] == [];
  }

  /** A walk that ends with the records found at the last target. */
  lemma ResolvedWalk(z: Zone, chain: seq<RR>, rrs: seq<RR>, t: RRType)
    requires chain != [] && AllCNAMEs(chain)
    requires rrs != [] && !rrs[0].data.Cname?
    ensures var answer := chain + WithOwner(rrs, chain[|chain| - 1].data.target);
            Agree(z, answer, CollapseRecords(rrs, MinTTL(AnswerTTL(chain), rrs))) &&
            !EightAndResolved(z, answer, t)
  {
    var target := chain[|chain| - 1].data.target;
    ChainLengthOf(chain, WithOwner(rrs, target));
    AnswerTTLGrows(chain, rrs, target);
    assert (chain + WithOwner(rrs, target))[|chain|..] == WithOwner(rrs, target);
  }

  /** One hop that goes on, on both walks. */
  lemma WalksGoOn(z: Zone, chain: seq<RR>, t: RRType)
    requires WellFormed(z) && SingletonCNAMEs(z) && t != TYPE_CNAME
    requires 1 <= |chain| < MAX_CNAME_DEPTH && AllCNAMEs(chain)
    requires CollapseHop(z, chain[|chain| - 1].data.target, t).Chain?
    ensures var target := chain[|chain| - 1].data.target;
            var longer := chain + WithOwner(CollapseHop(z, target, t).rrs, target);
            && |longer| == |chain| + 1 && AllCNAMEs(longer)
            && FollowFrom(z, chain, t, MAX_CNAME_DEPTH - |chain|) == FollowFrom(z, longer, t, MAX_CNAME_DEPTH - |longer|)
            && CollapseFrom(z, target, |chain|, AnswerTTL(chain), t) ==
               CollapseFrom(z, longer[|longer| - 1].data.target, |longer|, AnswerTTL(longer), t)
  {
    hide WellFormed, SingletonCNAMEs, AnswerTTL, HopAt, CollapseHop;
    var target := chain[|chain| - 1].data.target;
    HopShape(z, target, t);
    AnswerTTLGrows(chain, CollapseHop(z, target, t).rrs, target);
  }

  lemma {:induction false} WalksAgree(z: Zone, chain: seq<RR>, t: RRType)
    requires WellFormed(z) && SingletonCNAMEs(z) && t != TYPE_CNAME
    requires 1 <= |chain| <= MAX_CNAME_DEPTH && AllCNAMEs(chain)
    ensures var answer := FollowFrom(z, chain, t, MAX_CNAME_DEPTH - |chain|);
            var r := CollapseFrom(z, chain[|chain| - 1].data.target, |chain|, AnswerTTL(chain), t);
            Agree(z, answer, r) <==> !EightAndResolved(z, answer, t)
    decreases MAX_CNAME_DEPTH - |chain|
  {
    hide Agree, EightAndResolved, ChainLength, WellFormed, SingletonCNAMEs, AnswerTTL, Lookup, LookupWildcard;
    var target := chain[|chain| - 1].data.target;
    if |chain| < MAX_CNAME_DEPTH && CollapseHop(z, target, t).Chain? {
      WalksGoOn(z, chain, t);
      hide *;
      WalksAgree(z, chain + WithOwner(CollapseHop(z, target, t).rrs, target), t);
    } else {
      WalksEnd(z, chain, t);
    }
  }

  /** The last hop of both walks. */
  lemma WalksEnd(z: Zone, chain: seq<RR>, t: RRType)
    requires WellFormed(z) && SingletonCNAMEs(z) && t != TYPE_CNAME
    requires 1 <= |chain| <= MAX_CNAME_DEPTH && AllCNAMEs(chain)
    requires |chain| == MAX_CNAME_DEPTH || !CollapseHop(z, chain[|chain| - 1].data.target, t).Chain?
    ensures var answer := FollowFrom(z, chain, t, MAX_CNAME_DEPTH - |chain|);
            var r := CollapseFrom(z, chain[|chain| - 1].data.target, |chain|, AnswerTTL(chain), t);
            Agree(z, answer, r) <==> !EightAndResolved(z, answer, t)
  {
    hide Agree, EightAndResolved, ChainLength, WellFormed, SingletonCNAMEs, AnswerTTL, Lookup, LookupWildcard;
    var target := chain[|chain| - 1].data.target;
    HopShape(z, target, t);
    StoppedWalk(z, chain, CollapseFrom(z, target, |chain|, AnswerTTL(chain), t), t);
    if |chain| < MAX_CNAME_DEPTH && CollapseHop(z, target, t).Terminal? {
      ResolvedWalk(z, chain, CollapseHop(z, target, t).rrs, t);
    }
  }

  /**
   For singleton CNAME RRsets, collapsing a chain and emitting it agree on terminal records
   (up to a wildcard's owner), tail, dead end and minimum TTL; loops included. They disagree
   exactly when the answer is eight CNAMEs whose last target the zone could still resolve.
   */
  lemma CollapseAgreesWithFollow(z: Zone, cname: RR, t: RRType)
    requires WellFormed(z) && SingletonCNAMEs(z) && t != TYPE_CNAME && cname.data.Cname?
    ensures Agree(z, FollowCNAME(z, [cname], t), CollapseCNAME(z, [cname], t)) <==>
            !EightAndResolved(z, FollowCNAME(z, [cname], t), t)
  {
    WalksAgree(z, [cname], t);
  }

  /** In particular they agree on every chain of fewer than eight CNAMEs. */
  lemma ShortChainsAgree(z: Zone, cname: RR, t: RRType)
    requires WellFormed(z) && SingletonCNAMEs(z) && t != TYPE_CNAME && cname.data.Cname?
    requires ChainLength(FollowCNAME(z, [cname], t)) < MAX_CNAME_DEPTH
    ensures Agree(z, FollowCNAME(z, [cname], t), CollapseCNAME(z, [cname], t))
  {
    CollapseAgreesWithFollow(z, cname, t);
  }

  // ----- the exception occurs

  const TYPE_A: RRType := 1

  /** The i-th name of the witness chain: distinct labels under "z". */
  function Link(i: nat): Name {
    [seq(i, _ => 'a'), "z"]
  }

  function LinkRR(i: nat): RR {
    if i < 8 then RR(Link(i), TYPE_CNAME, 60, Cname(Link(i + 1))) else RR(Link(i), TYPE_A, 60, Other([], "192.0.2.1"))
  }

  /** Eight in-zone CNAMEs in a row, the last one pointing at an address record. */
  function EightLinks(): Zone {
    LinksInjective();
    Zone(["z"], map i: nat | 0 <= i <= 8 :: Link(i) := map[LinkRR(i).rtype := [LinkRR(i)]], None)
  }

  lemma LinksInjective()
    ensures forall i: nat, j: nat :: Link(i) == Link(j) ==> i == j
  {
    forall i: nat, j: nat | Link(i) == Link(j) ensures i == j {
      assert |Link(i)[0]| == i && |Link(j)[0]| == j;
    }
  }

  lemma LinkLookup(i: nat, t: RRType)
    requires i <= 8
    ensures Lookup(EightLinks(), Link(i), t) == if t == LinkRR(i).rtype then [LinkRR(i)] else []
  {
    LinksInjective();
    assert Link(i) in EightLinks().recs;
  }

  lemma LinkStore(o: Name) returns (i: nat)
    requires o in EightLinks().recs
    ensures i <= 8 && o == Link(i) && EightLinks().recs[o] == map[LinkRR(i).rtype := [LinkRR(i)]]
  {
    LinksInjective();
    i :| 0 <= i <= 8 && o == Link(i);
  }

  lemma LinkRROk(i: nat)
    requires i <= 8
    ensures RRsetOk(Link(i), LinkRR(i).rtype, [LinkRR(i)])
    ensures LinkRR(i).data.Cname? <==> i < 8
    ensures i < 8 ==> LinkRR(i).rtype == TYPE_CNAME && LinkRR(i).data.target == Link(i + 1)
    ensures i == 8 ==> LinkRR(i).rtype == TYPE_A
  {
  }

  lemma EightLinksOk()
    ensures WellFormed(EightLinks()) && SingletonCNAMEs(EightLinks()) && EightLinks().origin == ["z"]
  {
    var z := EightLinks();
    forall o | o in z.recs
      ensures z.recs[o] != map[] && |Lookup(z, o, TYPE_CNAME)| <= 1
      ensures forall t :: t in z.recs[o] ==> RRsetOk(o, t, z.recs[o][t])
    {
      var i := LinkStore(o);
      LinkRROk(i);
      assert LinkRR(i).rtype in z.recs[o];
      hide EightLinks, Link, LinkRR, RRsetOk;
    }
    assert z.soa == None && z.origin == ["z"];
    hide EightLinks, RRsetOk;
  }

  function Links(k: nat): seq<RR> {
    seq(k, i requires 0 <= i < k => LinkRR(i))
  }

  lemma LinkInZone(i: nat)
    ensures InZone(Link(i), ["z"])
  {
  }

  /** What either walk finds at a link. */
  lemma LinkHop(i: nat)
    requires i <= 8
    ensures HopAt(EightLinks(), Link(i), TYPE_A) == if i < 8 then Chain([LinkRR(i)]) else Terminal([LinkRR(i)])
  {
    LinkLookup(i, TYPE_A);
    LinkLookup(i, TYPE_CNAME);
    EightLinksOk();
    LinkInZone(i);
    LinkRROk(i);
    hide EightLinks, Link, LinkRR, Lookup, WellFormed, SingletonCNAMEs, InZone, LookupWildcard, RRsetOk;
  }

  /** Following from the first link emits all eight CNAMEs and stops. */
  lemma {:induction false} LinksFollowed(k: nat)
    requires 1 <= k <= 8
    ensures FollowFrom(EightLinks(), Links(k), TYPE_A, 8 - k) == Links(8)
    decreases 8 - k
  {
    hide EightLinks, Link, LinkRR, HopAt, RRsetOk;
    if k < 8 {
      LinkRROk(k - 1);
      LinkHop(k);
      assert Links(k)[k - 1] == LinkRR(k - 1);
      assert Links(k) + [LinkRR(k)] == Links(k + 1);
      LinksFollowed(k + 1);
    }
  }

  /**
   Emitting and collapsing do part at eight CNAMEs: following emits the eight and stops, while
   collapsing finds the address behind the eighth.
   */
  lemma EightCNAMEsDisagree()
    ensures WellFormed(EightLinks()) && SingletonCNAMEs(EightLinks()) && LinkRR(0).data.Cname?
    ensures EightAndResolved(EightLinks(), FollowCNAME(EightLinks(), [LinkRR(0)], TYPE_A), TYPE_A)
    ensures !Agree(EightLinks(), FollowCNAME(EightLinks(), [LinkRR(0)], TYPE_A), CollapseCNAME(EightLinks(), [LinkRR(0)], TYPE_A))
  {
    EightLinksOk();
    LinkRROk(0);
    LinksFollowed(1);
    assert Links(1) == [LinkRR(0)];
    EightLinksResolve();
    hide EightLinks, Links, LinkRR, FollowFrom, WellFormed, SingletonCNAMEs, Agree, CollapseCNAME, EightAndResolved, RRsetOk;
    assert FollowCNAME(EightLinks(), [LinkRR(0)], TYPE_A) == Links(8);
    CollapseAgreesWithFollow(EightLinks(), LinkRR(0), TYPE_A);
  }

  lemma EightLinksResolve()
    ensures EightAndResolved(EightLinks(), Links(8), TYPE_A)
  {
    hide EightLinks, Link, LinkRR, HopAt, RRsetOk;
    forall i | 0 <= i < 8 ensures Links(8)[i].data.Cname? {
      LinkRROk(i);
    }
    ChainLengthOf(Links(8), []);
    assert Links(8) + [] == Links(8);
    LinkRROk(7);
    LinkHop(8);
    hide ChainLength;
  }
}
