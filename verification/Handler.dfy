/**
 The answer stages of the query handler (internal/server/handler.go), for a query name
 already attributed to a zone.
 */
module Handler {
  import opened Wrappers
  import opened DnsNames
  import opened Records
  import opened ZoneData
  import opened Resolver

  datatype Rcode = NoError | NxDomain

  datatype Reply = Reply(rcode: Rcode, answer: seq<RR>, authority: Option<RR>)

  function Positive(rrs: seq<RR>): Reply {
    Reply(NoError, rrs, None)
  }

  /** The SOA for the authority section: its TTL is the smaller of its own and its minimum. */
  function CappedSOA(soa: RR): (r: RR)
    requires soa.data.Soa?
    ensures r == soa.(ttl := r.ttl) && r.ttl <= soa.ttl && r.ttl <= soa.data.minttl
    ensures r.ttl == soa.ttl || r.ttl == soa.data.minttl
  {
    if soa.ttl > soa.data.minttl then soa.(ttl := soa.data.minttl) else soa
  }

  function Negative(exists_: bool, soa: Option<RR>): Reply
    requires soa.Some? ==> soa.value.data.Soa?
  {
    Reply(if exists_ then NoError else NxDomain, [], if soa.Some? then Some(CappedSOA(soa.value)) else None)
  }

  /** The live ephemeral values at q become TXT records; other types see none. */
  function EphemeralTXT(q: Name, t: RRType, values: seq<string>): seq<RR> {
    if t != TYPE_TXT then []
    else seq(|values|, i requires 0 <= i < |values| => RR(q, TYPE_TXT, 0, Other([], values[i])))
  }

  // ----- root zones

  predicate RootHasName(z: Zone, q: Name) {
    q in z.recs || HasWildcard(z, q)
  }

  predicate SoaOk(z: Zone) {
    z.soa.Some? ==> z.soa.value.data.Soa?
  }

  function RootNegative(z: Zone, q: Name): Reply
    requires SoaOk(z)
  {
    Negative(RootHasName(z, q), z.soa)
  }

  /** The reply to a consumed chain. */
  function CollapseRoot(z: Zone, res: Collapsed, q: Name): Reply
    requires SoaOk(z)
  {
    match res
    case CollapseRecords(rrs, ttl) => Positive(Flattened(rrs, q, ttl))
    case CollapseTail(target, ttl) => Positive([RR(q, TYPE_CNAME, ttl, Cname(target))])
    case CollapseNoData => RootNegative(z, q)
  }

  function HandleRoot(z: Zone, collapse: bool, q: Name, t: RRType, eph: seq<string>): Reply
    requires SoaOk(z)
  {
    if t == TYPE_SOA && q == z.origin then
      (if z.soa.Some? then Positive([z.soa.value]) else RootNegative(z, q))
    else if Lookup(z, q, t) != [] then
      (if t == TYPE_CNAME && collapse then CollapseRoot(z, CollapseCNAME(z, Lookup(z, q, t), t), q)
       else Positive(Lookup(z, q, t)))
    else if EphemeralTXT(q, t, eph) != [] then Positive(EphemeralTXT(q, t, eph))
    else RootLater(z, collapse, q, t)
  }

  /** Behind the ephemeral values: the CNAME fallback, then wildcard synthesis. */
  function RootLater(z: Zone, collapse: bool, q: Name, t: RRType): Reply
    requires SoaOk(z)
  {
    if t != TYPE_CNAME && Lookup(z, q, TYPE_CNAME) != [] then
      (if collapse then CollapseRoot(z, CollapseCNAME(z, Lookup(z, q, TYPE_CNAME), t), q)
       else Positive(FollowCNAME(z, Lookup(z, q, TYPE_CNAME), t)))
    else
      var wRRs := LookupWildcard(z, q, t).0;
      var wCNAMEs := LookupWildcard(z, q, TYPE_CNAME).0;
      if wRRs != [] then
        (if t == TYPE_CNAME && collapse then CollapseRoot(z, CollapseCNAME(z, wRRs, t), q)
         else Positive(WithOwner(wRRs, q)))
      else if t != TYPE_CNAME && wCNAMEs != [] then
        (if collapse then CollapseRoot(z, CollapseCNAME(z, wCNAMEs, t), q)
         else Positive(FollowCNAME(z, WithOwner(wCNAMEs, q), t)))
      else RootNegative(z, q)
  }

  // ----- backup zones

  predicate BackupHasName(a: Alias, bz: Option<Zone>, rz: Zone, q: Name) {
    (bz.Some? && q in bz.value.recs) || RootHasName(rz, Rewrite(q, a.backup, a.root))
  }

  function BackupNegative(a: Alias, bz: Option<Zone>, rz: Zone, q: Name): Reply
    requires rz.soa.Some? && SoaOk(rz)
  {
    Negative(BackupHasName(a, bz, rz, q), Some(BackupSOA(a, rz.soa.value)))
  }

  /** A stage that did not miss decides the reply. */
  function Answered(a: Alias, bz: Option<Zone>, rz: Zone, q: Name, s: Stage): Reply
    requires rz.soa.Some? && SoaOk(rz)
  {
    if s.nodata || s.rrs == [] then BackupNegative(a, bz, rz, q) else Positive(s.rrs)
  }

  /** The exact stage; collapsing matters here for CNAME queries only. */
  function ExactStage(a: Alias, bz: Option<Zone>, rz: Zone, collapse: bool, q: Name, t: RRType): Stage {
    if t == TYPE_CNAME && collapse then ResolveExactCollapse(a, bz, rz, q, t)
    else ResolveExactNoCNAME(a, bz, rz, q, t)
  }

  /** The CNAME fallback, then wildcard synthesis. */
  function LaterStages(a: Alias, rz: Zone, collapse: bool, q: Name, t: RRType): Stage {
    var fallback := if collapse then ResolveCNAMEFallbackCollapse(a, rz, q, t) else ResolveCNAMEFallback(a, rz, q, t);
    if !Missed(fallback) then fallback
    else if collapse then ResolveWildcardCollapse(a, rz, q, t)
    else ResolveWildcard(a, rz, q, t)
  }

  function HandleBackup(a: Alias, bz: Option<Zone>, rz: Zone, collapse: bool, q: Name, t: RRType, eph: seq<string>): Reply
    requires rz.soa.Some? && SoaOk(rz)
  {
    if t == TYPE_SOA && q == a.backup then Positive([BackupSOA(a, rz.soa.value)])
    else
      var exact := ExactStage(a, bz, rz, collapse, q, t);
      if !Missed(exact) then Answered(a, bz, rz, q, exact)
      else if EphemeralTXT(q, t, eph) != [] then Positive(EphemeralTXT(q, t, eph))
      else Answered(a, bz, rz, q, LaterStages(a, rz, collapse, q, t))
  }
}
