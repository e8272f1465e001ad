/**
 Backup-zone resolution (internal/alias/override.go): every stage looks the rewritten name
 up in the root zone and rewrites what it finds into the backup's namespace.
 */
module Resolver {
  import opened Wrappers
  import opened DnsNames
  import opened Records
  import opened ZoneData

  /**
   The outcome of one stage. No records with nodata set, or with something withheld, ends
   resolution with a negative reply; no records otherwise is a miss.
   */
  datatype Stage = Stage(rrs: seq<RR>, nodata: bool, withheld: seq<RR>)

  const MISS := Stage([], false, [])

  predicate Missed(s: Stage) {
    s.rrs == [] && !s.nodata && s.withheld == []
  }

  /** The records behind rootRRs: the followed chain when they end in a CNAME to chase. */
  function Chased(rz: Zone, rootRRs: seq<RR>, t: RRType): seq<RR> {
    if rootRRs != [] && t != TYPE_CNAME && rootRRs[|rootRRs| - 1].data.Cname?
    then FollowCNAME(rz, rootRRs, t) else rootRRs
  }

  function Finalize(a: Alias, rz: Zone, rootRRs: seq<RR>, t: RRType): Stage {
    var rrs := Chased(rz, rootRRs, t);
    Stage(RewriteRRs(a, Kept(a, rrs)), false, WithheldOf(a, rrs))
  }

  function ResolveExactNoCNAME(a: Alias, bz: Option<Zone>, rz: Zone, q: Name, t: RRType): Stage {
    if Overridable(t) && bz.Some? && Lookup(bz.value, q, t) != [] then
      Stage(Lookup(bz.value, q, t), false, [])
    else
      var rootRRs := Lookup(rz, Rewrite(q, a.backup, a.root), t);
      if rootRRs == [] then MISS else Finalize(a, rz, rootRRs, t)
  }

  function ResolveCNAMEFallback(a: Alias, rz: Zone, q: Name, t: RRType): Stage {
    if t == TYPE_CNAME then MISS
    else
      var rootRRs := Lookup(rz, Rewrite(q, a.backup, a.root), TYPE_CNAME);
      if rootRRs == [] then MISS else Finalize(a, rz, rootRRs, t)
  }

  /** Stored wildcard records are filtered before they get the query's name. */
  function SynthesizeWildcard(a: Alias, rz: Zone, wRRs: seq<RR>, q: Name, t: RRType): Stage {
    var kept := Kept(a, wRRs);
    if kept == [] then Stage([], false, WithheldOf(a, wRRs))
    else
      var s := Finalize(a, rz, WithOwner(kept, Rewrite(q, a.backup, a.root)), t);
      s.(withheld := WithheldOf(a, wRRs) + s.withheld)
  }

  function ResolveWildcard(a: Alias, rz: Zone, q: Name, t: RRType): Stage {
    var r := Rewrite(q, a.backup, a.root);
    var (wRRs, found) := LookupWildcard(rz, r, t);
    var start := if found && wRRs == [] && t != TYPE_CNAME then LookupWildcard(rz, r, TYPE_CNAME).0 else wRRs;
    if start == [] then MISS else SynthesizeWildcard(a, rz, start, q, t)
  }

  // ----- collapse mode

  /** The answer a consumed chain leaves behind, owned by the query name. */
  function CollapseResult(a: Alias, res: Collapsed, q: Name): Stage {
    match res
    case CollapseRecords(rrs, ttl) =>
      var kept := Kept(a, rrs);
      if kept == [] then Stage([], true, WithheldOf(a, rrs))
      else Stage(Flattened(RewriteRRs(a, kept), q, ttl), false, WithheldOf(a, rrs))
    case CollapseTail(target, ttl) =>
      Stage([RR(q, TYPE_CNAME, ttl, Cname(RewriteValue(a, target)))], false, [])
    case CollapseNoData => Stage([], true, [])
  }

  /** Copies carrying the query name and the chain's minimum TTL. */
  function Flattened(rrs: seq<RR>, q: Name, ttl: nat): (r: seq<RR>)
    ensures |r| == |rrs|
    ensures forall i :: 0 <= i < |rrs| ==> r[i] == rrs[i].(owner := q, ttl := ttl)
  {
    seq(|rrs|, i requires 0 <= i < |rrs| => rrs[i].(owner := q, ttl := ttl))
  }

  function CollapseChainAt(a: Alias, rz: Zone, q: Name, t: RRType): Stage {
    var initial := Lookup(rz, Rewrite(q, a.backup, a.root), TYPE_CNAME);
    if initial == [] then MISS else CollapseResult(a, CollapseCNAME(rz, initial, t), q)
  }

  function ResolveExactCollapse(a: Alias, bz: Option<Zone>, rz: Zone, q: Name, t: RRType): Stage {
    if t != TYPE_CNAME then ResolveExactNoCNAME(a, bz, rz, q, t) else CollapseChainAt(a, rz, q, t)
  }

  function ResolveCNAMEFallbackCollapse(a: Alias, rz: Zone, q: Name, t: RRType): Stage {
    if t == TYPE_CNAME then MISS else CollapseChainAt(a, rz, q, t)
  }

  function ResolveWildcardCollapse(a: Alias, rz: Zone, q: Name, t: RRType): Stage {
    var r := Rewrite(q, a.backup, a.root);
    var wRRs := LookupWildcard(rz, r, t).0;
    if t != TYPE_CNAME && wRRs != [] then SynthesizeWildcard(a, rz, wRRs, q, t)
    else
      var wCNAMEs := LookupWildcard(rz, r, TYPE_CNAME).0;
      if wCNAMEs == [] then MISS else CollapseResult(a, CollapseCNAME(rz, wCNAMEs, t), q)
  }

  // ----- the loops of the code

  /** Rewrites record by record. */
  method RewriteAll(a: Alias, kept: seq<RR>) returns (result: seq<RR>)
    ensures result == RewriteRRs(a, kept)
  {
    hide *;
    result := [];
    for i := 0 to |kept|
      invariant result == RewriteRRs(a, kept)[..i]
    {
      result := result + [RewriteRR(a, kept[i])];
    }
  }

  /** Follows, filters and rewrites. */
  method FinalizeBackupRRs(a: Alias, rz: Zone, rootRRs: seq<RR>, t: RRType) returns (s: Stage)
    ensures s == Finalize(a, rz, rootRRs, t)
  {
    var rrs := Chased(rz, rootRRs, t);
    var kept, withheld := FilterBackupRRs(a, rrs);
    var result := RewriteAll(a, kept);
    s := Stage(result, false, withheld);
  }

  /** Builds the flattened copies one by one. */
  method CollapseBackupResult(a: Alias, res: Collapsed, q: Name) returns (s: Stage)
    ensures s == CollapseResult(a, res, q)
  {
    match res {
      case CollapseRecords(rrs, ttl) =>
        var kept, withheld := FilterBackupRRs(a, rrs);
        if kept == [] {
          return Stage([], true, withheld);
        }
        var out := [];
        for i := 0 to |kept|
          invariant out == Flattened(RewriteRRs(a, kept), q, ttl)[..i]
        {
          var cp := kept[i].(owner := q, ttl := ttl);
          out := out + [cp.(data := RewriteRData(a, cp.rtype, cp.data))];
        }
        return Stage(out, false, withheld);
      case CollapseTail(target, ttl) =>
        return Stage([RR(q, TYPE_CNAME, ttl, Cname(RewriteValue(a, target)))], false, []);
      case CollapseNoData =>
        return Stage([], true, []);
    }
  }
}
