/**
 The in-memory zone index (internal/zone/zone.go, parser.go, classify.go): one mutable
 store per owner, inline while the owner has a single type, promoted to a map on the
 second one. Every method is proved against the value operations of module ZoneData.
 */
module ZoneStore {
  import opened Wrappers
  import opened DnsNames
  import opened Records
  import D = ZoneData

  class QtypeStore {
    var single: bool
    var qtype: RRType
    var rrs: seq<RR>
    var sub: map<RRType, seq<RR>>

    constructor Inline(rr: RR)
      ensures single && qtype == rr.rtype && rrs == [rr] && sub == map[]
      ensures Content() == map[rr.rtype := [rr]]
    {
      single, qtype, rrs, sub := true, rr.rtype, [rr], map[];
    }

    function Content(): D.Store
      reads this
    {
      if single then map[qtype := rrs] else sub
    }

    /** Appends rr to its RRset, promoting on a new type; false means it was a duplicate. */
    method Insert(rr: RR) returns (stored: bool)
      modifies this
      ensures stored == !D.HasDuplicate(RRset(old(Content()), rr.rtype), rr)
      ensures stored ==> Content() == old(Content())[rr.rtype := RRset(old(Content()), rr.rtype) + [rr]]
      ensures !stored ==> Content() == old(Content())
      ensures single <==> old(single) && old(qtype) == rr.rtype
    {
      stored := true;
      if single && qtype == rr.rtype {
        if D.HasDuplicate(rrs, rr) {
          stored := false;
        } else {
          rrs := rrs + [rr];
        }
      } else if single {
        assert [] + [rr] == [rr];
        sub := map[qtype := rrs, rr.rtype := [rr]];
        single, qtype, rrs := false, 0, [];
        assert sub == old(Content())[rr.rtype := [rr]];
      } else {
        if D.HasDuplicate(RRset(sub, rr.rtype), rr) {
          stored := false;
        } else {
          sub := sub[rr.rtype := RRset(sub, rr.rtype) + [rr]];
        }
      }
    }

    /** Drops every type a backup zone may not override; an inline store is left to the caller. */
    method DropDisallowed()
      requires !single
      modifies this`sub
      ensures sub == D.OverridableOnly(old(sub))
    {
      ghost var all := sub;
      var todo := sub.Keys;
      while todo != {}
        invariant todo <= all.Keys
        invariant sub == map t | t in all && (t in todo || Overridable(t)) :: all[t]
        decreases todo
      {
        var t := Pick(todo);
        todo := todo - {t};
        if !Overridable(t) {
          sub := sub - {t};
        }
      }
    }
  }

  function RRset(s: D.Store, t: RRType): seq<RR> {
    if t in s then s[t] else []
  }

  datatype Role = RoleUnknown | RoleRoot | RoleBackupOverride

  class Zone {
    var origin: Name
    var soa: Option<RR>
    var records: map<Name, QtypeStore>
    var role: Role

    constructor (apex: Name)
      ensures Separate() && View() == D.Zone(apex, map[], None) && role == RoleUnknown
      ensures records == map[]
    {
      origin, soa, records, role := apex, None, map[], RoleUnknown;
    }

    /** No two owners share a store object. */
    ghost predicate Separate()
      reads this
    {
      forall o, p :: o in records && p in records && o != p ==> records[o] != records[p]
    }

    function Recs(): map<Name, D.Store>
      reads this`records, records.Values
    {
      map o | o in records :: records[o].Content()
    }

    function View(): D.Zone
      reads this, records.Values
    {
      D.Zone(origin, Recs(), soa)
    }

    /** Inserts rr unless it is already there; reports whether it was stored. */
    method AddRR(rr: RR) returns (stored: bool)
      requires Separate()
      modifies this, records.Values
      ensures Separate() && View() == D.Add(old(View()), rr)
      ensures stored == !D.HasDuplicate(D.Lookup(old(View()), rr.owner, rr.rtype), rr)
      ensures role == old(role)
      ensures fresh(records.Values - old(records.Values))
    {
      stored := true;
      if rr.owner !in records {
        AddOwner(rr);
      } else {
        stored := AddToOwner(rr);
      }
      hide Recs, Separate;
      if stored && rr.data.Soa? {
        soa := Some(rr);
      }
    }

    /** The first record of an owner. */
    method AddOwner(rr: RR)
      requires Separate() && rr.owner !in records
      modifies this`records
      ensures Separate() && fresh(records.Values - old(records.Values))
      ensures Recs() == old(Recs())[rr.owner := map[rr.rtype := [] + [rr]]]
    {
      ghost var recs := Recs();
      var s := new QtypeStore.Inline(rr);
      records := records[rr.owner := s];
      assert [] + [rr] == [rr];
      assert rr.owner !in recs;
      assert Recs() == recs[rr.owner := map[rr.rtype := [] + [rr]]];
    }

    /** A further record of an owner. */
    method AddToOwner(rr: RR) returns (stored: bool)
      requires Separate() && rr.owner in records
      modifies records[rr.owner]
      ensures Separate()
      ensures var s := old(Recs())[rr.owner];
              && stored == !D.HasDuplicate(RRset(s, rr.rtype), rr)
              && Recs() == if stored then old(Recs())[rr.owner := s[rr.rtype := RRset(s, rr.rtype) + [rr]]] else old(Recs())
    {
      ghost var recs := Recs();
      assert recs[rr.owner] == records[rr.owner].Content();
      stored := records[rr.owner].Insert(rr);
      assert Recs() == recs[rr.owner := records[rr.owner].Content()];
      assert !stored ==> Recs() == recs;
      hide Recs;
    }

    function Lookup(owner: Name, qtype: RRType): (r: seq<RR>)
      reads this, records.Values
      ensures r == D.Lookup(View(), owner, qtype)
    {
      if owner !in records then []
      else
        var s := records[owner];
        if s.single then (if s.qtype == qtype then s.rrs else [])
        else if qtype in s.sub then s.sub[qtype] else []
    }

    /** The RRset a covering wildcard has for qtype; type 0 probes for existence. */
    method LookupWildcard(qname: Name, qtype: RRType) returns (rrs: seq<RR>, found: bool)
      ensures (rrs, found) == D.LookupWildcard(View(), qname, qtype)
    {
      if qname == origin {
        return [], false;
      }
      ghost var z := View();
      assert z.origin == origin && forall o :: o in records <==> o in z.recs;
      assert forall o :: o in records ==> z.recs[o] == records[o].Content();
      hide View, Recs, D.WildcardOwner;
      var name := qname;
      while true
        invariant name != origin
        invariant D.WildcardOwner(z, name) == D.WildcardOwner(z, qname)
        decreases |name|
      {
        D.WildcardStep(z, name);
        if name == [] {
          return [], false;
        }
        var parent := name[1..];
        ParentInZone(name, origin);
        if parent == origin {
          break;
        }
        if !InZone(parent, origin) {
          return [], false;
        }
        if D.WildcardAt(parent) in records {
          rrs, found := WildcardHit(records[D.WildcardAt(parent)], qtype);
          return;
        }
        if parent in records {
          return [], false;
        }
        name := parent;
      }
      if D.WildcardAt(origin) in records {
        rrs, found := WildcardHit(records[D.WildcardAt(origin)], qtype);
        return;
      }
      return [], false;
    }

    method WildcardHit(s: QtypeStore, qtype: RRType) returns (rrs: seq<RR>, found: bool)
      ensures qtype == 0 ==> rrs == [] && found == (s.Content() != map[])
      ensures qtype != 0 ==> found && rrs == if qtype in s.Content() then s.Content()[qtype] else []
    {
      if qtype == 0 {
        assert s.single ==> s.qtype in s.Content();
        return [], s.single || s.sub != map[];
      }
      if s.single {
        return if s.qtype == qtype then s.rrs else [], true;
      }
      return if qtype in s.sub then s.sub[qtype] else [], true;
    }

    method HasWildcard(qname: Name) returns (found: bool)
      ensures found == D.HasWildcard(View(), qname)
    {
      var _, f := LookupWildcard(qname, 0);
      found := f;
    }

    /** Appends the in-zone chain behind `initial`, within the depth budget. */
    method FollowCNAME(initial: seq<RR>, qtype: RRType) returns (answer: seq<RR>)
      requires initial != []
      ensures answer == D.FollowCNAME(View(), initial, qtype)
    {
      hide View, Recs, D.HopAt;
      ghost var z := View();
      answer := initial;
      var fuel := D.Budget(|initial|);
      while fuel > 0
        invariant answer != []
        invariant D.FollowFrom(z, answer, qtype, fuel) == D.FollowCNAME(z, initial, qtype)
      {
        var last := answer[|answer| - 1];
        if !last.data.Cname? {
          break;
        }
        var hop := FollowHop(last.data.target, qtype);
        match hop {
          case OutOfZone =>
            break;
          case DeadEnd =>
            break;
          case Terminal(rrs) =>
            answer := answer + rrs;
            break;
          case Chain(rrs) =>
            answer := answer + rrs;
            fuel := fuel - 1;
        }
      }
    }

    /** What FollowCNAME appends for one target, wildcard records already renamed to it. */
    method FollowHop(target: Name, qtype: RRType) returns (hop: D.Hop)
      ensures hop == D.HopAt(View(), target, qtype)
    {
      if !InZone(target, origin) {
        return D.OutOfZone;
      }
      var rrs := Lookup(target, qtype);
      if rrs != [] {
        return D.Terminal(rrs);
      }
      var cnames := Lookup(target, TYPE_CNAME);
      if cnames != [] {
        return D.Chain(cnames);
      }
      var wRRs, wFound := LookupWildcard(target, qtype);
      if wFound && wRRs != [] {
        return D.Terminal(D.WithOwner(wRRs, target));
      }
      var wCNAMEs, _ := LookupWildcard(target, TYPE_CNAME);
      if wCNAMEs != [] {
        return D.Chain(D.WithOwner(wCNAMEs, target));
      }
      return D.DeadEnd;
    }

    /** Consumes the in-zone chain behind `initial` instead of emitting it. */
    method CollapseCNAME(initial: seq<RR>, qtype: RRType) returns (r: D.Collapsed)
      ensures r == D.CollapseCNAME(View(), initial, qtype)
    {
      hide View, Recs, D.CollapseHop;
      ghost var z := View();
      if initial == [] {
        return D.CollapseNoData;
      }
      var minTTL := MinRRTTL(initial[0].ttl, initial[1..]);
      var cur := initial[|initial| - 1];
      if !cur.data.Cname? {
        return D.CollapseNoData;
      }
      var consumed := |initial|;
      while true
        invariant cur.data.Cname?
        invariant D.CollapseFrom(z, cur.data.target, consumed, minTTL, qtype) == D.CollapseCNAME(z, initial, qtype)
        decreases if consumed < D.MAX_CNAME_DEPTH then D.MAX_CNAME_DEPTH - consumed else 0
      {
        var target := cur.data.target;
        var hop := CollapseHop(target, qtype);
        match hop {
          case OutOfZone =>
            return D.CollapseTail(target, minTTL);
          case Terminal(rrs) =>
            var ttl := MinRRTTL(minTTL, rrs);
            return D.CollapseRecords(rrs, ttl);
          case DeadEnd =>
            return D.CollapseNoData;
          case Chain(next) =>
            if consumed >= D.MAX_CNAME_DEPTH {
              return D.CollapseTail(target, minTTL);
            }
            cur := next[|next| - 1];
            if !cur.data.Cname? {
              return D.CollapseNoData;
            }
            consumed := consumed + |next|;
            minTTL := MinRRTTL(minTTL, next);
        }
      }
    }

    /** The per-hop rule: exact qtype, exact CNAME, wildcard qtype, wildcard CNAME. */
    method CollapseHop(target: Name, qtype: RRType) returns (hop: D.Hop)
      ensures hop == D.CollapseHop(View(), target, qtype)
      ensures hop.Chain? ==> hop.rrs != []
    {
      if !InZone(target, origin) {
        return D.OutOfZone;
      }
      if qtype != TYPE_CNAME {
        var rrs := Lookup(target, qtype);
        if rrs != [] {
          return D.Terminal(rrs);
        }
      }
      var next := Lookup(target, TYPE_CNAME);
      if next == [] && qtype != TYPE_CNAME {
        var wRRs, wFound := LookupWildcard(target, qtype);
        if wFound && wRRs != [] {
          return D.Terminal(wRRs);
        }
      }
      if next == [] {
        var wCNAMEs, _ := LookupWildcard(target, TYPE_CNAME);
        next := wCNAMEs;
      }
      return if next == [] then D.DeadEnd else D.Chain(next);
    }

    static method MinRRTTL(current: nat, rrs: seq<RR>) returns (ttl: nat)
      ensures ttl == D.MinTTL(current, rrs)
    {
      ttl := current;
      for i := 0 to |rrs|
        invariant D.MinTTL(ttl, rrs[i..]) == D.MinTTL(current, rrs)
      {
        ttl := D.Min(ttl, rrs[i].ttl);
      }
    }

    /** Assigns the role; a backup zone is stripped down to its overrides. */
    method Classify(isBackup: bool)
      requires Separate()
      modifies this, records.Values
      ensures Separate() && origin == old(origin)
      ensures fresh(records.Values - old(records.Values))
      ensures if isBackup then role == RoleBackupOverride && View() == D.BackupFilter(old(View()))
              else role == RoleRoot && View() == old(View())
    {
      if isBackup {
        role := RoleBackupOverride;
        FilterBackupRecords();
      } else {
        role := RoleRoot;
      }
    }

    method FilterBackupRecords()
      requires Separate()
      modifies this`soa, this`records, records.Values
      ensures Separate() && View() == D.BackupFilter(old(View()))
      ensures records.Values <= old(records.Values)
    {
      ghost var z := View();
      soa := None;
      FilterOwners();
      FilterDone(z);
      hide PartlyFiltered, Recs, Separate;
    }

    /** Visits every owner, in any order. */
    method FilterOwners()
      requires Separate()
      modifies this`records, records.Values
      ensures Separate() && records.Values <= old(records.Values)
      ensures Recs() == PartlyFiltered(old(Recs()), {})
    {
      ghost var recs := Recs();
      var todo := records.Keys;
      assert todo == recs.Keys;
      FilterNothingYet(recs);
      hide Recs, PartlyFiltered, Filtered, Separate;
      while todo != {}
        invariant Separate() && records.Values <= old(records.Values)
        invariant todo <= records.Keys && todo <= recs.Keys
        invariant Recs() == PartlyFiltered(recs, todo)
        decreases todo
      {
        var o := Pick(todo);
        FilterOneMore(recs, todo, o);
        FilterOwner(o);
        todo := todo - {o};
      }
    }

    /** Strips one owner, and removes it when nothing is left. */
    method FilterOwner(o: Name)
      requires Separate() && o in records
      modifies this`records, records[o]
      ensures Separate() && records.Values <= old(records.Values)
      ensures records.Keys == old(records.Keys) || records.Keys == old(records.Keys) - {o}
      ensures Recs() == Filtered(old(Recs()), o)
    {
      ghost var recs := Recs();
      var s := records[o];
      assert recs[o] == s.Content();
      if s.single {
        assert s.qtype in s.Content();
        if Overridable(s.qtype) {
          assert D.OverridableOnly(s.Content()) == s.Content();
          assert Recs() == recs[o := D.OverridableOnly(recs[o])];
        } else {
          assert D.OverridableOnly(s.Content()) == map[];
          records := records - {o};
          assert Recs() == recs - {o};
        }
      } else {
        s.DropDisallowed();
        if s.sub == map[] {
          records := records - {o};
          assert Recs() == recs - {o};
        } else {
          assert Recs() == recs[o := D.OverridableOnly(recs[o])];
        }
      }
      hide Recs;
    }
  }

  /**
   Reads a zone file into a new zone. What the file parses to depends on the origin, which
   completes its relative names.
   */
  method ParseFile(origin: Name, content: Name -> Result<seq<RR>>) returns (r: Result<Zone>)
    ensures r.Err? <==> content(origin).Err?
    ensures r.Ok? ==> fresh(r.value) && fresh(r.value.records.Values) && r.value.Separate() &&
                      r.value.View() == D.Load(D.Zone(origin, map[], None), content(origin).value)
  {
    var parsed := content(origin);
    if parsed.Err? {
      return Err;
    }
    var z := new Zone(origin);
    var rrs := parsed.value;
    for i := 0 to |rrs|
      invariant z.Separate() && fresh(z.records.Values) && z.View().origin == origin
      invariant D.Load(z.View(), rrs[i..]) == D.Load(D.Zone(origin, map[], None), rrs)
    {
      if !InZone(rrs[i].owner, origin) {
        continue;
      }
      var _ := z.AddRR(rrs[i]);
    }
    return Ok(z);
  }

  /** One owner of recs stripped down. */
  function Filtered(recs: map<Name, D.Store>, o: Name): map<Name, D.Store>
    requires o in recs
  {
    var kept := D.OverridableOnly(recs[o]);
    if kept == map[] then recs - {o} else recs[o := kept]
  }

  /** Every owner outside `todo` stripped down. */
  ghost function PartlyFiltered(recs: map<Name, D.Store>, todo: set<Name>): map<Name, D.Store> {
    map o | o in recs && (o in todo || D.OverridableOnly(recs[o]) != map[]) ::
      if o in todo then recs[o] else D.OverridableOnly(recs[o])
  }

  lemma FilterNothingYet(recs: map<Name, D.Store>)
    ensures PartlyFiltered(recs, recs.Keys) == recs
  {
  }

  lemma FilterOneMore(recs: map<Name, D.Store>, todo: set<Name>, o: Name)
    requires o in todo && o in recs
    ensures Filtered(PartlyFiltered(recs, todo), o) == PartlyFiltered(recs, todo - {o})
  {
  }

  lemma FilterDone(z: D.Zone)
    ensures D.Zone(z.origin, PartlyFiltered(z.recs, {}), None) == D.BackupFilter(z)
  {
  }
}
