/**
 Building the served state from a configuration (internal/server/build.go, fingerprint.go).
 A rebuild reuses the zone objects of the previous state whose files look unchanged; the result
 is the one a full rebuild would give, and no earlier state is touched.
 */
module Build {
  import opened Wrappers
  import opened DnsNames
  import opened Records
  import opened ZoneStore
  import D = ZoneData

  // ----- fingerprints

  datatype VerifyMode = VerifyHash | VerifySize | VerifyNone

  datatype Fingerprint = Fingerprint(size: nat, mtime: int, hash: nat)

  predicate Changed(fp: Fingerprint, prev: Fingerprint, mode: VerifyMode) {
    match mode
    case VerifyNone => true
    case VerifySize => fp.size != prev.size || fp.mtime != prev.mtime
    case VerifyHash => if fp.size != prev.size then true else fp.hash != prev.hash
  }

  /** The part of a fingerprint that the mode compares. */
  function Identity(fp: Fingerprint, mode: VerifyMode): Fingerprint {
    match mode
    case VerifyNone => Fingerprint(0, 0, 0)
    case VerifySize => fp.(hash := 0)
    case VerifyHash => fp.(mtime := 0)
  }

  lemma UnchangedIsSameIdentity(fp: Fingerprint, prev: Fingerprint, mode: VerifyMode)
    ensures !Changed(fp, prev, mode) <==> mode != VerifyNone && Identity(fp, mode) == Identity(prev, mode)
  {
  }

  /** What each mode looks at: hashing ignores the time, comparing sizes ignores the hash, and mode none trusts nothing. */
  lemma ChangedMeans(fp: Fingerprint, prev: Fingerprint)
    ensures Changed(fp, prev, VerifyHash) <==> fp.size != prev.size || fp.hash != prev.hash
    ensures Changed(fp, prev, VerifySize) <==> fp.size != prev.size || fp.mtime != prev.mtime
    ensures Changed(fp, prev, VerifyNone)
  {
  }

  // ----- configuration and disk

  datatype ZoneConf = ZoneConf(origin: Name, file: string)

  datatype ViewConf = ViewConf(name: string, zones: seq<ZoneConf>)

  /** What a zone file parses to under an origin: records, or a parse failure. */
  type Content = Name -> Result<seq<RR>>

  datatype File = File(stamp: Fingerprint, content: Content)

  /** One reload's inputs; a file that is not on disk can be neither stat-ed nor read. */
  datatype Inputs = Inputs(views: seq<ViewConf>, aliases: map<Name, Name>, disk: map<string, File>)

  /** Equal fingerprints mean equal content: the assumption incremental reloading rests on. */
  ghost predicate Honest(disk: map<string, File>, contentOf: Fingerprint -> Content, mode: VerifyMode) {
    mode == VerifyNone || forall f :: f in disk ==> disk[f].content == contentOf(Identity(disk[f].stamp, mode))
  }

  // ----- a full rebuild, on values

  function Parsed(origin: Name, rrs: seq<RR>): D.Zone {
    D.Load(D.Zone(origin, map[], None), rrs)
  }

  /** The zone served for one entry; a root zone must have an apex SOA. */
  function ZoneOf(origin: Name, content: Content, isBackup: bool): Result<D.Zone> {
    match content(origin)
    case Err => Err
    case Ok(rrs) =>
      var z := Parsed(origin, rrs);
      if isBackup then Ok(D.BackupFilter(z)) else if z.soa == None then Err else Ok(z)
  }

  function ContentAt(disk: map<string, File>, file: string): Content {
    if file in disk then disk[file].content else _ => Err
  }

  datatype ViewZones = ViewZones(roots: map<Name, D.Zone>, backups: map<Name, D.Zone>)

  /** The view's zones with one more entry, which replaces an earlier one for the same origin. */
  function AddValue(before: ViewZones, o: Name, z: D.Zone, isBackup: bool): ViewZones {
    if isBackup then ViewZones(before.roots, before.backups[o := z]) else ViewZones(before.roots[o := z], before.backups)
  }

  function Expected(i: Inputs, c: ZoneConf): Result<D.Zone> {
    ZoneOf(c.origin, ContentAt(i.disk, c.file), c.origin in i.aliases)
  }

  /** A view's zones, loaded in order; any failure fails the build. */
  function FullView(i: Inputs, zones: seq<ZoneConf>): Result<ViewZones> {
    if zones == [] then Ok(ViewZones(map[], map[]))
    else
      var last := zones[|zones| - 1];
      match FullView(i, zones[..|zones| - 1])
      case Err => Err
      case Ok(before) =>
        match Expected(i, last)
        case Err => Err
        case Ok(z) => Ok(AddValue(before, last.origin, z, last.origin in i.aliases))
  }

  lemma FullViewStep(i: Inputs, zones: seq<ZoneConf>, k: nat)
    requires k < |zones| && FullView(i, zones[..k]).Ok?
    ensures FullView(i, zones[..k + 1]) ==
              match Expected(i, zones[k])
              case Err => Err
              case Ok(z) => Ok(AddValue(FullView(i, zones[..k]).value, zones[k].origin, z, zones[k].origin in i.aliases))
  {
    hide Expected, AddValue;
    var front := zones[..k + 1];
    assert front[..|front| - 1] == zones[..k] && front[k] == zones[k];
  }

  function Origins(zones: seq<ZoneConf>): set<Name> {
    set c | c in zones :: c.origin
  }

  /** The origins queries are matched against: aliases of a loaded root count even without a file. */
  function ServedOrigins(i: Inputs, zones: seq<ZoneConf>, roots: set<Name>): set<Name> {
    Origins(zones) + (set b | b in i.aliases && i.aliases[b] in roots)
  }

  datatype Snapshot = Snapshot(views: map<string, ViewZones>, origins: map<string, set<Name>>)

  function WithView(i: Inputs, before: Snapshot, c: ViewConf, v: ViewZones): Snapshot {
    Snapshot(before.views[c.name := v], before.origins[c.name := ServedOrigins(i, c.zones, v.roots.Keys)])
  }

  function FullBuild(i: Inputs, views: seq<ViewConf>): Result<Snapshot> {
    if views == [] then Ok(Snapshot(map[], map[]))
    else
      var last := views[|views| - 1];
      match FullBuild(i, views[..|views| - 1])
      case Err => Err
      case Ok(before) =>
        match FullView(i, last.zones)
        case Err => Err
        case Ok(v) => Ok(WithView(i, before, last, v))
  }

  lemma FullBuildStep(i: Inputs, views: seq<ViewConf>, k: nat)
    requires k < |views| && FullBuild(i, views[..k]).Ok?
    ensures FullBuild(i, views[..k + 1]) ==
              match FullView(i, views[k].zones)
              case Err => Err
              case Ok(v) => Ok(WithView(i, FullBuild(i, views[..k]).value, views[k], v))
  {
    hide FullView, WithView;
    var front := views[..k + 1];
    assert front[..|front| - 1] == views[..k] && front[k] == views[k];
  }

  // ----- a full rebuild, entry by entry

  /** The records an entry's file holds in its zone: read in order under the entry's origin. */
  function ReadZone(i: Inputs, c: ZoneConf): D.Zone
    requires c.file in i.disk && i.disk[c.file].content(c.origin).Ok?
  {
    D.Load(D.Zone(c.origin, map[], None), i.disk[c.file].content(c.origin).value)
  }

  /** An entry loads when its file is there and parses, and, unless it is a backup, holds an SOA. */
  predicate Loads(i: Inputs, c: ZoneConf) {
    && c.file in i.disk && i.disk[c.file].content(c.origin).Ok?
    && (c.origin in i.aliases || ReadZone(i, c).soa.Some?)
  }

  lemma EntryLoads(i: Inputs, c: ZoneConf)
    ensures Expected(i, c).Ok? <==> Loads(i, c)
    ensures Loads(i, c) ==>
              Expected(i, c).value == if c.origin in i.aliases then D.BackupFilter(ReadZone(i, c)) else ReadZone(i, c)
  {
    hide D.Load, D.BackupFilter;
  }

  predicate AllLoad(i: Inputs, zones: seq<ZoneConf>) {
    forall k :: 0 <= k < |zones| ==> Loads(i, zones[k])
  }

  lemma AllLoadPush(i: Inputs, zones: seq<ZoneConf>, c: ZoneConf)
    ensures AllLoad(i, zones + [c]) <==> AllLoad(i, zones) && Loads(i, c)
  {
    hide Loads;
    var all := zones + [c];
    assert all[|zones|] == c && forall k :: 0 <= k < |zones| ==> all[k] == zones[k];
  }

  /** Some entry is for the origin. */
  predicate Lists(zones: seq<ZoneConf>, o: Name) {
    exists k :: 0 <= k < |zones| && zones[k].origin == o
  }

  lemma ListsPush(zones: seq<ZoneConf>, c: ZoneConf, o: Name)
    ensures Lists(zones + [c], o) <==> Lists(zones, o) || c.origin == o
  {
    var all := zones + [c];
    if Lists(zones, o) {
      var k :| 0 <= k < |zones| && zones[k].origin == o;
      assert all[k].origin == o;
    }
    if c.origin == o {
      assert all[|zones|].origin == o;
    }
  }

  /** Entry k is the view's last one for its origin. */
  predicate LastEntry(zones: seq<ZoneConf>, k: int) {
    0 <= k < |zones| && forall j :: k < j < |zones| ==> zones[j].origin != zones[k].origin
  }

  /** The view shows the entry's zone, in the role its origin has. */
  ghost predicate ShowsEntry(i: Inputs, v: ViewZones, c: ZoneConf) {
    && Loads(i, c)
    && if c.origin in i.aliases then c.origin in v.backups && v.backups[c.origin] == D.BackupFilter(ReadZone(i, c))
       else c.origin in v.roots && v.roots[c.origin] == ReadZone(i, c)
  }

  /** The view has a zone for each listed origin and no other, among the backups when it is an alias. */
  ghost predicate HasOrigins(i: Inputs, v: ViewZones, zones: seq<ZoneConf>) {
    forall o ::
      && (o in v.roots <==> o !in i.aliases && Lists(zones, o))
      && (o in v.backups <==> o in i.aliases && Lists(zones, o))
  }

  ghost predicate ShowsLast(i: Inputs, v: ViewZones, zones: seq<ZoneConf>) {
    forall k :: LastEntry(zones, k) ==> ShowsEntry(i, v, zones[k])
  }

  /** One more entry, loaded. */
  lemma EntryAdded(i: Inputs, before: ViewZones, zones: seq<ZoneConf>, c: ZoneConf)
    requires Loads(i, c) && HasOrigins(i, before, zones) && ShowsLast(i, before, zones)
    ensures var v := AddValue(before, c.origin, Expected(i, c).value, c.origin in i.aliases);
            HasOrigins(i, v, zones + [c]) && ShowsLast(i, v, zones + [c])
  {
    var all := zones + [c];
    EntryLoads(i, c);
    hide Expected, ReadZone, Loads, D.BackupFilter;
    var v := AddValue(before, c.origin, Expected(i, c).value, c.origin in i.aliases);
    forall o
      ensures o in v.roots <==> o !in i.aliases && Lists(all, o)
      ensures o in v.backups <==> o in i.aliases && Lists(all, o)
    {
      ListsPush(zones, c, o);
    }
    forall k | LastEntry(all, k) ensures ShowsEntry(i, v, all[k]) {
      if k < |zones| {
        assert forall j :: k < j < |zones| ==> all[j] == zones[j];
        assert LastEntry(zones, k) && all[|zones|].origin != all[k].origin;
      }
    }
  }

  /**
   A view loads exactly when each of its entries does. It then holds one zone for each listed
   origin, that of the last entry for it, among the backups when it is an alias.
   */
  lemma {:induction false} FullViewExactly(i: Inputs, zones: seq<ZoneConf>)
    ensures FullView(i, zones).Ok? <==> AllLoad(i, zones)
    ensures FullView(i, zones).Ok? ==> HasOrigins(i, FullView(i, zones).value, zones) && ShowsLast(i, FullView(i, zones).value, zones)
  {
    if zones != [] {
      var n := |zones| - 1;
      var front, last := zones[..n], zones[n];
      FullViewExactly(i, front);
      EntryLoads(i, last);
      assert zones == front + [last];
      hide Expected, Loads, ReadZone, AddValue, HasOrigins, ShowsLast;
      AllLoadPush(i, front, last);
      if FullView(i, front).Ok? && Loads(i, last) {
        EntryAdded(i, FullView(i, front).value, front, last);
      }
      hide AllLoad;
    }
  }

  predicate DistinctNames(views: seq<ViewConf>) {
    forall j, k :: 0 <= j < k < |views| ==> views[j].name != views[k].name
  }

  /** The origins a view is matched by: those it lists, and the aliases of the roots it has. */
  ghost predicate ServesOrigins(i: Inputs, zones: seq<ZoneConf>, roots: set<Name>, origins: set<Name>) {
    forall o :: o in origins <==> Lists(zones, o) || (o in i.aliases && i.aliases[o] in roots)
  }

  /** The snapshot has the view's zones and origins under its name. */
  ghost predicate HasView(i: Inputs, snap: Snapshot, c: ViewConf) {
    && FullView(i, c.zones).Ok? && c.name in snap.views && c.name in snap.origins
    && snap.views[c.name] == FullView(i, c.zones).value
    && ServesOrigins(i, c.zones, snap.views[c.name].roots.Keys, snap.origins[c.name])
  }

  ghost predicate HasViews(i: Inputs, snap: Snapshot, views: seq<ViewConf>) {
    forall k :: 0 <= k < |views| ==> HasView(i, snap, views[k])
  }

  lemma ViewAdded(i: Inputs, before: Snapshot, views: seq<ViewConf>, c: ViewConf)
    requires FullView(i, c.zones).Ok? && HasViews(i, before, views) && DistinctNames(views + [c])
    ensures HasViews(i, WithView(i, before, c, FullView(i, c.zones).value), views + [c])
  {
    OriginsServed(i, c.zones, FullView(i, c.zones).value.roots.Keys);
    hide FullView, ServesOrigins, ServedOrigins;
    var all := views + [c];
    forall k | 0 <= k < |all| ensures HasView(i, WithView(i, before, c, FullView(i, c.zones).value), all[k]) {
      if k < |views| {
        assert all[k] == views[k] && all[k].name != all[|views|].name;
      }
    }
  }

  /**
   A full rebuild succeeds exactly when each view loads. With distinct view names each view then
   has its zones, and is matched by the origins it lists and the aliases of its roots.
   */
  lemma {:induction false} FullBuildExactly(i: Inputs, views: seq<ViewConf>)
    ensures FullBuild(i, views).Ok? <==> forall k :: 0 <= k < |views| ==> FullView(i, views[k].zones).Ok?
    ensures FullBuild(i, views).Ok? && DistinctNames(views) ==> HasViews(i, FullBuild(i, views).value, views)
  {
    if views != [] {
      var n := |views| - 1;
      var front, last := views[..n], views[n];
      FullBuildExactly(i, front);
      assert views == front + [last] && forall k :: 0 <= k < n ==> views[k] == front[k];
      hide FullView, WithView, HasViews;
      if FullBuild(i, views).Ok? && DistinctNames(views) {
        ViewAdded(i, FullBuild(i, front).value, front, last);
      }
    }
  }

  lemma OriginsServed(i: Inputs, zones: seq<ZoneConf>, roots: set<Name>)
    ensures ServesOrigins(i, zones, roots, ServedOrigins(i, zones, roots))
  {
    forall o ensures o in Origins(zones) <==> Lists(zones, o) {
      if o in Origins(zones) {
        var c :| c in zones && c.origin == o;
        var k :| 0 <= k < |zones| && zones[k] == c;
      }
    }
  }

  // ----- the state with its zone objects

  datatype ViewState = ViewState(roots: map<Name, Zone>, backups: map<Name, Zone>, stamps: map<Name, Fingerprint>)

  datatype State = State(views: map<string, ViewState>, origins: map<string, set<Name>>)

  // The predicates below read a given set of objects, which must hold every zone and its stores.

  ghost predicate Inside(z: Zone, objs: set<object>)
    reads z
  {
    z in objs && forall s :: s in z.records.Values ==> s in objs
  }

  /** The objects of m hold the zones vals. */
  ghost predicate Holds(m: map<Name, Zone>, vals: map<Name, D.Zone>, objs: set<object>)
    reads objs
  {
    m.Keys == vals.Keys && forall o :: o in m ==> m[o] in objs && Inside(m[o], objs) && m[o].View() == vals[o]
  }

  ghost predicate ViewHolds(v: ViewState, vals: ViewZones, objs: set<object>)
    reads objs
  {
    Holds(v.roots, vals.roots, objs) && Holds(v.backups, vals.backups, objs)
  }

  /** The object holds z, in its role, and z is what its recorded fingerprint says the file holds. */
  ghost predicate Reliable(fp: Fingerprint, o: Name, obj: Zone, z: D.Zone, isBackup: bool,
                           contentOf: Fingerprint -> Content, mode: VerifyMode)
    reads obj
  {
    && obj.role == (if isBackup then RoleBackupOverride else RoleRoot)
    && ZoneOf(o, contentOf(Identity(fp, mode)), isBackup) == Ok(z)
  }

  /** Every object of m is reliable. */
  ghost predicate AllReliable(m: map<Name, Zone>, vals: map<Name, D.Zone>, stamps: map<Name, Fingerprint>, isBackup: bool,
                              contentOf: Fingerprint -> Content, mode: VerifyMode)
    requires m.Keys == vals.Keys
    reads m.Values
  {
    forall o :: o in m ==> o in stamps && Reliable(stamps[o], o, m[o], vals[o], isBackup, contentOf, mode)
  }

  ghost predicate Faithful(v: ViewState, vals: ViewZones, contentOf: Fingerprint -> Content, mode: VerifyMode, objs: set<object>)
    requires ViewHolds(v, vals, objs)
    reads objs
  {
    && v.roots.Keys !! v.backups.Keys
    && (forall z :: z in v.roots.Values ==> z in objs) && (forall z :: z in v.backups.Values ==> z in objs)
    && AllReliable(v.roots, vals.roots, v.stamps, false, contentOf, mode)
    && AllReliable(v.backups, vals.backups, v.stamps, true, contentOf, mode)
  }

  /** The state s shows the zones of snap and records fingerprints a later rebuild may rely on. */
  ghost predicate Serves(s: State, snap: Snapshot, contentOf: Fingerprint -> Content, mode: VerifyMode, objs: set<object>)
    reads objs
  {
    && s.views.Keys == snap.views.Keys && s.origins == snap.origins
    && forall n :: n in s.views ==>
         && ViewHolds(s.views[n], snap.views[n], objs)
         && (mode != VerifyNone ==> Faithful(s.views[n], snap.views[n], contentOf, mode, objs))
  }

  /** A previous state and what it shows, for the rebuild to reuse. */
  ghost predicate Usable(prev: Option<State>, snap: Snapshot, contentOf: Fingerprint -> Content, mode: VerifyMode, objs: set<object>)
    reads objs
  {
    prev.Some? ==> Serves(prev.value, snap, contentOf, mode, objs)
  }

  // ----- the code

  datatype Loaded = Loaded(zone: Zone, stamp: Fingerprint, reused: bool)

  /** The previous state's zone for this entry, if its file is unchanged and its role is the same. */
  method Reusable(c: ZoneConf, prev: Option<State>, view: string, mode: VerifyMode, isBackup: bool, fp: Fingerprint)
    returns (z: Option<Zone>)
    ensures z.Some? ==>
              && prev.Some? && mode != VerifyNone && view in prev.value.views
              && var v := prev.value.views[view];
                 && c.origin in v.stamps && !Changed(fp, v.stamps[c.origin], mode)
                 && (isBackup <==> c.origin in v.backups)
                 && (if c.origin in v.roots then z.value == v.roots[c.origin]
                     else c.origin in v.backups && z.value == v.backups[c.origin])
  {
    if prev.None? || mode == VerifyNone || view !in prev.value.views {
      return None;
    }
    var v := prev.value.views[view];
    if (c.origin in v.backups) != isBackup {
      return None;
    }
    if c.origin !in v.stamps || Changed(fp, v.stamps[c.origin], mode) {
      return None;
    }
    if c.origin in v.roots {
      return Some(v.roots[c.origin]);
    }
    if c.origin in v.backups {
      return Some(v.backups[c.origin]);
    }
    z := None;
  }

  /** Loads one zone, by reuse or by parsing; nothing that existed before is changed. */
  method LoadZone(c: ZoneConf, i: Inputs, prev: Option<State>, view: string, mode: VerifyMode,
                  ghost contentOf: Fingerprint -> Content, ghost snap: Snapshot, ghost objs: set<object>)
    returns (r: Result<Loaded>)
    requires Honest(i.disk, contentOf, mode) && Usable(prev, snap, contentOf, mode, objs)
    ensures c.file !in i.disk ==> r.Err?
    ensures r.Ok? ==> c.file in i.disk && r.value.stamp == (if mode == VerifyNone then Fingerprint(0, 0, 0) else i.disk[c.file].stamp)
    ensures r.Err? ==> ContentAt(i.disk, c.file)(c.origin).Err?
    ensures r.Ok? && r.value.reused ==>
              ZoneOf(c.origin, ContentAt(i.disk, c.file), c.origin in i.aliases) == Ok(r.value.zone.View())
              && r.value.zone.role == if c.origin in i.aliases then RoleBackupOverride else RoleRoot
    ensures r.Ok? && !r.value.reused ==>
              && ContentAt(i.disk, c.file)(c.origin).Ok?
              && fresh(r.value.zone) && fresh(r.value.zone.records.Values) && r.value.zone.Separate()
              && r.value.zone.View() == Parsed(c.origin, ContentAt(i.disk, c.file)(c.origin).value)
  {
    if c.file !in i.disk {
      return Err;
    }
    var file := i.disk[c.file];
    var fp := if mode == VerifyNone then Fingerprint(0, 0, 0) else file.stamp;
    var kept := Reusable(c, prev, view, mode, c.origin in i.aliases, fp);
    if kept.Some? {
      UnchangedIsSameIdentity(fp, prev.value.views[view].stamps[c.origin], mode);
      ghost var v, vals := prev.value.views[view], snap.views[view];
      assert ViewHolds(v, vals, objs) && Faithful(v, vals, contentOf, mode, objs);
      return Ok(Loaded(kept.value, fp, true));
    }
    var parsed := ParseFile(c.origin, file.content);
    if parsed.Err? {
      return Err;
    }
    r := Ok(Loaded(parsed.value, fp, false));
  }

  /** One entry of a view: loaded, given its role if freshly parsed, checked for its SOA. */
  method BuildZone(c: ZoneConf, i: Inputs, prev: Option<State>, view: string, mode: VerifyMode,
                   ghost contentOf: Fingerprint -> Content, ghost snap: Snapshot, ghost objs: set<object>)
    returns (r: Result<Loaded>)
    requires Honest(i.disk, contentOf, mode) && Usable(prev, snap, contentOf, mode, objs)
    ensures var expected := Expected(i, c);
            && (r.Ok? <==> expected.Ok?)
            && (r.Ok? ==>
                  && expected == Ok(r.value.zone.View())
                  && r.value.zone.role == (if c.origin in i.aliases then RoleBackupOverride else RoleRoot)
                  && (mode != VerifyNone ==> contentOf(Identity(r.value.stamp, mode)) == ContentAt(i.disk, c.file)))
  {
    r := LoadZone(c, i, prev, view, mode, contentOf, snap, objs);
    if r.Err? {
      return;
    }
    var z := r.value.zone;
    if !r.value.reused {
      z.Classify(c.origin in i.aliases);
    }
    if z.role != RoleBackupOverride && z.soa == None {
      return Err;
    }
  }

  /** A view's zone objects, what they hold, and what a later rebuild may rely on. */
  ghost predicate Built(v: ViewState, vals: ViewZones, i: Inputs, contentOf: Fingerprint -> Content, mode: VerifyMode,
                        objs: set<object>)
    reads objs
  {
    && ViewHolds(v, vals, objs)
    && (forall o :: o in v.roots ==> o !in i.aliases)
    && (forall o :: o in v.backups ==> o in i.aliases)
    && (mode != VerifyNone ==> Faithful(v, vals, contentOf, mode, objs))
  }

  function AddZone(v: ViewState, o: Name, z: Zone, fp: Fingerprint, isBackup: bool): ViewState {
    if isBackup then ViewState(v.roots, v.backups[o := z], v.stamps[o := fp])
    else ViewState(v.roots[o := z], v.backups, v.stamps[o := fp])
  }

  /** The zone and its stores. */
  ghost function ObjectsOf(z: Zone): set<object>
    reads z
  {
    {z} + z.records.Values
  }

  lemma HoldsStep(m: map<Name, Zone>, vals: map<Name, D.Zone>, objs: set<object>, o: Name, z: Zone)
    requires Holds(m, vals, objs)
    ensures Holds(m[o := z], vals[o := z.View()], objs + ObjectsOf(z))
    ensures Holds(m, vals, objs + ObjectsOf(z))
  {
  }

  lemma ReliableStep(m: map<Name, Zone>, vals: map<Name, D.Zone>, stamps: map<Name, Fingerprint>, isBackup: bool,
                     contentOf: Fingerprint -> Content, mode: VerifyMode, o: Name, z: Zone, fp: Fingerprint)
    requires m.Keys == vals.Keys && AllReliable(m, vals, stamps, isBackup, contentOf, mode)
    ensures Reliable(fp, o, z, z.View(), isBackup, contentOf, mode) ==>
              AllReliable(m[o := z], vals[o := z.View()], stamps[o := fp], isBackup, contentOf, mode)
    ensures o !in m ==> AllReliable(m, vals, stamps[o := fp], isBackup, contentOf, mode)
  {
    hide Reliable, Zone.View;
  }

  lemma FaithfulStep(v: ViewState, vals: ViewZones, contentOf: Fingerprint -> Content, mode: VerifyMode, objs: set<object>,
                     o: Name, z: Zone, fp: Fingerprint, isBackup: bool)
    requires ViewHolds(v, vals, objs) && Faithful(v, vals, contentOf, mode, objs)
    requires if isBackup then o !in v.roots else o !in v.backups
    requires Reliable(fp, o, z, z.View(), isBackup, contentOf, mode)
    ensures var w := AddZone(v, o, z, fp, isBackup);
            var now := AddValue(vals, o, z.View(), isBackup);
            ViewHolds(w, now, objs + ObjectsOf(z)) && Faithful(w, now, contentOf, mode, objs + ObjectsOf(z))
  {
    ReliableStep(v.roots, vals.roots, v.stamps, false, contentOf, mode, o, z, fp);
    ReliableStep(v.backups, vals.backups, v.stamps, true, contentOf, mode, o, z, fp);
    HoldsStep(v.roots, vals.roots, objs, o, z);
    HoldsStep(v.backups, vals.backups, objs, o, z);
    InsideAll(AddZone(v, o, z, fp, isBackup), AddValue(vals, o, z.View(), isBackup), objs + ObjectsOf(z));
    hide AllReliable, Reliable, Zone.View, Holds, ObjectsOf;
  }

  lemma InsideAll(v: ViewState, vals: ViewZones, objs: set<object>)
    requires ViewHolds(v, vals, objs)
    ensures (forall z :: z in v.roots.Values ==> z in objs) && (forall z :: z in v.backups.Values ==> z in objs)
    ensures v.roots.Keys == vals.roots.Keys && v.backups.Keys == vals.backups.Keys
  {
  }

  lemma BuiltStep(v: ViewState, vals: ViewZones, i: Inputs, contentOf: Fingerprint -> Content, mode: VerifyMode,
                  objs: set<object>, c: ZoneConf, l: Loaded)
    requires Built(v, vals, i, contentOf, mode, objs)
    requires Expected(i, c) == Ok(l.zone.View())
    requires l.zone.role == if c.origin in i.aliases then RoleBackupOverride else RoleRoot
    requires mode != VerifyNone ==> contentOf(Identity(l.stamp, mode)) == ContentAt(i.disk, c.file)
    ensures var isBackup := c.origin in i.aliases;
            Built(AddZone(v, c.origin, l.zone, l.stamp, isBackup), AddValue(vals, c.origin, l.zone.View(), isBackup),
                  i, contentOf, mode, objs + ObjectsOf(l.zone))
  {
    HoldsStep(v.roots, vals.roots, objs, c.origin, l.zone);
    HoldsStep(v.backups, vals.backups, objs, c.origin, l.zone);
    if mode != VerifyNone {
      FaithfulStep(v, vals, contentOf, mode, objs, c.origin, l.zone, l.stamp, c.origin in i.aliases);
    }
    hide ZoneOf, Identity, Holds, ObjectsOf, Faithful;
  }

  /** The zones of one view. */
  method BuildView(zones: seq<ZoneConf>, i: Inputs, prev: Option<State>, view: string, mode: VerifyMode,
                   ghost contentOf: Fingerprint -> Content, ghost snap: Snapshot, ghost objs: set<object>)
    returns (r: Result<ViewState>, ghost used: set<object>)
    requires Honest(i.disk, contentOf, mode) && Usable(prev, snap, contentOf, mode, objs)
    ensures r.Ok? <==> FullView(i, zones).Ok?
    ensures r.Ok? ==> Built(r.value, FullView(i, zones).value, i, contentOf, mode, used)
  {
    var v := ViewState(map[], map[], map[]);
    used := {};
    var k := 0;
    assert zones[..0] == [];
    NothingBuilt(i, contentOf, mode);
    hide *;
    while k < |zones|
      invariant 0 <= k <= |zones|
      invariant FullView(i, zones[..k]).Ok?
      invariant Built(v, FullView(i, zones[..k]).value, i, contentOf, mode, used)
    {
      var next;
      next, used := BuildNext(zones, k, v, used, i, prev, view, mode, contentOf, snap, objs);
      if next.Err? {
        PrefixFails(i, zones, k + 1);
        return Err, {};
      }
      v := next.value;
      k := k + 1;
    }
    assert zones[..k] == zones;
    r := Ok(v);
  }

  /** The view's state with its k-th entry. */
  method BuildNext(zones: seq<ZoneConf>, k: nat, v: ViewState, ghost before: set<object>, i: Inputs, prev: Option<State>,
                   view: string, mode: VerifyMode, ghost contentOf: Fingerprint -> Content, ghost snap: Snapshot,
                   ghost objs: set<object>)
    returns (r: Result<ViewState>, ghost used: set<object>)
    requires Honest(i.disk, contentOf, mode) && Usable(prev, snap, contentOf, mode, objs)
    requires k < |zones| && FullView(i, zones[..k]).Ok?
    requires Built(v, FullView(i, zones[..k]).value, i, contentOf, mode, before)
    ensures r.Ok? <==> FullView(i, zones[..k + 1]).Ok?
    ensures r.Ok? ==> Built(r.value, FullView(i, zones[..k + 1]).value, i, contentOf, mode, used)
  {
    hide *;
    var c := zones[k];
    var built := BuildZone(c, i, prev, view, mode, contentOf, snap, objs);
    FullViewStep(i, zones, k);
    if built.Err? {
      return Err, {};
    }
    var z := built.value.zone;
    BuiltStep(v, FullView(i, zones[..k]).value, i, contentOf, mode, before, c, built.value);
    used := before + ObjectsOf(z);
    r := Ok(AddZone(v, c.origin, z, built.value.stamp, z.role == RoleBackupOverride));
  }

  lemma NothingBuilt(i: Inputs, contentOf: Fingerprint -> Content, mode: VerifyMode)
    ensures FullView(i, []) == Ok(ViewZones(map[], map[]))
    ensures Built(ViewState(map[], map[], map[]), ViewZones(map[], map[]), i, contentOf, mode, {})
  {
  }

  /** A full rebuild that fails on some of a view's zones fails on all of them. */
  lemma {:induction false} PrefixFails(i: Inputs, zones: seq<ZoneConf>, k: nat)
    requires k <= |zones| && FullView(i, zones[..k]).Err?
    ensures FullView(i, zones).Err?
    decreases |zones|
  {
    if k < |zones| {
      var front := zones[..|zones| - 1];
      assert front[..k] == zones[..k];
      PrefixFails(i, front, k);
    } else {
      assert zones[..k] == zones;
    }
  }

  lemma {:induction false} PrefixBuildFails(i: Inputs, views: seq<ViewConf>, k: nat)
    requires k <= |views| && FullBuild(i, views[..k]).Err?
    ensures FullBuild(i, views).Err?
    decreases |views|
  {
    if k < |views| {
      var front := views[..|views| - 1];
      assert front[..k] == views[..k];
      PrefixBuildFails(i, front, k);
    } else {
      assert views[..k] == views;
    }
  }

  lemma ViewGrows(v: ViewState, vals: ViewZones, contentOf: Fingerprint -> Content, mode: VerifyMode,
                  objs: set<object>, more: set<object>)
    requires ViewHolds(v, vals, objs) && objs <= more
    ensures ViewHolds(v, vals, more)
    ensures Faithful(v, vals, contentOf, mode, objs) ==> Faithful(v, vals, contentOf, mode, more)
  {
  }

  lemma StateStep(s: State, snap: Snapshot, i: Inputs, contentOf: Fingerprint -> Content, mode: VerifyMode, objs: set<object>,
                  c: ViewConf, v: ViewState, vals: ViewZones, used: set<object>)
    requires Serves(s, snap, contentOf, mode, objs)
    requires Built(v, vals, i, contentOf, mode, used)
    ensures var t := State(s.views[c.name := v], s.origins[c.name := ServedOrigins(i, c.zones, v.roots.Keys)]);
            Serves(t, WithView(i, snap, c, vals), contentOf, mode, objs + used)
  {
    assert v.roots.Keys == vals.roots.Keys;
    ViewGrows(v, vals, contentOf, mode, used, objs + used);
    forall n | n in s.views
      ensures ViewHolds(s.views[n], snap.views[n], objs + used)
      ensures mode != VerifyNone ==> Faithful(s.views[n], snap.views[n], contentOf, mode, objs + used)
    {
      ViewGrows(s.views[n], snap.views[n], contentOf, mode, objs, objs + used);
    }
    hide Holds, ViewHolds, ServedOrigins, Faithful;
  }

  /** The origins queries are matched against. */
  method SeenOrigins(i: Inputs, zones: seq<ZoneConf>, v: ViewState) returns (seen: set<Name>)
    requires v.backups.Keys <= Origins(zones)
    ensures seen == ServedOrigins(i, zones, v.roots.Keys)
  {
    seen := {};
    for k := 0 to |zones|
      invariant seen == Origins(zones[..k])
    {
      seen := seen + {zones[k].origin};
    }
    assert zones[..|zones|] == zones;
    var todo := i.aliases.Keys;
    while todo != {}
      invariant todo <= i.aliases.Keys
      invariant seen == Origins(zones) + (set b | b in i.aliases && b !in todo && i.aliases[b] in v.roots)
      decreases todo
    {
      var backup := Pick(todo);
      todo := todo - {backup};
      if i.aliases[backup] !in v.roots {
        continue;
      }
      if backup in v.backups {
        continue;
      }
      seen := seen + {backup};
    }
  }

  lemma {:induction false} BackupsAreListed(i: Inputs, zones: seq<ZoneConf>)
    requires FullView(i, zones).Ok?
    ensures FullView(i, zones).value.backups.Keys <= Origins(zones)
  {
    if zones != [] {
      var front := zones[..|zones| - 1];
      BackupsAreListed(i, front);
      assert Origins(zones) == Origins(front) + {zones[|zones| - 1].origin} by {
        assert zones == front + [zones[|zones| - 1]];
      }
    }
  }

  lemma BackupKeys(v: ViewState, i: Inputs, zones: seq<ZoneConf>, contentOf: Fingerprint -> Content, mode: VerifyMode,
                   used: set<object>)
    requires FullView(i, zones).Ok? && Built(v, FullView(i, zones).value, i, contentOf, mode, used)
    ensures v.backups.Keys <= Origins(zones)
  {
    BackupsAreListed(i, zones);
  }

  /**
   Builds the served state, reusing what it can of the previous one. It gives exactly what a full
   rebuild of the same inputs gives, failures included.
   */
  method BuildState(i: Inputs, prev: Option<State>, mode: VerifyMode, ghost contentOf: Fingerprint -> Content,
                    ghost snap: Snapshot, ghost objs: set<object>)
    returns (r: Result<State>, ghost used: set<object>)
    requires Honest(i.disk, contentOf, mode) && Usable(prev, snap, contentOf, mode, objs)
    ensures r.Ok? <==> FullBuild(i, i.views).Ok?
    ensures r.Ok? ==> Serves(r.value, FullBuild(i, i.views).value, contentOf, mode, used)
    ensures r.Ok? && DistinctNames(i.views) ==>
              forall k :: 0 <= k < |i.views| ==>
                var v := i.views[k];
                && v.name in r.value.views && v.name in r.value.origins
                && ServesOrigins(i, v.zones, r.value.views[v.name].roots.Keys, r.value.origins[v.name])
  {
    var views: map<string, ViewState>, origins: map<string, set<Name>> := map[], map[];
    used := {};
    var k := 0;
    assert i.views[..0] == [];
    assert Serves(State(views, origins), FullBuild(i, []).value, contentOf, mode, used);
    hide Built, Usable, Serves, Honest, FullView, FullBuild, WithView, ServedOrigins, Origins;
    while k < |i.views|
      invariant 0 <= k <= |i.views|
      invariant FullBuild(i, i.views[..k]).Ok?
      invariant Serves(State(views, origins), FullBuild(i, i.views[..k]).value, contentOf, mode, used)
    {
      var v := i.views[k];
      ghost var its;
      var built;
      built, its := BuildView(v.zones, i, prev, v.name, mode, contentOf, snap, objs);
      FullBuildStep(i, i.views, k);
      if built.Err? {
        PrefixBuildFails(i, i.views, k + 1);
        return Err, {};
      }
      BackupKeys(built.value, i, v.zones, contentOf, mode, its);
      StateStep(State(views, origins), FullBuild(i, i.views[..k]).value, i, contentOf, mode, used, v, built.value,
                FullView(i, v.zones).value, its);
      var seen := SeenOrigins(i, v.zones, built.value);
      views := views[v.name := built.value];
      origins := origins[v.name := seen];
      used := used + its;
      k := k + 1;
    }
    assert i.views[..k] == i.views;
    r := Ok(State(views, origins));
    ServedAsBuilt(i, r.value, contentOf, mode, used);
  }

  /** The origins of a state that shows a full rebuild. */
  lemma ServedAsBuilt(i: Inputs, s: State, contentOf: Fingerprint -> Content, mode: VerifyMode, objs: set<object>)
    requires FullBuild(i, i.views).Ok? && Serves(s, FullBuild(i, i.views).value, contentOf, mode, objs)
    ensures DistinctNames(i.views) ==>
              forall k :: 0 <= k < |i.views| ==>
                var v := i.views[k];
                && v.name in s.views && v.name in s.origins
                && ServesOrigins(i, v.zones, s.views[v.name].roots.Keys, s.origins[v.name])
  {
    FullBuildExactly(i, i.views);
    hide FullBuild, FullView, ServesOrigins, Faithful;
  }

  /**
   Any history of reloads. A failed reload keeps the state before it. At the end, every state
   ever built still shows what a full rebuild of its own inputs gives.
   */
  method Replay(history: seq<Inputs>, mode: VerifyMode, ghost contentOf: Fingerprint -> Content)
    returns (states: seq<Result<State>>, current: Option<State>, ghost used: seq<set<object>>)
    requires forall k :: 0 <= k < |history| ==> Honest(history[k].disk, contentOf, mode)
    ensures |states| == |used| == |history|
    ensures forall k :: 0 <= k < |history| ==>
              && (states[k].Ok? <==> FullBuild(history[k], history[k].views).Ok?)
              && (states[k].Ok? ==>
                    Serves(states[k].value, FullBuild(history[k], history[k].views).value, contentOf, mode, used[k]))
    ensures current == Latest(states)
  {
    hide Serves, Honest, FullBuild;
    states, current, used := [], None, [];
    ghost var snap, objs := Snapshot(map[], map[]), {};
    for k := 0 to |history|
      invariant |states| == |used| == k
      invariant forall j :: 0 <= j < k ==>
                  && (states[j].Ok? <==> FullBuild(history[j], history[j].views).Ok?)
                  && (states[j].Ok? ==>
                        Serves(states[j].value, FullBuild(history[j], history[j].views).value, contentOf, mode, used[j]))
      invariant Usable(current, snap, contentOf, mode, objs)
      invariant current == Latest(states)
    {
      ghost var its;
      var r;
      r, its := BuildState(history[k], current, mode, contentOf, snap, objs);
      states, used := states + [r], used + [its];
      if r.Ok? {
        current := Some(r.value);
        snap, objs := FullBuild(history[k], history[k].views).value, its;
      }
    }
  }

  /** The last state that was built successfully. */
  function Latest(states: seq<Result<State>>): Option<State> {
    if states == [] then None
    else if states[|states| - 1].Ok? then Some(states[|states| - 1].value)
    else Latest(states[..|states| - 1])
  }
}
