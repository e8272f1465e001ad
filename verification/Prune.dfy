/**
 The offline pruner (internal/prunebackup/diff.go, prunebackup.go): deletes from a backup
 zone file what the server would ignore, and the overrides that only repeat the root zone.
 RDATA is compared as it stands in the two files, while the server rewrites the root's RDATA
 before answering; pruning is invisible exactly where that rewrite changes nothing.
 */
module Prune {
  import opened Wrappers
  import opened DnsNames
  import opened NameText
  import opened Records
  import opened Sorting

  /** A record and the lines of the file it was read from. */
  datatype Sourced = Sourced(rr: RR, file: string, startLine: nat, endLine: nat)

  type RRsetKey = (Name, RRType)

  function KeyOf(rr: RR): RRsetKey {
    (rr.owner, rr.rtype)
  }

  /** The items with a given key, in order. */
  function Keyed<T>(s: seq<T>, key: T -> RRsetKey, k: RRsetKey): seq<T> {
    if s == [] then []
    else (if key(s[0]) == k then [s[0]] else []) + Keyed(s[1..], key, k)
  }

  lemma KeyedOne<T>(x: T, key: T -> RRsetKey, k: RRsetKey)
    ensures Keyed([x], key, k) == if key(x) == k then [x] else []
  {
    assert [x][1..] == [] && Keyed([], key, k) == [];
  }

  /** The records of one RRset, in file order. */
  function Select(rrs: seq<RR>, k: RRsetKey): seq<RR> {
    Keyed(rrs, KeyOf, k)
  }

  function RRsOf(s: seq<Sourced>): (r: seq<RR>)
    ensures |r| == |s|
    ensures forall i :: 0 <= i < |s| ==> r[i] == s[i].rr
  {
    seq(|s|, i requires 0 <= i < |s| => s[i].rr)
  }

  // ----- the decision

  datatype Decision = Retain | Delete

  function ClassifyWithoutRoot(k: RRsetKey, origin: Name): Decision {
    if k.1 == TYPE_SOA then Retain
    else if k.1 == TYPE_NS && k.0 == origin then Retain
    else if !Overridable(k.1) then Delete
    else Retain
  }

  function RDataOf(rrs: seq<RR>): (r: seq<RData>)
    ensures |r| == |rrs|
    ensures forall i :: 0 <= i < |rrs| ==> r[i] == rrs[i].data
  {
    seq(|rrs|, i requires 0 <= i < |rrs| => rrs[i].data)
  }

  /** Equal as bags of RDATA; owner, order and TTL do not count. */
  predicate RRsetEqual(a: seq<RR>, b: seq<RR>) {
    multiset(RDataOf(a)) == multiset(RDataOf(b))
  }

  function ClassifyAgainstRoot(backup: seq<RR>, root: seq<RR>, k: RRsetKey, origin: Name): Decision {
    if ClassifyWithoutRoot(k, origin) == Delete then Delete
    else if Overridable(k.1) && RRsetEqual(backup, root) then Delete
    else Retain
  }

  /** The decision for one RRset of the backup, with the records it holds. */
  function DecideGroup(a: Alias, rrs: seq<RR>, root: Option<seq<RR>>, k: RRsetKey): Decision {
    if root.None? then ClassifyWithoutRoot(k, a.backup)
    else ClassifyAgainstRoot(rrs, Select(root.value, (Rewrite(k.0, a.backup, a.root), k.1)), k, a.backup)
  }

  function Decide(a: Alias, backup: seq<RR>, root: Option<seq<RR>>, k: RRsetKey): Decision {
    DecideGroup(a, Select(backup, k), root, k)
  }

  /** The backup file without the RRsets decided for deletion. */
  function Pruned(a: Alias, backup: seq<RR>, root: Option<seq<RR>>, rest: seq<RR>): seq<RR> {
    if rest == [] then []
    else (if Decide(a, backup, root, KeyOf(rest[0])) == Delete then [] else [rest[0]])
         + Pruned(a, backup, root, rest[1..])
  }

  // ----- the decision in terms of the files

  /** How often a file has a record of this owner and type with this data. */
  function Copies(file: seq<RR>, o: Name, t: RRType, d: RData): nat {
    if file == [] then 0
    else (if file[0].owner == o && file[0].rtype == t && file[0].data == d then 1 else 0) + Copies(file[1..], o, t, d)
  }

  lemma SelectCons(x: RR, rest: seq<RR>, k: RRsetKey)
    ensures Select([x] + rest, k) == (if KeyOf(x) == k then [x] else []) + Select(rest, k)
  {
    assert ([x] + rest)[1..] == rest;
  }

  lemma RDataOfConcat(x: seq<RR>, y: seq<RR>)
    ensures RDataOf(x + y) == RDataOf(x) + RDataOf(y)
  {
  }

  lemma {:induction false} CopiesAreSelected(file: seq<RR>, k: RRsetKey, d: RData)
    ensures Copies(file, k.0, k.1, d) == multiset(RDataOf(Select(file, k)))[d]
  {
    if file == [] {
      assert RDataOf([]) == [];
    } else {
      CopiesAreSelected(file[1..], k, d);
      SelectCons(file[0], file[1..], k);
      assert [file[0]] + file[1..] == file && RDataOf([file[0]]) == [file[0].data];
      RDataOfConcat(if KeyOf(file[0]) == k then [file[0]] else [], Select(file[1..], k));
      assert RDataOf([]) == [];
      hide Select, RDataOf;
    }
  }

  lemma SameBags(x: seq<RR>, y: seq<RR>)
    ensures RRsetEqual(x, y) <==> forall d :: multiset(RDataOf(x))[d] == multiset(RDataOf(y))[d]
  {
    if forall d :: multiset(RDataOf(x))[d] == multiset(RDataOf(y))[d] {
      assert multiset(RDataOf(x)) == multiset(RDataOf(y));
    }
  }

  /** Every record of the RRset is in the root file as often, under the root's name, and the other way round. */
  ghost predicate Repeated(a: Alias, backup: seq<RR>, root: seq<RR>, o: Name, t: RRType) {
    forall d :: Copies(backup, o, t, d) == Copies(root, Rewrite(o, a.backup, a.root), t, d)
  }

  /**
   What the pruner keeps: the SOA, the NS records of the apex, and the MX, TXT and SRV records that
   do not just repeat the root file's; without a root file, all of these.
   */
  ghost predicate Stays(a: Alias, backup: seq<RR>, root: Option<seq<RR>>, o: Name, t: RRType) {
    || t == 6
    || (t == 2 && o == a.backup)
    || ((t == 15 || t == 16 || t == 33) && (root.None? || !Repeated(a, backup, root.value, o, t)))
  }

  lemma DecidedByStays(a: Alias, backup: seq<RR>, root: Option<seq<RR>>, k: RRsetKey)
    ensures Decide(a, backup, root, k) == Retain <==> Stays(a, backup, root, k.0, k.1)
  {
    if root.Some? {
      var r := (Rewrite(k.0, a.backup, a.root), k.1);
      var x, y := Select(backup, k), Select(root.value, r);
      SameBags(x, y);
      forall d ensures Copies(backup, k.0, k.1, d) == multiset(RDataOf(x))[d] && Copies(root.value, r.0, r.1, d) == multiset(RDataOf(y))[d] {
        CopiesAreSelected(backup, k, d);
        CopiesAreSelected(root.value, r, d);
      }
      hide Select, RDataOf, Copies, RRsetEqual;
    }
  }

  // ----- planning

  predicate KeyLeq(k: RRsetKey, l: RRsetKey) {
    if Text(k.0) != Text(l.0) then TextLeq(Text(k.0), Text(l.0)) else k.1 <= l.1
  }

  lemma KeyOrderTotal()
    ensures TotalPreorder(KeyLeq)
  {
    forall k, l ensures KeyLeq(k, l) || KeyLeq(l, k) {
      TextLeqTotal(Text(k.0), Text(l.0));
    }
    forall k, l, m | KeyLeq(k, l) && KeyLeq(l, m) ensures KeyLeq(k, m) {
      TextLeqTotal(Text(k.0), Text(l.0));
      TextLeqTotal(Text(l.0), Text(m.0));
      TextLeqTotal(Text(k.0), Text(m.0));
      if TextLeq(Text(k.0), Text(l.0)) && TextLeq(Text(l.0), Text(m.0)) {
        TextLeqTransitive(Text(k.0), Text(l.0), Text(m.0));
      }
    }
  }

  ghost predicate Grouped(groups: map<RRsetKey, seq<Sourced>>, backup: seq<Sourced>) {
    forall k :: if k in groups then groups[k] == Group(backup, k) else Group(backup, k) == []
  }

  method GroupByRRset(backup: seq<Sourced>) returns (groups: map<RRsetKey, seq<Sourced>>)
    ensures Grouped(groups, backup)
  {
    groups := map[];
    for i := 0 to |backup|
      invariant Grouped(groups, backup[..i])
    {
      var k := KeyOf(backup[i].rr);
      assert backup[..i + 1] == backup[..i] + [backup[i]];
      forall l ensures Group(backup[..i + 1], l) == Group(backup[..i], l) + (if l == k then [backup[i]] else []) {
        GroupConcat(backup[..i], [backup[i]], l);
        KeyedOne(backup[i], SourcedKey, l);
      }
      groups := groups[k := (if k in groups then groups[k] else []) + [backup[i]]];
    }
    assert backup[..|backup|] == backup;
  }

  /** x is planned for deletion, its RRset being among `keys`. */
  ghost predicate Doomed(a: Alias, backup: seq<Sourced>, root: Option<seq<RR>>, keys: seq<RRsetKey>, x: Sourced) {
    x in backup && KeyOf(x.rr) in keys && Decide(a, RRsOf(backup), root, KeyOf(x.rr)) == Delete
  }

  /** The lines to delete: a record is planned for deletion exactly when its RRset is. */
  method PlanPair(a: Alias, backup: seq<Sourced>, root: Option<seq<RR>>) returns (deletions: seq<Sourced>)
    ensures forall x :: x in deletions <==> x in backup && Decide(a, RRsOf(backup), root, KeyOf(x.rr)) == Delete
    ensures forall x :: x in deletions <==> x in backup && !Stays(a, RRsOf(backup), root, x.rr.owner, x.rr.rtype)
  {
    var groups := GroupByRRset(backup);
    assert forall k :: k in groups ==> groups[k] == Group(backup, k);
    KeyOrderTotal();
    var keys := SortSet(groups.Keys, KeyLeq);
    deletions := [];
    for i := 0 to |keys|
      invariant forall x :: x in deletions <==> Doomed(a, backup, root, keys[..i], x)
    {
      var k := keys[i];
      assert k in keys;
      OneMoreKey(a, backup, root, keys, i);
      hide Group, Grouped, Decide, DecideGroup, KeyOf, Doomed, SortedListing;
      var srrs := groups[k];
      var d := DecideGroup(a, RRsOf(srrs), root, k);
      if d == Delete {
        deletions := deletions + srrs;
      }
    }
    assert keys[..|keys|] == keys;
    forall x | x in backup
      ensures KeyOf(x.rr) in keys
      ensures Decide(a, RRsOf(backup), root, KeyOf(x.rr)) == Retain <==> Stays(a, RRsOf(backup), root, x.rr.owner, x.rr.rtype)
    {
      GroupMembers(backup, KeyOf(x.rr));
      DecidedByStays(a, RRsOf(backup), root, KeyOf(x.rr));
    }
    hide Stays;
  }

  lemma OneMoreKey(a: Alias, backup: seq<Sourced>, root: Option<seq<RR>>, keys: seq<RRsetKey>, i: nat)
    requires i < |keys|
    ensures forall x :: Doomed(a, backup, root, keys[..i + 1], x) <==>
              Doomed(a, backup, root, keys[..i], x) ||
              (x in Group(backup, keys[i]) && DecideGroup(a, RRsOf(Group(backup, keys[i])), root, keys[i]) == Delete)
  {
    GroupMembers(backup, keys[i]);
    GroupRRs(backup, keys[i]);
    assert keys[..i + 1] == keys[..i] + [keys[i]];
  }

  function SourcedKey(x: Sourced): RRsetKey {
    KeyOf(x.rr)
  }

  /** The same with their lines. */
  function Group(s: seq<Sourced>, k: RRsetKey): seq<Sourced> {
    Keyed(s, SourcedKey, k)
  }

  lemma {:induction false} GroupConcat(s: seq<Sourced>, t: seq<Sourced>, k: RRsetKey)
    ensures Group(s + t, k) == Group(s, k) + Group(t, k)
  {
    if s == [] {
      assert s + t == t;
    } else {
      assert (s + t)[1..] == s[1..] + t;
      GroupConcat(s[1..], t, k);
    }
  }

  lemma {:induction false} GroupMembers(s: seq<Sourced>, k: RRsetKey)
    ensures forall x :: x in Group(s, k) <==> x in s && KeyOf(x.rr) == k
  {
    if s != [] {
      GroupMembers(s[1..], k);
      assert s == [s[0]] + s[1..];
    }
  }

  lemma {:induction false} GroupRRs(s: seq<Sourced>, k: RRsetKey)
    ensures RRsOf(Group(s, k)) == Select(RRsOf(s), k)
  {
    if s != [] {
      GroupRRs(s[1..], k);
      assert RRsOf(s)[1..] == RRsOf(s[1..]);
      var head := if KeyOf(s[0].rr) == k then [s[0]] else [];
      assert RRsOf(head + Group(s[1..], k)) == RRsOf(head) + RRsOf(Group(s[1..], k));
    }
  }
}
