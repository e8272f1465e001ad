/**
 Resource records and record rewriting (internal/alias/rewrite.go, classify.go, soa.go).
 The class is always IN and is left out. Name-valued RDATA fields are kept apart from the
 rest of the RDATA, which the rewrite never touches.
 */
module Records {
  import opened DnsNames

  /** A type code; only its identity matters here. */
  type RRType = int

  const TYPE_NS: RRType := 2
  const TYPE_CNAME: RRType := 5
  const TYPE_SOA: RRType := 6
  const TYPE_MX: RRType := 15
  const TYPE_TXT: RRType := 16
  const TYPE_SRV: RRType := 33

  /** The types a backup zone may override on its own. */
  predicate Overridable(t: RRType) {
    t == TYPE_TXT || t == TYPE_MX || t == TYPE_SRV
  }

  /** The types whose RDATA names the rewrite handles. */
  const COVERED: set<RRType> := {2, 5, 6, 12, 15, 17, 18, 21, 26, 33, 35, 36, 39, 64, 65}

  datatype RData =
    | Cname(target: Name)
    | Soa(ns: Name, mbox: Name, serial: nat, refresh: nat, retry: nat, expire: nat, minttl: nat)
    | Other(names: seq<Name>, payload: string)

  datatype RR = RR(owner: Name, rtype: RRType, ttl: nat, data: RData)

  /** The names a record's data carries. */
  function NamesIn(d: RData): seq<Name> {
    match d
    case Cname(target) => [target]
    case Soa(ns, mbox, _, _, _, _, _) => [ns, mbox]
    case Other(names, _) => names
  }

  /** The concrete record type goes with the type code in the header. */
  predicate WellTyped(rr: RR) {
    && (rr.data.Cname? <==> rr.rtype == TYPE_CNAME)
    && (rr.data.Soa? <==> rr.rtype == TYPE_SOA)
  }

  /** Owner, type and RDATA equal; the TTL does not count. */
  predicate Duplicate(a: RR, b: RR) {
    a.owner == b.owner && a.rtype == b.rtype && a.data == b.data
  }

  /**
   How a backup sees its root: the two origins, which rule rewrites RDATA names, and the
   record types that carry a domain name although the rewrite does not cover them.
   */
  datatype Alias = Alias(root: Name, backup: Name, anywhere: bool, uncovered: set<RRType>)

  /** The leftmost run of labels equal to root, at label i or later. */
  function LeftmostRun(n: Name, root: Name, i: nat): (r: int)
    requires i <= |n|
    ensures r == -1 || (i <= r <= |n| - |root| && n[r..r + |root|] == root)
    decreases |n| - i
  {
    if i + |root| > |n| then -1
    else if n[i..i + |root|] == root then i
    else if i == |n| then -1
    else LeftmostRun(n, root, i + 1)
  }

  /** The label-anywhere rule: only the leftmost run of root is replaced. */
  function RewriteAnywhere(n: Name, root: Name, backup: Name): Name {
    var p := LeftmostRun(n, root, 0);
    if p == -1 then n else n[..p] + backup + n[p + |root|..]
  }

  /** The rule an alias applies to names in RDATA. */
  function RewriteValue(a: Alias, n: Name): Name {
    if a.anywhere then RewriteAnywhere(n, a.root, a.backup) else Rewrite(n, a.root, a.backup)
  }

  function RewriteValues(a: Alias, ns: seq<Name>): (r: seq<Name>)
    ensures |r| == |ns|
    ensures forall i :: 0 <= i < |ns| ==> r[i] == RewriteValue(a, ns[i])
  {
    seq(|ns|, i requires 0 <= i < |ns| => RewriteValue(a, ns[i]))
  }

  function RewriteRData(a: Alias, rtype: RRType, d: RData): RData {
    match d
    case Cname(target) => Cname(RewriteValue(a, target))
    case Soa(ns, mbox, _, _, _, _, _) => d.(ns := RewriteValue(a, ns), mbox := RewriteValue(a, mbox))
    case Other(names, payload) => if rtype in COVERED then Other(RewriteValues(a, names), payload) else d
  }

  /**
   What the rewrite touches: the target of a CNAME, the two names of an SOA, and the names of the
   other covered types, one by one; numbers, payloads and the data of all other types stay.
   */
  lemma RewriteTouchesNames(a: Alias, t: RRType, d: RData)
    ensures var e := RewriteRData(a, t, d);
            match d
            case Cname(target) => e == Cname(RewriteValue(a, target))
            case Soa(ns, mbox, serial, refresh, retry, expire, minttl) =>
              e == Soa(RewriteValue(a, ns), RewriteValue(a, mbox), serial, refresh, retry, expire, minttl)
            case Other(names, payload) =>
              && e.Other? && e.payload == payload && |e.names| == |names|
              && forall i :: 0 <= i < |names| ==>
                   e.names[i] == if t in {2, 5, 6, 12, 15, 17, 18, 21, 26, 33, 35, 36, 39, 64, 65}
                                 then RewriteValue(a, names[i]) else names[i]
    ensures !a.anywhere ==> forall n: Name, p: Name :: n == p + a.root ==> RewriteValue(a, n) == p + a.backup
    ensures !a.anywhere ==> forall n: Name :: !InZone(n, a.root) ==> RewriteValue(a, n) == n
  {
    forall n: Name, p: Name | n == p + a.root && !a.anywhere ensures RewriteValue(a, n) == p + a.backup {
      assert n[|n| - |a.root|..] == a.root && n[..|n| - |a.root|] == p;
    }
  }

  /** A record keeps its type and TTL; its owner and its data are rewritten. */
  lemma RewriteKeepsHeader(a: Alias, rr: RR)
    ensures var r := RewriteRR(a, rr);
            && r.rtype == rr.rtype && r.ttl == rr.ttl && r.data == RewriteRData(a, rr.rtype, rr.data)
            && (!InZone(rr.owner, a.root) ==> r.owner == rr.owner)
    ensures forall p: Name :: rr.owner == p + a.root ==> RewriteRR(a, rr).owner == p + a.backup
  {
    forall p: Name | rr.owner == p + a.root ensures RewriteRR(a, rr).owner == p + a.backup {
      var n := rr.owner;
      assert n[|n| - |a.root|..] == a.root && n[..|n| - |a.root|] == p;
    }
  }

  /** The owner always follows the suffix rule; the RDATA names follow the alias's rule. */
  function RewriteRR(a: Alias, rr: RR): RR {
    rr.(owner := Rewrite(rr.owner, a.root, a.backup), data := RewriteRData(a, rr.rtype, rr.data))
  }

  function RewriteRRs(a: Alias, rrs: seq<RR>): (r: seq<RR>)
    ensures |r| == |rrs|
    ensures forall i :: 0 <= i < |rrs| ==> r[i] == RewriteRR(a, rrs[i])
  {
    seq(|rrs|, i requires 0 <= i < |rrs| => RewriteRR(a, rrs[i]))
  }

  lemma RewriteRRsConcat(a: Alias, s: seq<RR>, t: seq<RR>)
    ensures RewriteRRs(a, s + t) == RewriteRRs(a, s) + RewriteRRs(a, t)
  {
  }

  /** The SOA a backup answers with: numbers copied, names rewritten by the suffix rule. */
  function BackupSOA(a: Alias, soa: RR): RR
    requires soa.data.Soa?
  {
    soa.(owner := a.backup, rtype := TYPE_SOA,
         data := soa.data.(ns := Rewrite(soa.data.ns, a.root, a.backup),
                           mbox := Rewrite(soa.data.mbox, a.root, a.backup)))
  }

  /** For an SOA at the root apex this is the record rewrite with the suffix rule. */
  lemma BackupSOAIsRewrite(a: Alias, soa: RR)
    requires soa.data.Soa? && WellTyped(soa) && soa.owner == a.root && !a.anywhere
    ensures BackupSOA(a, soa) == RewriteRR(a, soa)
  {
  }

  // ----- fail-closed withholding

  datatype RRClass = Covered | NoName | UncoveredName

  function Classify(a: Alias, rtype: RRType): RRClass {
    if rtype in COVERED then Covered
    else if rtype in a.uncovered then UncoveredName
    else NoName
  }

  predicate Withheld(a: Alias, rr: RR) {
    Classify(a, rr.rtype) == UncoveredName
  }

  function Kept(a: Alias, rrs: seq<RR>): seq<RR> {
    if rrs == [] then []
    else (if Withheld(a, rrs[0]) then [] else [rrs[0]]) + Kept(a, rrs[1..])
  }

  function WithheldOf(a: Alias, rrs: seq<RR>): seq<RR> {
    if rrs == [] then []
    else (if Withheld(a, rrs[0]) then [rrs[0]] else []) + WithheldOf(a, rrs[1..])
  }

  lemma {:induction false} KeptConcat(a: Alias, s: seq<RR>, t: seq<RR>)
    ensures Kept(a, s + t) == Kept(a, s) + Kept(a, t)
    ensures WithheldOf(a, s + t) == WithheldOf(a, s) + WithheldOf(a, t)
  {
    if s == [] {
      assert s + t == t;
    } else {
      assert (s + t)[1..] == s[1..] + t;
      KeptConcat(a, s[1..], t);
    }
  }

  /** Nothing withheld: the records pass unchanged, and conversely. */
  lemma {:induction false} NothingWithheld(a: Alias, rrs: seq<RR>)
    ensures WithheldOf(a, rrs) == [] <==> forall i :: 0 <= i < |rrs| ==> !Withheld(a, rrs[i])
    ensures WithheldOf(a, rrs) == [] ==> Kept(a, rrs) == rrs
  {
    if rrs != [] {
      NothingWithheld(a, rrs[1..]);
      assert forall i :: 1 <= i < |rrs| ==> rrs[i] == rrs[1..][i - 1];
      assert forall i :: 0 <= i < |rrs| - 1 ==> rrs[1..][i] == rrs[i + 1];
    }
  }

  /** Everything withheld: nothing is emitted, and conversely. */
  lemma {:induction false} AllWithheld(a: Alias, rrs: seq<RR>)
    ensures Kept(a, rrs) == [] <==> forall i :: 0 <= i < |rrs| ==> Withheld(a, rrs[i])
  {
    if rrs != [] {
      AllWithheld(a, rrs[1..]);
      assert forall i :: 1 <= i < |rrs| ==> rrs[i] == rrs[1..][i - 1];
      assert forall i :: 0 <= i < |rrs| - 1 ==> rrs[1..][i] == rrs[i + 1];
    }
  }

  lemma {:induction false} KeptMembers(a: Alias, rrs: seq<RR>, rr: RR)
    ensures rr in Kept(a, rrs) <==> rr in rrs && !Withheld(a, rr)
  {
    if rrs != [] {
      assert rrs == [rrs[0]] + rrs[1..];
      KeptMembers(a, rrs[1..], rr);
    }
  }

  lemma KeptPush(a: Alias, rrs: seq<RR>, i: nat)
    requires i < |rrs|
    ensures Kept(a, rrs[..i + 1]) == Kept(a, rrs[..i]) + (if Withheld(a, rrs[i]) then [] else [rrs[i]])
    ensures WithheldOf(a, rrs[..i + 1]) == WithheldOf(a, rrs[..i]) + (if Withheld(a, rrs[i]) then [rrs[i]] else [])
  {
    assert rrs[..i + 1] == rrs[..i] + [rrs[i]];
    KeptConcat(a, rrs[..i], [rrs[i]]);
    assert [rrs[i]][1..] == [];
  }

  /** Splits records into those to emit and those to withhold, keeping the order. */
  method FilterBackupRRs(a: Alias, rrs: seq<RR>) returns (kept: seq<RR>, withheld: seq<RR>)
    ensures kept == Kept(a, rrs)
    ensures withheld == WithheldOf(a, rrs)
  {
    assert Kept(a, []) == [] && WithheldOf(a, []) == [];
    hide *;
    for i := 0 to |rrs|
      invariant Kept(a, rrs[..i]) == rrs[..i]
      invariant WithheldOf(a, rrs[..i]) == []
    {
      assert rrs[..i + 1] == rrs[..i] + [rrs[i]];
      KeptPush(a, rrs, i);
      if !Withheld(a, rrs[i]) {
        continue;
      }
      kept := rrs[..i];
      withheld := [rrs[i]];
      for j := i + 1 to |rrs|
        invariant kept == Kept(a, rrs[..j])
        invariant withheld == WithheldOf(a, rrs[..j])
      {
        KeptPush(a, rrs, j);
        if Withheld(a, rrs[j]) {
          withheld := withheld + [rrs[j]];
        } else {
          kept := kept + [rrs[j]];
        }
      }
      assert rrs[..|rrs|] == rrs;
      return;
    }
    assert rrs[..|rrs|] == rrs;
    return rrs, [];
  }
}
