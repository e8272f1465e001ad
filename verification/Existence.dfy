/**
 NXDOMAIN says that a name does not exist, whatever type was asked for
 (section 2.1 of RFC 2308).
 */
module Existence {
  import opened Wrappers
  import opened DnsNames
  import opened Records
  import opened ZoneData
  import opened Resolver
  import opened Handler
  import opened Transparency

  /** Without a name there is nothing to look up, exactly or by wildcard. */
  lemma NoNameNoRecords(z: Zone, q: Name, t: RRType)
    requires WellFormed(z) && !RootHasName(z, q)
    ensures Lookup(z, q, t) == [] && LookupWildcard(z, q, t).0 == []
  {
    WildcardFoundForAllTypes(z, q, t);
  }

  lemma ApexExists(z: Zone)
    requires WellFormed(z) && ApexSOA(z)
    ensures z.origin in z.recs
  {
    LookupOk(z, z.origin, TYPE_SOA);
  }

  /** A root name exists when it owns records or a nearest wildcard covers it. */
  lemma RootNamesAre(z: Zone, q: Name)
    requires WellFormed(z)
    ensures RootHasName(z, q) <==> q in z.recs || (InZone(q, z.origin) && exists k, w :: NearestWildcard(z, q, k, w))
  {
    WildcardFoundForAllTypes(z, q, 0);
  }

  /** A backup name exists when the backup owns it, or its counterpart exists in the root. */
  lemma BackupNamesAre(a: Alias, bz: Option<Zone>, rz: Zone, q: Name)
    requires WellFormed(rz)
    ensures var r := Rewrite(q, a.backup, a.root);
            BackupHasName(a, bz, rz, q) <==>
            || (bz.Some? && q in bz.value.recs)
            || r in rz.recs || (InZone(r, rz.origin) && exists k, w :: NearestWildcard(rz, r, k, w))
  {
    RootNamesAre(rz, Rewrite(q, a.backup, a.root));
  }

  /** Root path: NXDOMAIN exactly for names that do not exist, for every type alike. */
  lemma RootNxdomainIsNonexistence(z: Zone, collapse: bool, q: Name, t: RRType)
    requires WellFormed(z) && ApexSOA(z)
    ensures HandleRoot(z, collapse, q, t, []).rcode == NxDomain <==> !RootHasName(z, q)
  {
    ApexExists(z);
    if !RootHasName(z, q) {
      NoNameNoRecords(z, q, t);
      NoNameNoRecords(z, q, TYPE_CNAME);
    }
  }

  /** Backup path, overrides, withheld types and both collapse modes included. */
  lemma BackupNxdomainIsNonexistence(a: Alias, bz: Option<Zone>, rz: Zone, collapse: bool, q: Name, t: RRType)
    requires WellFormed(rz) && ApexSOA(rz) && rz.origin == a.root
    ensures HandleBackup(a, bz, rz, collapse, q, t, []).rcode == NxDomain <==> !BackupHasName(a, bz, rz, q)
  {
    ApexExists(rz);
    RewriteApex(a.backup, a.root);
    if BackupHasName(a, bz, rz, q) {
      hide ExactStage, LaterStages, Missed, EphemeralTXT, WellFormed, BackupHasName;
    } else {
      assert a.root in rz.recs;
      AbsentIsNxdomain(a, bz, rz, collapse, q, t);
      hide *;
    }
  }

  lemma AbsentIsNxdomain(a: Alias, bz: Option<Zone>, rz: Zone, collapse: bool, q: Name, t: RRType)
    requires WellFormed(rz) && ApexSOA(rz) && !BackupHasName(a, bz, rz, q)
    requires !(t == TYPE_SOA && q == a.backup)
    ensures HandleBackup(a, bz, rz, collapse, q, t, []).rcode == NxDomain
  {
    var r := Rewrite(q, a.backup, a.root);
    NoNameNoRecords(rz, r, t);
    NoNameNoRecords(rz, r, TYPE_CNAME);
    assert bz.Some? ==> Lookup(bz.value, q, t) == [];
    assert Missed(ExactStage(a, bz, rz, collapse, q, t)) by { hide LaterStages, Lookup, LookupWildcard, WellFormed; }
    assert LaterStages(a, rz, collapse, q, t) == MISS by { hide ExactStage, Lookup, WellFormed; }
    hide ExactStage, LaterStages, Lookup, LookupWildcard, WellFormed, BackupHasName;
  }

  /** So one NXDOMAIN at a name rules out a positive answer of any type there. */
  lemma NxdomainIsTypeIndependent(a: Alias, bz: Option<Zone>, rz: Zone, collapse: bool, q: Name, t: RRType,
                                  t': RRType, collapse': bool)
    requires WellFormed(rz) && ApexSOA(rz) && rz.origin == a.root
    requires HandleBackup(a, bz, rz, collapse, q, t, []).rcode == NxDomain
    ensures HandleBackup(a, bz, rz, collapse', q, t', []).rcode == NxDomain
    ensures HandleBackup(a, bz, rz, collapse', q, t', []).answer == []
  {
    BackupNxdomainIsNonexistence(a, bz, rz, collapse, q, t);
    BackupNxdomainIsNonexistence(a, bz, rz, collapse', q, t');
  }

  /** The same on the root path. */
  lemma RootNxdomainIsTypeIndependent(z: Zone, collapse: bool, q: Name, t: RRType, t': RRType, collapse': bool)
    requires WellFormed(z) && ApexSOA(z)
    requires HandleRoot(z, collapse, q, t, []).rcode == NxDomain
    ensures HandleRoot(z, collapse', q, t', []).rcode == NxDomain
    ensures HandleRoot(z, collapse', q, t', []).answer == []
  {
    RootNxdomainIsNonexistence(z, collapse, q, t);
    RootNxdomainIsNonexistence(z, collapse', q, t');
  }
}
