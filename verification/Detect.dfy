/**
 Finding the zone a query belongs to (internal/alias/detect.go): the longest loaded zone that is a
 suffix of the name, and its role in the alias map. Names are folded and free of escapes.
 */
module Detect {
  import opened DnsNames
  import opened NameText

  /** The matched zone, whether it is a backup, and the root zone that answers for it. */
  datatype Match = NoMatch | Match(zone: string, isBackup: bool, root: string)

  function Elems(zones: seq<string>): set<string> {
    set z | z in zones
  }

  /** z is the longest of the zones that holds the name; "" when none does. */
  ghost predicate Longest(qname: string, zones: set<string>, z: string) {
    if z == "" then forall y :: y in zones && y != "" ==> !IsInZoneByteSuffix(qname, y)
    else
      && z in zones && IsInZoneByteSuffix(qname, z)
      && forall y :: y in zones && y != "" && IsInZoneByteSuffix(qname, y) ==> |y| <= |z|
  }

  /** Two zones of equal length that hold the same name are equal. */
  lemma SameLengthSameZone(qname: string, y: string, z: string)
    requires y != "" && z != "" && |y| == |z|
    requires IsInZoneByteSuffix(qname, y) && IsInZoneByteSuffix(qname, z)
    ensures y == z
  {
    assert qname[|qname| - |y|..] == y;
    assert qname[|qname| - |z|..] == z;
  }

  /** So the longest zone is one zone, whatever order the zones are listed in. */
  lemma LongestIsUnique(qname: string, zones: set<string>, y: string, z: string)
    requires Longest(qname, zones, y) && Longest(qname, zones, z)
    ensures y == z
  {
    if y != "" && z != "" {
      SameLengthSameZone(qname, y, z);
    }
  }

  function RoleOf(best: string, aliases: map<string, string>): Match {
    if best == "" then NoMatch
    else if best in aliases then Match(best, true, aliases[best])
    else Match(best, false, best)
  }

  method Detect(qname: string, loadedZones: seq<string>, aliases: map<string, string>) returns (m: Match)
    ensures qname == "" ==> m == NoMatch
    ensures qname != "" ==> exists best :: Longest(qname, Elems(loadedZones), best) && m == RoleOf(best, aliases)
    ensures qname != "" ==> (m == NoMatch <==> forall y :: y in loadedZones && y != "" ==> !IsInZoneByteSuffix(qname, y))
    ensures m.Match? ==>
              && m.zone in loadedZones && IsInZoneByteSuffix(qname, m.zone)
              && (forall y :: y in loadedZones && y != "" && IsInZoneByteSuffix(qname, y) ==> |y| <= |m.zone|)
              && (m.isBackup <==> m.zone in aliases)
              && m.root == if m.zone in aliases then aliases[m.zone] else m.zone
  {
    if qname == "" {
      return NoMatch;
    }
    var best := "";
    for i := 0 to |loadedZones|
      invariant Longest(qname, Elems(loadedZones[..i]), best)
    {
      var z := loadedZones[i];
      assert forall y :: y in loadedZones[..i + 1] <==> y in loadedZones[..i] || y == z;
      if z == "" {
        continue;
      }
      if IsInZoneByteSuffix(qname, z) && |z| > |best| {
        best := z;
      }
    }
    assert loadedZones[..|loadedZones|] == loadedZones;
    if best == "" {
      return NoMatch;
    }
    if best in aliases {
      return Match(best, true, aliases[best]);
    }
    m := Match(best, false, best);
  }

  /**
   In terms of labels: the match is the deepest loaded zone, inside every other one that holds
   the name.
   */
  lemma LongestIsDeepest(q: Name, zones: set<string>, z: Name, y: Name)
    requires PlainName(q) && PlainName(z) && PlainName(y) && q != [] && z != [] && y != []
    requires Longest(Text(q), zones, Text(z)) && Text(y) in zones && InZone(q, y)
    ensures InZone(q, z) && InZone(z, y)
  {
    TextNonEmpty(z);
    TextNonEmpty(y);
    ByteSuffixIsZoneMembership(q, z);
    ByteSuffixIsZoneMembership(q, y);
    if |y| > |z| {
      assert y[|y| - |z|..] == z;
      InsideIsLonger(y, z);
    } else {
      assert z[|z| - |y|..] == y;
    }
  }

  lemma InsideIsLonger(y: Name, z: Name)
    requires PlainName(y) && InZone(y, z) && |y| > |z|
    ensures |Text(y)| > |Text(z)|
  {
    var front := y[..|y| - |z|];
    assert y == front + z;
    TextConcat(front, z);
    TextNonEmpty(front);
  }
}
