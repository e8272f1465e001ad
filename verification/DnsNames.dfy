/**
 Domain names, as the server compares them: case-folded label sequences, leftmost
 label first, with the root label left implicit ("www.root.com." is
 ["www", "root", "com"]). Suffix replacement and zone membership are label-wise here;
 module NameText shows that the byte-level code computes the same thing.
 */
module DnsNames {

  type Label = string
  type Name = seq<Label>

  const WILDCARD: Label := "*"

  /** n equals zone or lies below it. */
  predicate InZone(n: Name, zone: Name) {
    |zone| <= |n| && n[|n| - |zone|..] == zone
  }

  /** Replaces the suffix `from` of n by `to`; a name outside `from` is left alone. */
  function Rewrite(n: Name, from: Name, to: Name): Name {
    if InZone(n, from) then n[..|n| - |from|] + to else n
  }

  lemma RewriteLandsInTarget(n: Name, from: Name, to: Name)
    requires InZone(n, from)
    ensures InZone(Rewrite(n, from, to), to)
    ensures |Rewrite(n, from, to)| - |to| == |n| - |from|
    ensures Rewrite(n, from, to)[..|n| - |from|] == n[..|n| - |from|]
  {
  }

  /** Rewriting there and back is the identity on names inside the zone. */
  lemma RewriteRoundTrip(n: Name, from: Name, to: Name)
    requires InZone(n, from)
    ensures Rewrite(Rewrite(n, from, to), to, from) == n
  {
    var r := Rewrite(n, from, to);
    assert r[|r| - |to|..] == to;
    assert r[..|r| - |to|] == n[..|n| - |from|];
    assert n == n[..|n| - |from|] + from;
  }

  lemma RewriteInjective(a: Name, b: Name, from: Name, to: Name)
    requires InZone(a, from) && InZone(b, from)
    ensures Rewrite(a, from, to) == Rewrite(b, from, to) <==> a == b
  {
    RewriteRoundTrip(a, from, to);
    RewriteRoundTrip(b, from, to);
  }

  lemma RewriteApex(from: Name, to: Name)
    ensures InZone(from, from) && Rewrite(from, from, to) == to
  {
  }

  /** Adding a label in front commutes with rewriting. */
  lemma RewritePrepend(l: Label, n: Name, from: Name, to: Name)
    requires InZone(n, from)
    ensures InZone([l] + n, from)
    ensures Rewrite([l] + n, from, to) == [l] + Rewrite(n, from, to)
  {
    var m := [l] + n;
    assert m[|m| - |from|..] == n[|n| - |from|..];
    assert m[..|m| - |from|] == [l] + n[..|n| - |from|];
    assert ([l] + n[..|n| - |from|]) + to == [l] + (n[..|n| - |from|] + to);
  }

  /** Stripping the leftmost label commutes with rewriting below the apex. */
  lemma RewriteParent(n: Name, from: Name, to: Name)
    requires InZone(n, from) && n != from
    ensures |n| > |from|
    ensures InZone(n[1..], from)
    ensures Rewrite(n, from, to)[1..] == Rewrite(n[1..], from, to)
  {
    assert n[0..] == n;
    assert n == [n[0]] + n[1..];
    assert n[1..][|n| - 1 - |from|..] == n[|n| - |from|..];
    RewritePrepend(n[0], n[1..], from, to);
  }

  lemma ParentInZone(n: Name, zone: Name)
    requires n != []
    ensures InZone(n[1..], zone) <==> InZone(n, zone) && n != zone
    ensures InZone(n, zone) && n != zone ==> |n| > |zone|
  {
    assert n[0..] == n;
    if |zone| < |n| {
      assert n[1..][|n| - 1 - |zone|..] == n[|n| - |zone|..];
    }
  }

  lemma StrictlyBelow(n: Name, zone: Name)
    requires InZone(n, zone) && n != zone
    ensures |n| > |zone|
  {
    assert n[0..] == n;
  }
}
