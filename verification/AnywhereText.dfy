/**
 The label-anywhere rewrite on text (internal/alias/rewrite.go) and on labels: on folded,
 backslash-free names the byte scan replaces exactly the leftmost run of root labels.
 */
module AnywhereText {
  import opened DnsNames
  import opened NameText
  import opened Records

  /** Where label i starts in the text of n. */
  function Offset(n: Name, i: nat): nat
    requires i <= |n|
  {
    |Text(n[..i])|
  }

  lemma TextSplit(n: Name, i: nat)
    requires i <= |n|
    ensures Text(n) == Text(n[..i]) + Text(n[i..])
    ensures Offset(n, i) <= |Text(n)| && Text(n)[..Offset(n, i)] == Text(n[..i]) && Text(n)[Offset(n, i)..] == Text(n[i..])
  {
    assert n[..i] + n[i..] == n;
    TextConcat(n[..i], n[i..]);
  }

  lemma OffsetsGrow(n: Name, i: nat, j: nat)
    requires PlainName(n) && i < j <= |n|
    ensures Offset(n, i) < Offset(n, j)
  {
    var part := n[i..j];
    assert n[..j] == n[..i] + part;
    TextConcat(n[..i], part);
    TextNonEmpty(part);
  }

  /** Labels hold no dots, so a position behind a dot is where a label starts. */
  lemma {:induction false} BehindDot(n: Name, p: nat) returns (i: nat)
    requires PlainName(n) && 1 <= p <= |Text(n)| && Text(n)[p - 1] == '.'
    ensures 1 <= i <= |n| && p == Offset(n, i)
  {
    var l, rest := n[0], Text(n[1..]);
    assert Text(n) == l + "." + rest;
    assert n[..1] == [l] && [l][1..] == [];
    assert Text([l]) == l + "." + Text([]);
    assert Offset(n, 1) == |l| + 1;
    assert forall k :: 0 <= k < |l| ==> Text(n)[k] == l[k];
    if p == |l| + 1 {
      i := 1;
    } else {
      assert Text(n)[p - 1] == rest[p - 1 - |l| - 1];
      var j := BehindDot(n[1..], p - |l| - 1);
      i := j + 1;
      assert n[..i] == [l] + n[1..][..j];
      TextConcat([l], n[1..][..j]);
    }
  }

  lemma TextCons(n: Name)
    requires n != []
    ensures Text(n) == n[0] + "." + Text(n[1..])
  {
  }

  /** A text prefix is a label prefix. */
  lemma {:induction false} PrefixLabels(m: Name, root: Name)
    requires PlainName(m) && PlainName(root) && Text(root) <= Text(m)
    ensures root <= m
  {
    if root != [] {
      TextNonEmpty(root);
      assert m != [];
      TextCons(root);
      TextCons(m);
      hide Text;
      var x := Text(m)[|Text(root)|..];
      assert Text(m) == Text(root) + x;
      assert root[0] + "." + (Text(root[1..]) + x) == m[0] + "." + Text(m[1..]);
      FirstLabel(root[0], Text(root[1..]) + x, m[0], Text(m[1..]));
      PrefixLabels(m[1..], root[1..]);
      assert m == [m[0]] + m[1..] && root == [root[0]] + root[1..];
    }
  }

  /** root's labels stand at index i. */
  predicate RunAt(n: Name, root: Name, i: nat) {
    i + |root| <= |n| && n[i..i + |root|] == root
  }

  lemma RunIsBoundary(n: Name, root: Name, i: nat)
    requires PlainName(n) && RunAt(n, root, i)
    ensures BoundaryAt(Text(n), Text(root), Offset(n, i))
    ensures Text(n)[Offset(n, i) + |Text(root)|..] == Text(n[i + |root|..])
  {
    var tail := n[i + |root|..];
    TextSplit(n, i);
    assert n[i..] == root + tail;
    TextConcat(root, tail);
    if i > 0 {
      TextNonEmpty(n[..i]);
    }
  }

  lemma BoundaryIsRun(n: Name, root: Name, p: int) returns (i: nat)
    requires PlainName(n) && PlainName(root) && BoundaryAt(Text(n), Text(root), p)
    ensures i <= |n| && p == Offset(n, i) && RunAt(n, root, i)
  {
    if p == 0 {
      i := 0;
      assert n[..0] == [];
    } else {
      i := BehindDot(n, p);
    }
    TextSplit(n, i);
    var tail := Text(n[i..]);
    assert tail == Text(n)[p..];
    assert tail[..|Text(root)|] == Text(n)[p..p + |Text(root)|];
    PrefixLabels(n[i..], root);
    assert n[i..][..|root|] == n[i..i + |root|];
  }

  lemma {:induction false} LeftmostRunIsLeftmost(n: Name, root: Name, i: nat)
    requires i <= |n|
    ensures var r := LeftmostRun(n, root, i);
            forall j :: i <= j && (r == -1 || j < r) ==> !RunAt(n, root, j)
    decreases |n| - i
  {
    if i + |root| <= |n| && n[i..i + |root|] != root && i < |n| {
      LeftmostRunIsLeftmost(n, root, i + 1);
    }
  }

  /** The text position of the leftmost run is the leftmost boundary. */
  lemma LeftmostMoves(n: Name, root: Name)
    requires PlainName(n) && PlainName(root) && root != []
    ensures var i := LeftmostRun(n, root, 0);
            && (i == -1 ==> forall p :: !BoundaryAt(Text(n), Text(root), p))
            && (i != -1 ==> LeftmostBoundary(Text(n), Text(root), Offset(n, i)))
  {
    var i := LeftmostRun(n, root, 0);
    LeftmostRunIsLeftmost(n, root, 0);
    if i != -1 {
      RunIsBoundary(n, root, i);
    }
    forall p | BoundaryAt(Text(n), Text(root), p) ensures i != -1 && Offset(n, i) <= p {
      NoEarlierBoundary(n, root, p);
    }
    hide BoundaryAt, Text, Offset, LeftmostRun, RunAt;
  }

  /** A boundary is a run, so it does not come before the leftmost one. */
  lemma NoEarlierBoundary(n: Name, root: Name, p: int)
    requires PlainName(n) && PlainName(root) && BoundaryAt(Text(n), Text(root), p)
    ensures var i := LeftmostRun(n, root, 0); i != -1 && Offset(n, i) <= p
  {
    var i := LeftmostRun(n, root, 0);
    LeftmostRunIsLeftmost(n, root, 0);
    var j := BoundaryIsRun(n, root, p);
    if i != -1 && i < j {
      OffsetsGrow(n, i, j);
    }
    hide BoundaryAt, Text, Offset, LeftmostRun, RunAt;
  }

  /** The label-wise rewrite as a splice of the text. */
  lemma RewriteIsSplice(n: Name, root: Name, backup: Name)
    requires PlainName(n)
    ensures var i := LeftmostRun(n, root, 0);
            && (i == -1 ==> Text(RewriteAnywhere(n, root, backup)) == Text(n))
            && (i != -1 ==>
                  && Offset(n, i) + |Text(root)| <= |Text(n)|
                  && Text(RewriteAnywhere(n, root, backup)) == Splice(Text(n), Offset(n, i), Text(root), Text(backup)))
  {
    var i := LeftmostRun(n, root, 0);
    assert RewriteAnywhere(n, root, backup) == if i == -1 then n else n[..i] + backup + n[i + |root|..];
    if i != -1 {
      RunIsBoundary(n, root, i);
      SpliceLabels(n, root, backup, i);
    }
    hide Text, Offset, LeftmostRun, RewriteAnywhere, Splice;
  }

  lemma SpliceLabels(n: Name, root: Name, backup: Name, i: nat)
    requires i + |root| <= |n| && Offset(n, i) + |Text(root)| <= |Text(n)|
    requires Text(n)[Offset(n, i) + |Text(root)|..] == Text(n[i + |root|..])
    ensures Text(n[..i] + backup + n[i + |root|..]) == Splice(Text(n), Offset(n, i), Text(root), Text(backup))
  {
    TextSplit(n, i);
    TextConcat(n[..i] + backup, n[i + |root|..]);
    TextConcat(n[..i], backup);
    hide Text, Offset;
  }

  lemma SplicedText(n: Name, root: Name, backup: Name, r: string)
    requires PlainName(n) && PlainName(root) && root != [] && Folded(Text(n))
    requires AnywhereRewritten(Text(n), Text(root), Text(backup), r)
    ensures r == Text(RewriteAnywhere(n, root, backup))
  {
    TextNonEmpty(root);
    LeftmostMoves(n, root);
    RewriteIsSplice(n, root, backup);
    assert ToLower(Text(n)) == Text(n);
    var i := LeftmostRun(n, root, 0);
    hide LeftmostRun, Text, Offset, BoundaryAt, LeftmostBoundary, ToLower, RewriteAnywhere, Splice;
    if i != -1 {
      assert LeftmostBoundary(ToLower(Text(n)), Text(root), Offset(n, i));
    }
  }

  /** On printed, folded names the label-anywhere method computes the label-wise rewrite. */
  method RewriteAnywhereText(n: Name, root: Name, backup: Name) returns (r: string)
    requires PlainName(n) && PlainName(root) && root != [] && Folded(Text(n))
    ensures r == Text(RewriteAnywhere(n, root, backup))
  {
    hide *;
    r := RewriteNameAnywhere(Text(n), Text(root), Text(backup));
    SplicedText(n, root, backup, r);
  }
}
