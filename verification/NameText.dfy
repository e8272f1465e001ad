/**
 The byte-level name operations (backslash-free names) and their agreement with the
 label-wise ones of module DnsNames. Characters stand for bytes; letter case is the
 ASCII one.
 */
module NameText {
  import opened DnsNames

  /** A label that needs no RFC 1035 escaping: non-empty, no dot, no backslash. */
  predicate PlainLabel(l: Label) {
    |l| > 0 && '.' !in l && '\\' !in l
  }

  predicate PlainName(n: Name) {
    forall i :: 0 <= i < |n| ==> PlainLabel(n[i])
  }

  /** Presentation form with the trailing dot; the empty name prints as "". */
  function Text(n: Name): string {
    if n == [] then "" else n[0] + "." + Text(n[1..])
  }

  function LowerChar(c: char): char {
    if 'A' <= c <= 'Z' then c - 'A' + 'a' else c
  }

  function ToLower(s: string): (r: string)
    ensures |r| == |s|
    ensures forall i :: 0 <= i < |s| ==> r[i] == LowerChar(s[i])
  {
    seq(|s|, i requires 0 <= i < |s| => LowerChar(s[i]))
  }

  /** The same byte, or the two cases of one ASCII letter. */
  predicate SameLetter(c: char, d: char) {
    c == d || ('A' <= c <= 'Z' && d as int == c as int + 32) || ('A' <= d <= 'Z' && c as int == d as int + 32)
  }

  /** Lower-casing identifies texts that differ in the case of ASCII letters only, and leaves no capital. */
  lemma LowerCaseIdentifies(s: string, t: string)
    ensures ToLower(s) == ToLower(t) <==> |s| == |t| && forall i :: 0 <= i < |s| ==> SameLetter(s[i], t[i])
    ensures forall i :: 0 <= i < |s| ==> SameLetter(ToLower(s)[i], s[i]) && !('A' <= ToLower(s)[i] <= 'Z')
  {
    if ToLower(s) == ToLower(t) {
      forall i | 0 <= i < |s| ensures SameLetter(s[i], t[i]) {
        assert ToLower(s)[i] == ToLower(t)[i];
      }
    }
  }

  predicate HasSuffix(s: string, suffix: string) {
    |suffix| <= |s| && s[|s| - |suffix|..] == suffix
  }

  // ----- the operations, as the code writes them

  predicate IsInZoneByteSuffix(name: string, zone: string) {
    name == zone ||
    (var offset := |name| - |zone|;
     offset > 0 && name[offset - 1] == '.' && name[offset..] == zone)
  }

  function RewriteQName(qname: string, backup: string, root: string): string {
    if qname == backup then root
    else
      var suffix := "." + backup;
      if HasSuffix(qname, suffix) then qname[..|qname| - |suffix|] + "." + root
      else qname
  }

  function RewriteName(n: string, root: string, backup: string): string {
    if n == "" then n
    else
      var lower := ToLower(n);
      if lower == root then backup
      else if IsInZoneByteSuffix(lower, root) then n[..|n| - |root| - 1] + "." + backup
      else n
  }

  // ----- text and labels determine each other

  lemma TextNonEmpty(n: Name)
    requires n != []
    ensures |Text(n)| >= 1 && Text(n)[|Text(n)| - 1] == '.'
  {
    if |n| > 1 {
      TextNonEmpty(n[1..]);
    }
  }

  /** The first dot of a printed plain name ends its first label. */
  lemma FirstLabel(l: Label, rest: string, m: Label, rest': string)
    requires '.' !in l && '.' !in m
    requires l + "." + rest == m + "." + rest'
    ensures l == m && rest == rest'
  {
    var s := l + "." + rest;
    assert s[|l|] == '.' && s[|m|] == '.';
    assert (forall i :: 0 <= i < |l| ==> s[i] == l[i]) && (forall i :: 0 <= i < |m| ==> s[i] == m[i]);
    assert s[..|l|] == l && s[..|m|] == m;
    assert s[|l| + 1..] == rest && s[|m| + 1..] == rest';
  }

  lemma {:induction false} TextInjective(a: Name, b: Name)
    requires PlainName(a) && PlainName(b)
    ensures Text(a) == Text(b) <==> a == b
  {
    if a == [] || b == [] {
      if a != [] { TextNonEmpty(a); }
      if b != [] { TextNonEmpty(b); }
    } else if Text(a) == Text(b) {
      FirstLabel(a[0], Text(a[1..]), b[0], Text(b[1..]));
      TextInjective(a[1..], b[1..]);
      assert a == [a[0]] + a[1..] && b == [b[0]] + b[1..];
    }
  }

  lemma {:induction false} TextConcat(a: Name, b: Name)
    ensures Text(a + b) == Text(a) + Text(b)
  {
    if a == [] {
      assert a + b == b;
    } else {
      assert (a + b)[1..] == a[1..] + b;
      TextConcat(a[1..], b);
    }
  }

  // ----- lookup keys

  function TrimDot(s: string): string {
    if HasSuffix(s, ".") then s[..|s| - 1] else s
  }

  predicate NeedsNoFolding(s: string) {
    forall i :: 0 <= i < |s| ==> !('A' <= s[i] <= 'Z') && s[i] < 0x80 as char
  }

  predicate IsLookupKey(s: string) {
    HasSuffix(s, ".") && NeedsNoFolding(s[..|s| - 1])
  }

  /** The scan behind the fast path. */
  method IsAlreadyLookupKey(s: string) returns (b: bool)
    ensures b == IsLookupKey(s)
  {
    var n := |s|;
    if n == 0 || s[n - 1] != '.' {
      return false;
    }
    for i := 0 to n - 1
      invariant NeedsNoFolding(s[..i])
    {
      var c := s[i];
      if ('A' <= c <= 'Z') || c >= 0x80 as char {
        assert s[..n - 1][i] == c;
        return false;
      }
    }
    b := true;
  }

  /** The key a name is stored and looked up under. */
  function LookupKey(name: string): string {
    if name == "" then "" else if IsLookupKey(name) then name else ToLower(TrimDot(name)) + "."
  }

  function Fold(n: Name): (r: Name)
    ensures |r| == |n|
  {
    seq(|n|, i requires 0 <= i < |n| => ToLower(n[i]))
  }

  /** The fast path returns what folding would. */
  lemma FastPathIsFolding(s: string)
    ensures LookupKey(s) == if s == "" then "" else ToLower(TrimDot(s)) + "."
  {
    if IsLookupKey(s) {
      assert ToLower(TrimDot(s)) == s[..|s| - 1];
      assert s == s[..|s| - 1] + ".";
    }
  }

  lemma {:induction false} FoldedText(n: Name)
    ensures ToLower(Text(n)) == Text(Fold(n))
    ensures PlainName(n) ==> PlainName(Fold(n))
  {
    if n != [] {
      FoldedText(n[1..]);
      assert Fold(n)[1..] == Fold(n[1..]);
      ToLowerConcat(n[0] + ".", Text(n[1..]));
      ToLowerConcat(n[0], ".");
      LowerDot();
    }
    forall i | 0 <= i < |n| && PlainLabel(n[i]) ensures PlainLabel(Fold(n)[i]) {
      FoldedLabel(n[i]);
    }
  }

  lemma FoldedLabel(l: Label)
    requires PlainLabel(l)
    ensures PlainLabel(ToLower(l))
  {
    forall i | 0 <= i < |l| ensures ToLower(l)[i] != '.' && ToLower(l)[i] != '\\' {
      assert l[i] in l;
    }
  }

  lemma DotLast(open: string)
    ensures HasSuffix(open + ".", ".") && TrimDot(open + ".") == open && ToLower(open + ".") == ToLower(open) + "."
  {
    assert (open + ".")[|open|..] == "." && (open + ".")[..|open|] == open;
    ToLowerConcat(open, ".");
    LowerDot();
  }

  /** The final dot makes no difference to a key. */
  lemma KeyIsFolded(open: string)
    ensures LookupKey(open + ".") == ToLower(open + ".")
    ensures open != "" && !HasSuffix(open, ".") ==> LookupKey(open) == ToLower(open + ".")
  {
    DotLast(open);
    FastPathIsFolding(open + ".");
    FastPathIsFolding(open);
    assert !HasSuffix(open, ".") ==> TrimDot(open) == open;
    hide *;
  }

  /** A name's key is its folded text, whether or not it is written with the final dot. */
  lemma LookupKeyOfText(n: Name)
    requires n != []
    ensures LookupKey(Text(n)) == Text(Fold(n))
    ensures var open := Text(n)[..|Text(n)| - 1]; open != "" && !HasSuffix(open, ".") ==> LookupKey(open) == Text(Fold(n))
  {
    TextNonEmpty(n);
    FoldedText(n);
    var open := Text(n)[..|Text(n)| - 1];
    assert Text(n) == open + ".";
    KeyIsFolded(open);
    hide *;
  }

  /** So two names share a key exactly when their labels fold to the same. */
  lemma LookupKeyIdentifies(a: Name, b: Name)
    requires PlainName(a) && PlainName(b) && a != [] && b != []
    ensures LookupKey(Text(a)) == LookupKey(Text(b)) <==> Fold(a) == Fold(b)
  {
    LookupKeyOfText(a);
    LookupKeyOfText(b);
    FoldedText(a);
    FoldedText(b);
    TextInjective(Fold(a), Fold(b));
  }

  // ----- zone membership

  lemma {:induction false} ByteSuffixIsZoneMembership(n: Name, zone: Name)
    requires PlainName(n) && PlainName(zone) && zone != []
    ensures IsInZoneByteSuffix(Text(n), Text(zone)) <==> InZone(n, zone)
  {
    TextNonEmpty(zone);
    if n == [] {
    } else {
      var s, z, rest := Text(n), Text(zone), Text(n[1..]);
      assert s == n[0] + "." + rest;
      if |z| <= |rest| {
        ByteSuffixIsZoneMembership(n[1..], zone);
        ShorterSuffix(n[0], rest, z);
        assert n[0..] == n;
        if |zone| < |n| {
          assert n[|n| - |zone|..] == n[1..][|n| - 1 - |zone|..];
        }
      } else {
        TextInjective(n, zone);
        if InZone(n, zone) && |zone| < |n| {
          var k := |n| - |zone|;
          assert n[1..] == n[1..k] + zone;
          TextConcat(n[1..k], zone);
          assert false;
        }
        if |zone| == |n| {
          assert n[0..] == n;
        }
        var offset := |s| - |z|;
        if offset > 0 {
          assert s[offset - 1] == n[0][offset - 1];
        }
      }
    }
  }

  /** A suffix no longer than the tail sees only the tail. */
  lemma ShorterSuffix(l: Label, rest: string, z: string)
    requires |z| <= |rest|
    ensures IsInZoneByteSuffix(l + "." + rest, z) <==> IsInZoneByteSuffix(rest, z)
  {
    var s := l + "." + rest;
    var offset := |s| - |z|;
    assert s[offset..] == rest[|rest| - |z|..];
    if |z| < |rest| {
      assert s[offset - 1] == rest[|rest| - |z| - 1];
    } else {
      assert s[offset - 1] == '.';
      assert rest[0..] == rest;
    }
  }

  /** HasSuffix with the separating dot is zone membership below the apex. */
  lemma DottedSuffix(s: string, z: string)
    requires s != z
    ensures HasSuffix(s, "." + z) <==> IsInZoneByteSuffix(s, z)
  {
    var offset := |s| - |z|;
    if offset > 0 {
      assert s[offset - 1..] == [s[offset - 1]] + s[offset..];
    }
    if HasSuffix(s, "." + z) {
      assert s[offset - 1..][1..] == ("." + z)[1..];
      assert ("." + z)[1..] == z;
      assert s[offset - 1] == ("." + z)[0];
    }
  }

  // ----- rewriting

  lemma SuffixText(n: Name, zone: Name)
    requires InZone(n, zone)
    ensures Text(n) == Text(n[..|n| - |zone|]) + Text(zone)
  {
    assert n == n[..|n| - |zone|] + zone;
    TextConcat(n[..|n| - |zone|], zone);
  }

  /** Cutting the last dot of s and everything behind it off s + t leaves s without that dot. */
  lemma CutLastDot(s: string, t: string)
    requires |s| >= 1 && s[|s| - 1] == '.'
    ensures (s + t)[..|s| - 1] + "." == s
  {
    assert (s + t)[..|s| - 1] == s[..|s| - 1];
  }

  /** Cutting "." + zone off a name below the zone leaves its prefix without the last dot. */
  lemma PrefixOfSuffix(n: Name, zone: Name)
    requires InZone(n, zone) && n != zone
    ensures |Text(n)| > |Text(zone)|
    ensures Text(n)[..|Text(n)| - |Text(zone)| - 1] + "." == Text(n[..|n| - |zone|])
  {
    SuffixText(n, zone);
    var p := n[..|n| - |zone|];
    assert p == [] ==> n == zone by { assert n[0..] == n; }
    TextNonEmpty(p);
    CutLastDot(Text(p), Text(zone));
  }

  /** RewriteQName on printed names is label-wise suffix replacement. */
  lemma RewriteQNameIsRewrite(q: Name, backup: Name, root: Name)
    requires PlainName(q) && PlainName(backup) && backup != []
    ensures RewriteQName(Text(q), Text(backup), Text(root)) == Text(Rewrite(q, backup, root))
  {
    TextInjective(q, backup);
    ByteSuffixIsZoneMembership(q, backup);
    if q == backup {
      RewriteApex(backup, root);
    } else {
      DottedSuffix(Text(q), Text(backup));
      if InZone(q, backup) {
        PrefixOfSuffix(q, backup);
        TextConcat(q[..|q| - |backup|], root);
        assert |"." + Text(backup)| == |Text(backup)| + 1;
      }
    }
  }

  predicate Folded(s: string) {
    ToLower(s) == s
  }

  lemma ToLowerConcat(s: string, t: string)
    ensures ToLower(s + t) == ToLower(s) + ToLower(t)
  {
  }

  lemma ToLowerTake(s: string, k: nat)
    requires k <= |s|
    ensures ToLower(s[..k]) == ToLower(s)[..k]
  {
  }

  /**
   RewriteName keeps the letter case of what it does not replace: either the name is left
   alone, or a suffix that folds to root is replaced, at the start or behind a dot.
   */
  lemma RewriteNameKeepsPrefix(n: string, root: string, backup: string) returns (k: nat)
    requires n != "" && root != "" && RewriteName(n, root, backup) != n
    ensures k <= |n| && ToLower(n)[k..] == root && (k == 0 || n[k - 1] == '.')
    ensures RewriteName(n, root, backup) == n[..k] + backup
  {
    var lower := ToLower(n);
    k := |n| - |root|;
    if lower == root {
      assert lower[0..] == lower && n[..0] + backup == backup;
    } else {
      assert lower[k - 1] == '.' && n[k - 1] == '.';
      assert n[..k] == n[..k - 1] + ".";
      assert n[..k - 1] + "." + backup == n[..k] + backup;
    }
  }

  /** Up to letter case it is the suffix replacement RewriteQName performs on folded names. */
  lemma RewriteNameFoldsToRewriteQName(n: string, root: string, backup: string)
    requires n != "" && root != ""
    ensures ToLower(RewriteName(n, root, backup)) == RewriteQName(ToLower(n), root, ToLower(backup))
  {
    hide ToLower;
    var lower := ToLower(n);
    if lower != root {
      DottedSuffix(lower, root);
      if IsInZoneByteSuffix(lower, root) {
        var p := n[..|n| - |root| - 1];
        ToLowerConcat(p + ".", backup);
        ToLowerConcat(p, ".");
        ToLowerTake(n, |n| - |root| - 1);
        LowerDot();
      }
    }
  }

  lemma LowerDot()
    ensures ToLower(".") == "."
  {
  }

  /** So on printed, folded names RewriteName is the label-wise replacement as well. */
  lemma RewriteNameIsRewrite(n: Name, root: Name, backup: Name)
    requires PlainName(n) && PlainName(root) && n != [] && root != []
    requires Folded(Text(n)) && Folded(Text(backup))
    ensures ToLower(RewriteName(Text(n), Text(root), Text(backup))) == Text(Rewrite(n, root, backup))
  {
    TextNonEmpty(n);
    TextNonEmpty(root);
    RewriteNameFoldsToRewriteQName(Text(n), Text(root), Text(backup));
    RewriteQNameIsRewrite(n, root, backup);
  }

  // ----- the label-anywhere rule

  predicate OccursAt(s: string, pattern: string, p: int) {
    0 <= p <= |s| - |pattern| && s[p..p + |pattern|] == pattern
  }

  /** root occurs at p in lower, at the start of the name or right after a dot. */
  predicate BoundaryAt(lower: string, root: string, p: int) {
    OccursAt(lower, root, p) && (p == 0 || lower[p - 1] == '.')
  }

  ghost predicate LeftmostBoundary(lower: string, root: string, p: int) {
    BoundaryAt(lower, root, p) && forall p' :: p' < p ==> !BoundaryAt(lower, root, p')
  }

  /** strings.Index from a start offset: the first occurrence at or after `start`, or -1. */
  method IndexFrom(s: string, start: nat, pattern: string) returns (idx: int)
    requires start <= |s|
    ensures idx == -1 || (start <= idx && OccursAt(s, pattern, idx))
    ensures forall p :: start <= p && (idx == -1 || p < idx) ==> !OccursAt(s, pattern, p)
  {
    idx := start;
    while idx <= |s| - |pattern|
      invariant start <= idx
      invariant forall p :: start <= p < idx ==> !OccursAt(s, pattern, p)
    {
      if s[idx..idx + |pattern|] == pattern {
        return;
      }
      idx := idx + 1;
    }
    idx := -1;
  }

  /** r is n with the leftmost occurrence of root on a label boundary replaced, or n when there is none. */
  ghost predicate AnywhereRewritten(n: string, root: string, backup: string, r: string) {
    && (root == "" ==> r == n)
    && (root != "" && (forall p :: !BoundaryAt(ToLower(n), root, p)) ==> r == n)
    && (root != "" ==> forall p :: LeftmostBoundary(ToLower(n), root, p) ==> r == Splice(n, p, root, backup))
  }

  /** The text n with its part at p, as long as root, replaced. */
  function Splice(n: string, p: nat, root: string, backup: string): string
    requires p + |root| <= |n|
  {
    n[..p] + backup + n[p + |root|..]
  }

  /** Replaces the leftmost label-boundary occurrence of root, and only that one. */
  method RewriteNameAnywhere(n: string, root: string, backup: string) returns (r: string)
    ensures AnywhereRewritten(n, root, backup, r)
  {
    if n == "" || root == "" {
      return n;
    }
    var lower := ToLower(n);
    var start := 0;
    hide AnywhereRewritten, ToLower, Splice;
    while start <= |lower|
      invariant 0 <= start <= |lower| + 1
      invariant forall p :: p < start ==> !BoundaryAt(lower, root, p)
    {
      var idx := IndexFrom(lower, start, root);
      if idx < 0 {
        assert forall p :: !BoundaryAt(lower, root, p);
        AnywhereAbsent(n, root, backup);
        return n;
      }
      if idx == 0 || lower[idx - 1] == '.' {
        assert LeftmostBoundary(lower, root, idx);
        AnywhereFound(n, root, backup, idx);
        return Splice(n, idx, root, backup);
      }
      start := idx + 1;
    }
    AnywhereAbsent(n, root, backup);
    return n;
  }

  lemma AnywhereAbsent(n: string, root: string, backup: string)
    requires forall p :: !BoundaryAt(ToLower(n), root, p)
    ensures AnywhereRewritten(n, root, backup, n)
  {
  }

  lemma AnywhereFound(n: string, root: string, backup: string, p: int)
    requires root != "" && LeftmostBoundary(ToLower(n), root, p)
    ensures AnywhereRewritten(n, root, backup, Splice(n, p, root, backup))
  {
    hide BoundaryAt;
    assert forall q :: LeftmostBoundary(ToLower(n), root, q) ==> q == p;
  }
}
