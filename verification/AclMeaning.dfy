/**
 What acl resolution means for clients: the resolved lists decide exactly as the written ones
 when nothing was lost, and only more narrowly when something was, whatever the lost
 references might have stood for.
 */
module AclMeaning {
  import opened AclMatch
  import opened AclResolve

  /** What a reference stands for: the named acl where it is followed, anything at all elsewhere. */
  function Standing(reg: Registry, cut: set<string>, hole: string -> bool, acc: string -> bool): string -> bool {
    (n: string) => if n in reg && n !in cut then acc(n) else hole(n)
  }

  /** acc says which acls accept the client, given what each acl's lost references stand for. */
  ghost predicate Consistent(reg: Registry, above: map<string, set<string>>, holes: string -> string -> bool,
                             acc: string -> bool, c: Client)
    requires reg.Keys <= above.Keys
  {
    forall n :: n in reg ==> acc(n) == Evaluate(reg[n], c, Standing(reg, above[n], holes(n), acc))
  }

  /** A list that loses nothing: every reference is followed into `whole`, no negated body is empty. */
  predicate Intact(fin: Registry, cut: set<string>, whole: set<string>, es: seq<Element>)
    decreases es
  {
    es == [] || (IntactElement(fin, cut, whole, es[0]) && Intact(fin, cut, whole, es[1..]))
  }

  predicate IntactElement(fin: Registry, cut: set<string>, whole: set<string>, e: Element)
    decreases e
  {
    match e.form
    case Ref(name, _) => name in fin && name !in cut && name in whole && (e.negated ==> fin[name] != [])
    case Group(body) => Intact(fin, cut, whole, body) && (e.negated ==> Image(fin, cut, body) != [])
    case _ => true
  }

  /** A list whose negated bodies lost either nothing or everything. */
  predicate Guarded(fin: Registry, cut: set<string>, whole: set<string>, safe: set<string>, es: seq<Element>)
    decreases es
  {
    es == [] || (GuardedElement(fin, cut, whole, safe, es[0]) && Guarded(fin, cut, whole, safe, es[1..]))
  }

  predicate GuardedElement(fin: Registry, cut: set<string>, whole: set<string>, safe: set<string>, e: Element)
    decreases e
  {
    match e.form
    case Ref(name, _) =>
      name !in fin || name in cut || (if e.negated then fin[name] == [] || name in whole else name in safe)
    case Group(body) =>
      if e.negated then Image(fin, cut, body) == [] || Intact(fin, cut, whole, body)
      else Guarded(fin, cut, whole, safe, body)
    case _ => true
  }

  /** The acls of `whole` lose nothing; those of `safe` are guarded. */
  ghost predicate Marked(reg: Registry, fin: Registry, above: map<string, set<string>>, whole: set<string>, safe: set<string>)
    requires reg.Keys == fin.Keys == above.Keys
  {
    && (forall n :: n in whole && n in reg ==> Intact(fin, above[n], whole, reg[n]))
    && (forall n :: n in safe && n in reg ==> Guarded(fin, above[n], whole, safe, reg[n]))
  }

  /** acc and the resolved list of n agree. */
  ghost predicate Agrees(fin: Registry, acc: string -> bool, c: Client, n: string) {
    n in fin && acc(n) == Accepts(fin[n], c)
  }

  ghost predicate Narrows(fin: Registry, acc: string -> bool, c: Client, n: string) {
    n in fin && (Accepts(fin[n], c) ==> acc(n))
  }

  /** One level of exactness: if the acls a list uses agree, so does the list. */
  lemma {:induction false} IntactListAgrees(fin: Registry, cut: set<string>, whole: set<string>, es: seq<Element>,
                                            c: Client, hole: string -> bool, acc: string -> bool)
    requires Intact(fin, cut, whole, es)
    requires forall n :: n in Refs(es) && n in whole && n in fin && n !in cut ==> Agrees(fin, acc, c, n)
    ensures Accepts(Image(fin, cut, es), c) == Evaluate(es, c, Standing(fin, cut, hole, acc))
    ensures |Image(fin, cut, es)| == |es|
    decreases es
  {
    if es != [] {
      IntactListAgrees(fin, cut, whole, es[1..], c, hole, acc);
      IntactElementAgrees(fin, cut, whole, es[0], c, hole, acc);
      var one, rest := ImageOf(fin, cut, es[0]), Image(fin, cut, es[1..]);
      assert (one + rest)[0] == one[0] && (one + rest)[1..] == rest;
    }
  }

  lemma {:induction false} IntactElementAgrees(fin: Registry, cut: set<string>, whole: set<string>, e: Element,
                                               c: Client, hole: string -> bool, acc: string -> bool)
    requires IntactElement(fin, cut, whole, e)
    requires forall n :: n in RefsOf(e) && n in whole && n in fin && n !in cut ==> Agrees(fin, acc, c, n)
    ensures var one := ImageOf(fin, cut, e);
            && |one| == 1 && one[0].negated == e.negated
            && FiresResolved(one[0], c) == Fires(e, c, Standing(fin, cut, hole, acc))
    decreases e
  {
    match e.form
    case Ref(name, _) => assert Agrees(fin, acc, c, name);
    case Group(body) => IntactListAgrees(fin, cut, whole, body, c, hole, acc);
    case _ =>
  }

  /** One level of narrowing: if the acls a list uses narrow, so does the list. */
  lemma {:induction false} GuardedListNarrows(fin: Registry, cut: set<string>, whole: set<string>, safe: set<string>,
                                              es: seq<Element>, c: Client, hole: string -> bool, acc: string -> bool)
    requires Guarded(fin, cut, whole, safe, es)
    requires forall n :: n in Refs(es) && n in fin && n !in cut && n in whole ==> Agrees(fin, acc, c, n)
    requires forall n :: n in Refs(es) && n in fin && n !in cut && n in safe ==> Narrows(fin, acc, c, n)
    ensures Accepts(Image(fin, cut, es), c) ==> Evaluate(es, c, Standing(fin, cut, hole, acc))
    decreases es
  {
    if es != [] {
      GuardedListNarrows(fin, cut, whole, safe, es[1..], c, hole, acc);
      GuardedElementNarrows(fin, cut, whole, safe, es[0], c, hole, acc);
      var one, rest := ImageOf(fin, cut, es[0]), Image(fin, cut, es[1..]);
      if one != [] {
        assert FiresResolved(REJECT_ALL, c);
        assert (one + rest)[0] == one[0] && (one + rest)[1..] == rest;
      } else {
        assert one + rest == rest;
      }
    }
  }

  lemma {:induction false} GuardedElementNarrows(fin: Registry, cut: set<string>, whole: set<string>, safe: set<string>,
                                                 e: Element, c: Client, hole: string -> bool, acc: string -> bool)
    requires GuardedElement(fin, cut, whole, safe, e)
    requires forall n :: n in RefsOf(e) && n in fin && n !in cut && n in whole ==> Agrees(fin, acc, c, n)
    requires forall n :: n in RefsOf(e) && n in fin && n !in cut && n in safe ==> Narrows(fin, acc, c, n)
    ensures var one := ImageOf(fin, cut, e);
            var fires := Fires(e, c, Standing(fin, cut, hole, acc));
            || (one == [] && !e.negated)
            || one == [REJECT_ALL]
            || (|one| == 1 && one[0].negated == e.negated
                && (if e.negated then FiresResolved(one[0], c) == fires else FiresResolved(one[0], c) ==> fires))
    decreases e
  {
    match e.form
    case Ref(name, _) =>
      if name in fin && name !in cut {
        assert name in RefsOf(e);
        assert FiresResolved(Element(e.negated, Ref(name, fin[name])), c) == Accepts(fin[name], c);
        assert Fires(e, c, Standing(fin, cut, hole, acc)) == acc(name);
        assert e.negated && name in whole ==> Agrees(fin, acc, c, name);
        assert !e.negated ==> Narrows(fin, acc, c, name);
      }
    case Group(body) =>
      if !e.negated {
        GuardedListNarrows(fin, cut, whole, safe, body, c, hole, acc);
        assert FiresResolved(Element(false, Group(Image(fin, cut, body))), c) == Accepts(Image(fin, cut, body), c);
      } else if Image(fin, cut, body) != [] {
        IntactListAgrees(fin, cut, whole, body, c, hole, acc);
      }
    case _ =>
  }

  /** Along the resolution order, whole acls agree and safe ones narrow. */
  lemma {:induction false} OrderAgrees(reg: Registry, fin: Registry, above: map<string, set<string>>, order: seq<string>,
                                       whole: set<string>, safe: set<string>, holes: string -> string -> bool,
                                       acc: string -> bool, c: Client, r: nat)
    requires Resolves(reg, fin, above, order) && Marked(reg, fin, above, whole, safe)
    requires Consistent(reg, above, holes, acc, c) && r <= |order|
    ensures forall n :: n in order[..r] && n in whole ==> Agrees(fin, acc, c, n)
    ensures forall n :: n in order[..r] && n in safe ==> Narrows(fin, acc, c, n)
  {
    hide *;
    if r > 0 {
      OrderAgrees(reg, fin, above, order, whole, safe, holes, acc, c, r - 1);
      NextAgrees(reg, fin, above, order, whole, safe, holes, acc, c, r);
      assert order[..r] == order[..r - 1] + [order[r - 1]];
    }
  }

  /** The acls that the next one in the order refers to come before it. */
  lemma RefsComeFirst(reg: Registry, fin: Registry, above: map<string, set<string>>, order: seq<string>, r: nat)
    requires Resolves(reg, fin, above, order) && 0 < r <= |order|
    ensures var n := order[r - 1];
            && n in reg && n in fin && n in above && fin[n] == Image(fin, above[n], reg[n])
            && forall m :: m in Refs(reg[n]) && m in fin && m !in above[n] ==> m in order[..r - 1]
  {
    hide Image, Refs, Reaches;
    assert order[r - 1] in order;
  }

  lemma NextAgrees(reg: Registry, fin: Registry, above: map<string, set<string>>, order: seq<string>,
                   whole: set<string>, safe: set<string>, holes: string -> string -> bool,
                   acc: string -> bool, c: Client, r: nat)
    requires Resolves(reg, fin, above, order) && Marked(reg, fin, above, whole, safe)
    requires Consistent(reg, above, holes, acc, c) && 0 < r <= |order|
    requires forall n :: n in order[..r - 1] && n in whole ==> Agrees(fin, acc, c, n)
    requires forall n :: n in order[..r - 1] && n in safe ==> Narrows(fin, acc, c, n)
    ensures order[r - 1] in whole ==> Agrees(fin, acc, c, order[r - 1])
    ensures order[r - 1] in safe ==> Narrows(fin, acc, c, order[r - 1])
  {
    hide Image, Accepts, Evaluate, Refs, Intact, Guarded, Standing;
    var n := order[r - 1];
    RefsComeFirst(reg, fin, above, order, r);
    assert reg.Keys == fin.Keys == above.Keys && acc(n) == Evaluate(reg[n], c, Standing(reg, above[n], holes(n), acc));
    hide Resolves, Consistent;
    StandingSame(reg, fin, above[n], holes(n), acc);
    if n in whole {
      IntactListAgrees(fin, above[n], whole, reg[n], c, holes(n), acc);
    }
    if n in safe {
      GuardedListNarrows(fin, above[n], whole, safe, reg[n], c, holes(n), acc);
    }
  }

  lemma StandingSame(reg: Registry, fin: Registry, cut: set<string>, hole: string -> bool, acc: string -> bool)
    requires reg.Keys == fin.Keys
    ensures forall es: seq<Element>, c: Client ::
              Evaluate(es, c, Standing(reg, cut, hole, acc)) == Evaluate(es, c, Standing(fin, cut, hole, acc))
  {
    forall es: seq<Element>, c: Client
      ensures Evaluate(es, c, Standing(reg, cut, hole, acc)) == Evaluate(es, c, Standing(fin, cut, hole, acc))
    {
      EvaluateDepends(es, c, Standing(reg, cut, hole, acc), Standing(fin, cut, hole, acc));
    }
  }

  lemma {:induction false} EvaluateDepends(es: seq<Element>, c: Client, f: string -> bool, g: string -> bool)
    requires forall n :: n in Refs(es) ==> f(n) == g(n)
    ensures Evaluate(es, c, f) == Evaluate(es, c, g)
    decreases es
  {
    if es != [] {
      EvaluateDepends(es[1..], c, f, g);
      assert es decreases to es[0];
      assert forall n :: n in RefsOf(es[0]) ==> n in Refs(es);
      if es[0].form.Group? {
        EvaluateDepends(es[0].form.body, c, f, g);
      }
      assert Fires(es[0], c, f) == Fires(es[0], c, g);
    }
  }

  /** The acls of order[..r], read one after another from what the earlier ones accept. */
  function ReadingUpTo(reg: Registry, above: map<string, set<string>>, order: seq<string>,
                       holes: string -> string -> bool, c: Client, r: nat): string -> bool
    requires r <= |order| && forall n :: n in order ==> n in reg && n in above
  {
    if r == 0 then (n: string) => false
    else
      var before := ReadingUpTo(reg, above, order, holes, c, r - 1);
      var n := order[r - 1];
      var accepts := Evaluate(reg[n], c, Standing(reg, above[n], holes(n), before));
      (m: string) => if m == n then accepts else before(m)
  }

  /** acc reads acl n consistently. */
  ghost predicate ReadsWell(reg: Registry, above: map<string, set<string>>, holes: string -> string -> bool,
                            acc: string -> bool, c: Client, n: string)
    requires n in reg && n in above
  {
    acc(n) == Evaluate(reg[n], c, Standing(reg, above[n], holes(n), acc))
  }

  lemma {:induction false} ReadingIsConsistent(reg: Registry, fin: Registry, above: map<string, set<string>>,
                                               order: seq<string>, holes: string -> string -> bool, c: Client, r: nat)
    requires Resolves(reg, fin, above, order) && r <= |order|
    ensures forall n :: n in order[..r] ==>
              ReadsWell(reg, above, holes, ReadingUpTo(reg, above, order, holes, c, r), c, n)
  {
    hide Image, Evaluate, Refs, Reaches;
    if r > 0 {
      ReadingIsConsistent(reg, fin, above, order, holes, c, r - 1);
      var last := order[r - 1];
      var before, acc := ReadingUpTo(reg, above, order, holes, c, r - 1), ReadingUpTo(reg, above, order, holes, c, r);
      assert order[..r] == order[..r - 1] + [last];
      assert forall m :: m != last ==> acc(m) == before(m);
      assert last in order[..r - 1] ==> acc(last) == before(last);
      forall n | n in order[..r] ensures ReadsWell(reg, above, holes, acc, c, n) {
        var i :| 0 <= i < r && order[i] == n;
        assert order[..i] <= order[..r - 1];
        assert forall m :: m in order[..i] ==> m in order[..r - 1];
        EvaluateDepends(reg[n], c, Standing(reg, above[n], holes(n), before), Standing(reg, above[n], holes(n), acc));
      }
    }
  }

  /** Two consistent readings agree along the resolution order. */
  lemma {:induction false} ReadingsAgree(reg: Registry, fin: Registry, above: map<string, set<string>>, order: seq<string>,
                                         holes: string -> string -> bool, f: string -> bool, g: string -> bool,
                                         c: Client, r: nat)
    requires Resolves(reg, fin, above, order) && r <= |order|
    requires Consistent(reg, above, holes, f, c) && Consistent(reg, above, holes, g, c)
    ensures forall n :: n in order[..r] ==> f(n) == g(n)
  {
    hide Image, Evaluate, Refs, Reaches;
    if r > 0 {
      ReadingsAgree(reg, fin, above, order, holes, f, g, c, r - 1);
      var n := order[r - 1];
      assert n in order && order[..r] == order[..r - 1] + [n];
      EvaluateDepends(reg[n], c, Standing(reg, above[n], holes(n), f), Standing(reg, above[n], holes(n), g));
    }
  }

  /**
   Once resolution has cut the cycles, and whatever the lost references are taken to stand for,
   the written acls have exactly one consistent reading: which of them accept the client.
   */
  lemma OneConsistentReading(reg: Registry, fin: Registry, above: map<string, set<string>>, order: seq<string>,
                             holes: string -> string -> bool, c: Client)
    returns (acc: string -> bool)
    requires Resolves(reg, fin, above, order)
    ensures Consistent(reg, above, holes, acc, c)
    ensures forall other: string -> bool :: Consistent(reg, above, holes, other, c) ==>
              forall n :: n in reg ==> other(n) == acc(n)
  {
    hide Image, Evaluate, Refs, Reaches;
    acc := ReadingUpTo(reg, above, order, holes, c, |order|);
    ReadingIsConsistent(reg, fin, above, order, holes, c, |order|);
    assert order[..|order|] == order;
    assert forall n :: n in reg ==> ReadsWell(reg, above, holes, acc, c, n);
    forall other: string -> bool | Consistent(reg, above, holes, other, c)
      ensures forall n :: n in reg ==> other(n) == acc(n)
    {
      ReadingsAgree(reg, fin, above, order, holes, other, acc, c, |order|);
    }
  }

  /**
   Fail-closed narrowing. Whatever client sets the undefined and cycle-cut references stand for,
   a resolved view list accepts only clients the written list accepts, provided every negated
   body it reaches lost nothing or everything, and the lists nest within the depth limit.
   */
  lemma ResolutionOnlyNarrows(reg: Registry, fin: Registry, above: map<string, set<string>>, order: seq<string>,
                              whole: set<string>, safe: set<string>, holes: string -> string -> bool,
                              acc: string -> bool, c: Client, view: seq<Element>, hole: string -> bool)
    requires Resolves(reg, fin, above, order) && Marked(reg, fin, above, whole, safe)
    requires Consistent(reg, above, holes, acc, c)
    requires Guarded(fin, {}, whole, safe, view)
    requires Height(Image(fin, {}, view)) <= MAX_DEPTH
    ensures ListAccepts(Image(fin, {}, view), c, 0) ==> Evaluate(view, c, Standing(reg, {}, hole, acc))
  {
    hide Image, Accepts, Evaluate, Refs, Intact, Guarded, ListAccepts, Height;
    OrderAgrees(reg, fin, above, order, whole, safe, holes, acc, c, |order|);
    assert order[..|order|] == order;
    GuardedListNarrows(fin, {}, whole, safe, view, c, hole, acc);
    StandingSame(reg, fin, {}, hole, acc);
    DepthIsInvisible(Image(fin, {}, view), c, 0);
  }

  // ----- exactness

  ghost predicate Acyclic(reg: Registry, rank: string -> nat) {
    forall n, m :: n in reg && m in reg && m in Refs(reg[n]) ==> rank(m) < rank(n)
  }

  lemma {:induction false} ChainDescends(reg: Registry, rank: string -> nat, p: seq<string>)
    requires Acyclic(reg, rank) && Chain(reg, p) && p != []
    ensures rank(p[|p| - 1]) <= rank(p[0])
  {
    hide Refs;
    if |p| > 1 {
      var q := p[..|p| - 1];
      assert forall i :: 0 <= i < |q| ==> q[i] == p[i];
      ChainDescends(reg, rank, q);
      assert p[|p| - 1] in Refs(reg[p[|p| - 2]]);
    }
  }

  /** Nothing is cut in an acyclic registry. */
  lemma AcyclicCutsNothing(reg: Registry, fin: Registry, above: map<string, set<string>>, order: seq<string>,
                           rank: string -> nat, n: string, m: string)
    requires Resolves(reg, fin, above, order) && Acyclic(reg, rank)
    requires n in reg && m in reg && m in Refs(reg[n])
    ensures m !in above[n]
  {
    hide Image, Refs;
    if m in above[n] {
      assert Reaches(reg, m, n);
      var p: seq<string> :| p != [] && p[0] == m && p[|p| - 1] == n && Chain(reg, p);
      ChainDescends(reg, rank, p);
    }
  }

  /** As written: no negated reference or group has an empty body. */
  predicate NoEmptyNegation(reg: Registry, es: seq<Element>)
    decreases es
  {
    es == [] || (NonEmptyNegation(reg, es[0]) && NoEmptyNegation(reg, es[1..]))
  }

  predicate NonEmptyNegation(reg: Registry, e: Element)
    decreases e
  {
    match e.form
    case Ref(name, _) => e.negated ==> name in reg && reg[name] != []
    case Group(body) => NoEmptyNegation(reg, body) && (e.negated ==> body != [])
    case _ => true
  }

  /** A list all of whose references are defined and kept has as many elements as written. */
  lemma {:induction false} NothingDropped(fin: Registry, cut: set<string>, es: seq<Element>)
    requires forall m :: m in Refs(es) ==> m in fin && m !in cut
    ensures |Image(fin, cut, es)| == |es|
  {
    if es != [] {
      NothingDropped(fin, cut, es[1..]);
      assert forall m :: m in RefsOf(es[0]) ==> m in Refs(es);
      assert |ImageOf(fin, cut, es[0])| == 1;
    }
  }

  lemma {:induction false} WrittenWellIsIntact(reg: Registry, fin: Registry, cut: set<string>, es: seq<Element>)
    requires fin.Keys == reg.Keys && forall n :: n in reg ==> |fin[n]| == |reg[n]|
    requires forall m :: m in Refs(es) ==> m in reg && m !in cut
    requires NoEmptyNegation(reg, es)
    ensures Intact(fin, cut, reg.Keys, es)
    decreases es
  {
    if es != [] {
      WrittenWellIsIntact(reg, fin, cut, es[1..]);
      assert es decreases to es[0];
      assert forall n :: n in RefsOf(es[0]) ==> n in Refs(es);
      if es[0].form.Group? {
        WrittenWellIsIntact(reg, fin, cut, es[0].form.body);
        NothingDropped(fin, cut, es[0].form.body);
      }
    }
  }

  /** Every acl and view refers to defined acls only, without cycles or empty negated bodies. */
  ghost predicate WellWritten(reg: Registry, rank: string -> nat, view: seq<Element>) {
    && Acyclic(reg, rank)
    && (forall n, m :: n in reg && m in Refs(reg[n]) ==> m in reg)
    && (forall n :: n in reg ==> NoEmptyNegation(reg, reg[n]))
    && (forall m :: m in Refs(view) ==> m in reg)
    && NoEmptyNegation(reg, view)
  }

  lemma WellWrittenIsWhole(reg: Registry, fin: Registry, above: map<string, set<string>>, order: seq<string>,
                           rank: string -> nat, view: seq<Element>)
    requires Resolves(reg, fin, above, order) && WellWritten(reg, rank, view)
    ensures Marked(reg, fin, above, reg.Keys, {}) && Intact(fin, {}, reg.Keys, view)
  {
    hide Image, Refs, Intact, Guarded, NoEmptyNegation;
    forall n, m | n in reg && m in Refs(reg[n]) ensures m in reg && m !in above[n] {
      AcyclicCutsNothing(reg, fin, above, order, rank, n, m);
    }
    forall n | n in reg ensures |fin[n]| == |reg[n]| {
      NothingDropped(fin, above[n], reg[n]);
    }
    forall n | n in reg ensures Intact(fin, above[n], reg.Keys, reg[n]) {
      WrittenWellIsIntact(reg, fin, above[n], reg[n]);
    }
    WrittenWellIsIntact(reg, fin, {}, view);
  }

  /** acc says, consistently with the written acls, which of them accept the client. */
  ghost predicate Model(reg: Registry, acc: string -> bool, c: Client) {
    forall n :: n in reg ==> acc(n) == Evaluate(reg[n], c, acc)
  }

  /**
   Exactness. When every reference is defined, references are acyclic, no negated body is empty
   and lists nest within the depth limit, matching a resolved view list is evaluating the
   written list through the registry.
   */
  lemma ResolutionIsExact(reg: Registry, fin: Registry, above: map<string, set<string>>, order: seq<string>,
                          rank: string -> nat, acc: string -> bool, c: Client, view: seq<Element>)
    requires Resolves(reg, fin, above, order) && WellWritten(reg, rank, view)
    requires Model(reg, acc, c) && Height(Image(fin, {}, view)) <= MAX_DEPTH
    ensures ListAccepts(Image(fin, {}, view), c, 0) == Evaluate(view, c, acc)
  {
    WellWrittenIsWhole(reg, fin, above, order, rank, view);
    hide Image, Accepts, Evaluate, Refs, Intact, Guarded, ListAccepts, Height, NoEmptyNegation;
    var holes := (n: string) => acc;
    forall n | n in reg
      ensures acc(n) == Evaluate(reg[n], c, Standing(reg, above[n], holes(n), acc))
    {
      EvaluateDepends(reg[n], c, acc, Standing(reg, above[n], acc, acc));
    }
    OrderAgrees(reg, fin, above, order, reg.Keys, {}, holes, acc, c, |order|);
    assert order[..|order|] == order;
    IntactListAgrees(fin, {}, reg.Keys, view, c, acc, acc);
    EvaluateDepends(view, c, acc, Standing(fin, {}, acc, acc));
    DepthIsInvisible(Image(fin, {}, view), c, 0);
  }

  /** Such a registry has a model, the resolved acls themselves, and no other. */
  lemma WellWrittenHasOneModel(reg: Registry, fin: Registry, above: map<string, set<string>>, order: seq<string>,
                               rank: string -> nat, acc: string -> bool, c: Client)
    requires Resolves(reg, fin, above, order) && WellWritten(reg, rank, [])
    ensures Model(reg, (n: string) => n in fin && Accepts(fin[n], c), c)
    ensures Model(reg, acc, c) ==> forall n :: n in reg ==> acc(n) == Accepts(fin[n], c)
  {
    WellWrittenIsWhole(reg, fin, above, order, rank, []);
    hide Image, Accepts, Evaluate, Refs, Intact, Guarded, NoEmptyNegation;
    var own := (n: string) => n in fin && Accepts(fin[n], c);
    forall n | n in reg ensures own(n) == Evaluate(reg[n], c, own) {
      IntactListAgrees(fin, above[n], reg.Keys, reg[n], c, own, own);
      EvaluateDepends(reg[n], c, own, Standing(fin, above[n], own, own));
    }
    if Model(reg, acc, c) {
      var holes := (n: string) => acc;
      forall n | n in reg
        ensures acc(n) == Evaluate(reg[n], c, Standing(reg, above[n], holes(n), acc))
      {
        EvaluateDepends(reg[n], c, acc, Standing(reg, above[n], acc, acc));
      }
      OrderAgrees(reg, fin, above, order, reg.Keys, {}, holes, acc, c, |order|);
      assert order[..|order|] == order;
      assert forall n :: n in reg ==> Agrees(fin, acc, c, n);
    }
  }

  // ----- where the conditions bite

  /** `!{ gone; 10.0.0.0/8; }; any;` with `gone` undefined. */
  const PARTIAL: seq<Element> :=
    [Element(true, Group([Element(false, Ref("gone", [])), Element(false, Test(Cidr("10.0.0.0/8")))])),
     Element(false, Any)]

  /** A negated group that loses part of its body widens: clients of the lost acl get in. */
  lemma PartialLossWidens(c: Client, acc: string -> bool)
    requires !c.matches(Cidr("10.0.0.0/8"))
    ensures ListAccepts(Image(map[], {}, PARTIAL), c, 0)
    ensures !Evaluate(PARTIAL, c, Standing(map[], {}, n => true, acc))
    ensures !Guarded(map[], {}, {}, {}, PARTIAL)
  {
    var group := PARTIAL[0].form.body;
    assert group[1..] == [group[1]] && group[1..][1..] == [];
    var kept := [Element(false, Test(Cidr("10.0.0.0/8")))];
    assert Image(map[], {}, group[1..]) == kept;
    assert Image(map[], {}, group) == kept;
    assert PARTIAL[1..] == [Element(false, Any)] && PARTIAL[1..][1..] == [];
    assert Image(map[], {}, PARTIAL[1..]) == [Element(false, Any)];
    var out := [Element(true, Group(kept)), Element(false, Any)];
    assert Image(map[], {}, PARTIAL) == out;
    assert kept[1..] == [] && !ListAccepts(kept, c, 1);
    assert out[1..] == [Element(false, Any)];
    assert Fires(group[0], c, Standing(map[], {}, n => true, acc));
    assert Fires(PARTIAL[0], c, Standing(map[], {}, n => true, acc));
    assert !Intact(map[], {}, {}, group);
  }

  // ----- when a negated group widens

  /** Positive tests and references that are lost. */
  predicate TestsAndLost(fin: Registry, body: seq<Element>) {
    forall i :: 0 <= i < |body| ==>
      && !body[i].negated && !body[i].form.Any? && !body[i].form.Group?
      && (body[i].form.Ref? ==> body[i].form.name !in fin)
  }

  /** `!{ body }; any;`. */
  function AllBut(body: seq<Element>): seq<Element> {
    [Element(true, Group(body)), Element(false, Any)]
  }

  /** A client that no test matches. */
  const NOBODY := Client((l: Leaf) => false, false, false)

  /** One element of such a body: it is lost, or kept as it is. */
  lemma LostHead(fin: Registry, body: seq<Element>, c: Client, stands: string -> bool)
    requires TestsAndLost(fin, body) && body != []
    ensures var rest := Image(fin, {}, body[1..]);
            if body[0].form.Ref? then
              && Image(fin, {}, body) == rest
              && Evaluate(body, c, stands) == (stands(body[0].form.name) || Evaluate(body[1..], c, stands))
            else
              && Image(fin, {}, body) == [body[0]] + rest
              && Evaluate(body, c, stands) == (FiresResolved(body[0], c) || Evaluate(body[1..], c, stands))
              && Accepts([body[0]] + rest, c) == (FiresResolved(body[0], c) || Accepts(rest, c))
              && Height([body[0]] + rest) == Height(rest)
              && !FiresResolved(body[0], NOBODY)
  {
    var rest := Image(fin, {}, body[1..]);
    assert ([body[0]] + rest)[1..] == rest && [] + rest == rest;
    assert !body[0].form.Ref? ==> Fires(body[0], c, stands) == FiresResolved(body[0], c);
  }

  /** What is left of such a body accepts no more than the body, and as much when nothing is lost. */
  lemma {:induction false} LostFromBody(fin: Registry, body: seq<Element>, c: Client, stands: string -> bool)
    requires TestsAndLost(fin, body)
    ensures var kept := Image(fin, {}, body);
            && Height(kept) == 0 && (Accepts(kept, c) ==> Evaluate(body, c, stands))
            && ((forall i :: 0 <= i < |body| ==> !body[i].form.Ref?) ==> Evaluate(body, c, stands) == Accepts(kept, c))
  {
    if body != [] {
      LostFromBody(fin, body[1..], c, stands);
      LostHead(fin, body, c, stands);
      assert body == [body[0]] + body[1..];
      hide Image, Evaluate, Accepts, Height, FiresResolved;
    }
  }

  /** When nothing is left, and what the body says of a client that no test matches. */
  lemma {:induction false} NobodyInBody(fin: Registry, body: seq<Element>)
    requires TestsAndLost(fin, body)
    ensures Image(fin, {}, body) == [] <==> forall i :: 0 <= i < |body| ==> body[i].form.Ref?
    ensures !Accepts(Image(fin, {}, body), NOBODY)
    ensures Evaluate(body, NOBODY, n => true) <==> exists i :: 0 <= i < |body| && body[i].form.Ref?
  {
    if body != [] {
      NobodyInBody(fin, body[1..]);
      LostHead(fin, body, NOBODY, n => true);
      assert body == [body[0]] + body[1..];
      hide Image, Evaluate, Accepts, Height, FiresResolved;
    }
  }

  lemma EvaluateAllBut(body: seq<Element>, c: Client, stands: string -> bool)
    ensures Evaluate(AllBut(body), c, stands) == !Evaluate(body, c, stands)
  {
    var any := [Element(false, Any)];
    assert AllBut(body)[1..] == any && any[1..] == [] && Fires(any[0], c, stands);
    assert Fires(AllBut(body)[0], c, stands) == Evaluate(body, c, stands);
  }

  lemma AcceptsAllBut(fin: Registry, body: seq<Element>, c: Client)
    requires Height(Image(fin, {}, body)) == 0
    ensures ListAccepts(Image(fin, {}, AllBut(body)), c, 0) <==>
            Image(fin, {}, body) != [] && !Accepts(Image(fin, {}, body), c)
  {
    var kept, any := Image(fin, {}, body), [Element(false, Any)];
    assert AllBut(body)[1..] == any && any[1..] == [];
    assert Image(fin, {}, any) == any;
    var first := if kept == [] then REJECT_ALL else Element(true, Group(kept));
    assert ImageOf(fin, {}, AllBut(body)[0]) == [first];
    assert Image(fin, {}, AllBut(body)) == [first] + any;
    assert ([first] + any)[1..] == any;
    DepthIsInvisible(kept, c, 1);
    hide Image, ImageOf;
  }

  /** Whatever the references stand for, resolution lets no client in that the written list rejects. */
  ghost predicate NeverWidens(fin: Registry, view: seq<Element>) {
    forall c, stands :: ListAccepts(Image(fin, {}, view), c, 0) ==> Evaluate(view, c, stands)
  }

  /**
   `!{ body }; any;`, with a body of positive tests and lost references, never widens exactly
   when resolution takes nothing or everything out of the body.
   */
  lemma NegatedBodyWidensExactly(fin: Registry, body: seq<Element>)
    requires TestsAndLost(fin, body)
    ensures NeverWidens(fin, AllBut(body)) <==>
            || (forall i :: 0 <= i < |body| ==> !body[i].form.Ref?)
            || (forall i :: 0 <= i < |body| ==> body[i].form.Ref?)
  {
    var all: string -> bool := n => true;
    LostFromBody(fin, body, NOBODY, all);
    NobodyInBody(fin, body);
    AcceptsAllBut(fin, body, NOBODY);
    EvaluateAllBut(body, NOBODY, all);
    hide Image, Evaluate, Accepts, ListAccepts, Height, AllBut;
    if (forall i :: 0 <= i < |body| ==> !body[i].form.Ref?) || (forall i :: 0 <= i < |body| ==> body[i].form.Ref?) {
      forall c, stands | ListAccepts(Image(fin, {}, AllBut(body)), c, 0) ensures Evaluate(AllBut(body), c, stands) {
        LostFromBody(fin, body, c, stands);
        AcceptsAllBut(fin, body, c);
        EvaluateAllBut(body, c, stands);
      }
    }
  }

  /** `!{ }; any;` accepts everyone as written and no one once resolved. */
  lemma EmptyNegationRejectsAll(c: Client, acc: string -> bool)
    ensures var list := [Element(true, Group([])), Element(false, Any)];
            Evaluate(list, c, acc) && !ListAccepts(Image(map[], {}, list), c, 0)
  {
    var list := [Element(true, Group([])), Element(false, Any)];
    assert list[1..] == [Element(false, Any)] && !Fires(list[0], c, acc);
    var out := Image(map[], {}, list);
    assert ImageOf(map[], {}, list[0]) == [REJECT_ALL];
    assert out[0] == REJECT_ALL;
  }

  /** So does a negated reference that is lost or stands for an empty list: nobody gets past it. */
  lemma LostNegationRejectsAll(fin: Registry, cut: set<string>, name: string, rest: seq<Element>, c: Client)
    requires name !in fin || name in cut || fin[name] == []
    ensures !ListAccepts(Image(fin, cut, [Element(true, Ref(name, []))] + rest), c, 0)
    ensures name !in fin || name in cut ==>
              Image(fin, cut, [Element(false, Ref(name, []))] + rest) == Image(fin, cut, rest)
  {
    var lost, plain := [Element(true, Ref(name, []))] + rest, [Element(false, Ref(name, []))] + rest;
    assert lost[1..] == rest && plain[1..] == rest;
    assert Image(fin, cut, lost) == [REJECT_ALL] + Image(fin, cut, rest);
    assert [] + Image(fin, cut, rest) == Image(fin, cut, rest);
    assert ElementFires(REJECT_ALL, c, 0);
  }
}
