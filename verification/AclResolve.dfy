/**
 Named-acl resolution (internal/config/zones.go): a depth-first walk that replaces every
 reference by its target's resolved list, drops what it cannot resolve, and cuts cycles.
 */
module AclResolve {
  import opened AclMatch
  import opened Sorting

  type Registry = map<string, seq<Element>>

  // ----- what resolution produces

  /**
   The resolved form of a list, given the resolved acls and the names that are cut here: a
   reference that cannot be followed vanishes, unless it is negated, when it rejects all; so
   does a negated reference or group whose list comes out empty.
   */
  function Image(fin: Registry, cut: set<string>, es: seq<Element>): (r: seq<Element>)
    decreases es
  {
    if es == [] then [] else ImageOf(fin, cut, es[0]) + Image(fin, cut, es[1..])
  }

  function ImageOf(fin: Registry, cut: set<string>, e: Element): seq<Element>
    decreases e
  {
    match e.form
    case Ref(name, _) =>
      if name !in fin || name in cut then Unevaluable(e.negated)
      else if e.negated && fin[name] == [] then [REJECT_ALL]
      else [Element(e.negated, Ref(name, fin[name]))]
    case Group(body) =>
      var sub := Image(fin, cut, body);
      if e.negated && sub == [] then [REJECT_ALL] else [Element(e.negated, Group(sub))]
    case _ => [e]
  }

  function Unevaluable(negated: bool): seq<Element> {
    if negated then [REJECT_ALL] else []
  }

  predicate NeedsResolution(es: seq<Element>) {
    exists i :: 0 <= i < |es| && (es[i].form.Ref? || es[i].form.Group?)
  }

  lemma {:induction false} PlainListIsItsImage(fin: Registry, cut: set<string>, es: seq<Element>)
    requires !NeedsResolution(es)
    ensures Image(fin, cut, es) == es && Refs(es) == {}
  {
    if es != [] {
      PlainListIsItsImage(fin, cut, es[1..]);
    }
  }

  /** The acls a list names, in nested groups too. */
  function Refs(es: seq<Element>): set<string>
    decreases es
  {
    if es == [] then {} else RefsOf(es[0]) + Refs(es[1..])
  }

  function RefsOf(e: Element): set<string>
    decreases e
  {
    match e.form
    case Ref(name, _) => {name}
    case Group(body) => Refs(body)
    case _ => {}
  }

  lemma {:induction false} RefsMember(es: seq<Element>, i: nat)
    requires i < |es|
    ensures RefsOf(es[i]) <= Refs(es)
  {
    if i > 0 {
      RefsMember(es[1..], i - 1);
    }
  }

  lemma {:induction false} ImagePush(fin: Registry, cut: set<string>, es: seq<Element>, e: Element)
    ensures Image(fin, cut, es + [e]) == Image(fin, cut, es) + ImageOf(fin, cut, e)
    ensures Refs(es + [e]) == Refs(es) + RefsOf(e)
  {
    if es == [] {
      assert es + [e] == [e];
    } else {
      assert (es + [e])[1..] == es[1..] + [e];
      ImagePush(fin, cut, es[1..], e);
    }
  }

  /** fin and gin agree on every reference of the list that is followed. */
  ghost predicate AgreeOn(fin: Registry, gin: Registry, cut: set<string>, names: set<string>) {
    fin.Keys == gin.Keys && forall n :: n in names && n in fin && n !in cut ==> fin[n] == gin[n]
  }

  lemma {:induction false} ImageFrame(fin: Registry, gin: Registry, cut: set<string>, es: seq<Element>)
    requires AgreeOn(fin, gin, cut, Refs(es))
    ensures Image(fin, cut, es) == Image(gin, cut, es)
    decreases es
  {
    if es != [] {
      ImageFrame(fin, gin, cut, es[1..]);
      assert es decreases to es[0];
      RefsMember(es, 0);
      if es[0].form.Group? {
        ImageFrame(fin, gin, cut, es[0].form.body);
      }
      assert ImageOf(fin, cut, es[0]) == ImageOf(gin, cut, es[0]);
    }
  }

  // ----- the shape of a finished resolution

  /** A chain of acls each of which names the next. */
  ghost predicate Chain(reg: Registry, p: seq<string>) {
    && (forall i :: 0 <= i < |p| ==> p[i] in reg)
    && (forall i {:trigger p[i]} :: 0 < i < |p| ==> p[i] in Refs(reg[p[i - 1]]))
  }

  ghost predicate Reaches(reg: Registry, a: string, b: string) {
    exists p: seq<string> :: p != [] && p[0] == a && p[|p| - 1] == b && Chain(reg, p)
  }

  /**
   fin resolves reg: each acl holds the image of its list, where the names cut in it (above)
   are exactly acls that lead back to it, and the references that remain follow an order in
   which every acl comes after the ones it uses.
   */
  ghost predicate Resolves(reg: Registry, fin: Registry, above: map<string, set<string>>, order: seq<string>) {
    && fin.Keys == reg.Keys && above.Keys == reg.Keys
    && (forall n :: n in reg <==> n in order)
    && (forall n :: n in reg ==> fin[n] == Image(fin, above[n], reg[n]))
    && (forall n, m :: n in reg && m in above[n] ==> Reaches(reg, m, n))
    && (forall i, m :: 0 <= i < |order| && m in Refs(reg[order[i]]) && m in reg && m !in above[order[i]] ==> m in order[..i])
  }

  // ----- the walk

  /** The resolver's fields; state is 1 while an acl is being resolved, 2 after, absent before. */
  datatype Walk = Walk(reg: Registry, fin: Registry, state: map<string, int>,
                       above: map<string, set<string>>, order: seq<string>)

  predicate Done(w: Walk, n: string) {
    n in w.state && w.state[n] == 2
  }

  /** Every acl is untouched, on the stack, or done. */
  ghost predicate Placed(w: Walk, stack: seq<string>) {
    && w.fin.Keys == w.reg.Keys && w.state.Keys <= w.reg.Keys
    && (forall n :: n in w.state ==> w.state[n] == 1 || w.state[n] == 2)
    && (forall n :: n in stack <==> n in w.state && w.state[n] == 1)
    && (forall n :: n in w.reg && !Done(w, n) ==> w.fin[n] == w.reg[n])
    && (forall n :: n in w.order <==> Done(w, n))
    && (forall n :: n in w.above <==> Done(w, n))
  }

  ghost predicate Imaged(w: Walk) {
    forall n :: Done(w, n) ==> n in w.reg && n in w.fin && n in w.above && w.fin[n] == Image(w.fin, w.above[n], w.reg[n])
  }

  ghost predicate CutsLeadBack(w: Walk) {
    forall n, m :: Done(w, n) && n in w.above && m in w.above[n] ==> Reaches(w.reg, m, n)
  }

  /** The i-th acl of the order follows only references to earlier ones. */
  ghost predicate FollowsEarlier(w: Walk, i: nat)
    requires i < |w.order|
  {
    && w.order[i] in w.reg && w.order[i] in w.above
    && forall m :: m in Refs(w.reg[w.order[i]]) && m in w.reg && m !in w.above[w.order[i]] ==> m in w.order[..i]
  }

  ghost predicate Ordered(w: Walk) {
    forall i :: 0 <= i < |w.order| ==> FollowsEarlier(w, i)
  }

  /** stack holds the acls being resolved, outermost first. */
  ghost predicate Sound(w: Walk, stack: seq<string>) {
    Placed(w, stack) && Chain(w.reg, stack) && Imaged(w) && CutsLeadBack(w) && Ordered(w)
  }

  /** Everything finished in w is the same in v. */
  ghost predicate Extends(w: Walk, v: Walk) {
    && v.reg == w.reg && v.fin.Keys == w.fin.Keys && w.state.Keys <= v.state.Keys
    && (forall n :: Done(w, n) && n in w.fin ==> Done(v, n) && n in v.fin && v.fin[n] == w.fin[n])
  }

  function OnStack(stack: seq<string>): set<string> {
    set n | n in stack
  }

  /** Whether every reference a list follows is finished. */
  ghost predicate Settled(w: Walk, stack: seq<string>, names: set<string>) {
    forall m :: m in names && m in w.reg && m !in stack ==> Done(w, m)
  }

  /** The list being resolved belongs to the acl at the top of the stack. */
  ghost predicate Names(reg: Registry, stack: seq<string>, names: set<string>) {
    stack != [] ==> stack[|stack| - 1] in reg && names <= Refs(reg[stack[|stack| - 1]])
  }

  ghost function Unvisited(w: Walk): set<string> {
    w.reg.Keys - w.state.Keys
  }

  lemma ExtendsKeepsImage(w: Walk, v: Walk, stack: seq<string>, es: seq<Element>)
    requires Placed(w, stack) && Extends(w, v) && Settled(w, stack, Refs(es))
    ensures Image(v.fin, OnStack(stack), es) == Image(w.fin, OnStack(stack), es)
    ensures Settled(v, stack, Refs(es))
  {
    ImageFrame(w.fin, v.fin, OnStack(stack), es);
  }

  lemma StartKeeps(w: Walk, stack: seq<string>, name: string)
    requires Sound(w, stack) && name in w.reg && name !in w.state
    requires Names(w.reg, stack, {name})
    ensures var v := w.(state := w.state[name := 1]);
            Sound(v, stack + [name]) && Extends(w, v)
  {
    var v := w.(state := w.state[name := 1]);
    assert forall n :: Done(v, n) <==> Done(w, n);
    StartPlaces(w, stack, name);
    StartChains(w.reg, stack, name);
    StartOrders(w, name);
    assert Imaged(v) by { hide Placed, Chain, Ordered, CutsLeadBack, Image; }
    assert CutsLeadBack(v) by { hide Placed, Chain, Ordered, Imaged, Reaches; }
    hide Placed, Chain, Ordered, CutsLeadBack, Imaged;
  }

  lemma StartPlaces(w: Walk, stack: seq<string>, name: string)
    requires Placed(w, stack) && name in w.reg && name !in w.state
    ensures Placed(w.(state := w.state[name := 1]), stack + [name])
  {
    var v, inner := w.(state := w.state[name := 1]), stack + [name];
    assert forall n :: Done(v, n) <==> Done(w, n);
    assert forall n :: n in inner <==> n in stack || n == name;
  }

  lemma StartChains(reg: Registry, stack: seq<string>, name: string)
    requires Chain(reg, stack) && name in reg && Names(reg, stack, {name})
    ensures Chain(reg, stack + [name])
  {
    hide Refs;
    var inner := stack + [name];
    assert forall i :: 0 <= i < |stack| ==> inner[i] == stack[i];
  }

  lemma StartOrders(w: Walk, name: string)
    requires Ordered(w)
    ensures Ordered(w.(state := w.state[name := 1]))
  {
    var v := w.(state := w.state[name := 1]);
    forall i | 0 <= i < |w.order| ensures FollowsEarlier(v, i) {
      assert FollowsEarlier(w, i);
    }
  }

  lemma StackReaches(reg: Registry, stack: seq<string>, m: string)
    requires Chain(reg, stack) && m in stack
    ensures Reaches(reg, m, stack[|stack| - 1])
  {
    hide Refs;
    var i :| 0 <= i < |stack| && stack[i] == m;
    var p := stack[i..];
    forall j | 0 < j < |p| ensures p[j] in Refs(reg[p[j - 1]]) {
      assert p[j] == stack[i + j];
    }
    assert Chain(reg, p);
  }

  function Finished(w: Walk, stack: seq<string>, name: string, out: seq<Element>): Walk {
    Walk(w.reg, w.fin[name := out], w.state[name := 2], w.above[name := OnStack(stack + [name])], w.order + [name])
  }

  /** The acl at the top of the stack, ready to be finished. */
  ghost predicate Closing(w: Walk, stack: seq<string>, name: string, out: seq<Element>) {
    && Sound(w, stack + [name]) && name !in stack && name in w.reg
    && name in w.state && w.state[name] == 1
    && out == Image(w.fin, OnStack(stack + [name]), w.reg[name])
    && Settled(w, stack + [name], Refs(w.reg[name]))
  }

  lemma FinishKeeps(w: Walk, stack: seq<string>, name: string, out: seq<Element>)
    requires Closing(w, stack, name, out)
    ensures Sound(Finished(w, stack, name, out), stack)
    ensures Extends(w, Finished(w, stack, name, out))
  {
    FinishPlaces(w, stack, name, out);
    FinishImages(w, stack, name, out);
    FinishLeadsBack(w, stack, name, out);
    FinishOrders(w, stack, name, out);
    hide Closing;
  }

  lemma FinishPlaces(w: Walk, stack: seq<string>, name: string, out: seq<Element>)
    requires Closing(w, stack, name, out)
    ensures var v := Finished(w, stack, name, out); Placed(v, stack) && Chain(v.reg, stack) && Extends(w, v)
  {
    hide Image, Refs, Imaged, CutsLeadBack, Ordered, Settled;
    var inner := stack + [name];
    ChainPrefix(w.reg, stack, name);
    assert forall n :: n in inner <==> n in stack || n == name;
    hide Chain;
    PlacedPop(w, stack, name, out);
  }

  lemma ChainPrefix(reg: Registry, stack: seq<string>, name: string)
    requires Chain(reg, stack + [name])
    ensures Chain(reg, stack)
  {
    hide Refs;
    var inner := stack + [name];
    assert forall i :: 0 <= i < |stack| ==> stack[i] == inner[i];
  }

  lemma PlacedPop(w: Walk, stack: seq<string>, name: string, out: seq<Element>)
    requires Placed(w, stack + [name]) && name !in stack && name in w.reg && name in w.state && w.state[name] == 1
    ensures var v := Finished(w, stack, name, out); Placed(v, stack) && Extends(w, v)
  {
    hide OnStack;
    var v, inner := Finished(w, stack, name, out), stack + [name];
    assert forall n :: Done(v, n) <==> Done(w, n) || n == name;
    forall n ensures n in stack <==> n in v.state && v.state[n] == 1 {
      assert n in inner <==> n in stack || n == name;
    }
    forall n ensures n in v.order <==> Done(v, n) {
      assert n in v.order <==> n in w.order || n == name;
    }
  }

  lemma FinishLeadsBack(w: Walk, stack: seq<string>, name: string, out: seq<Element>)
    requires Closing(w, stack, name, out)
    ensures CutsLeadBack(Finished(w, stack, name, out))
  {
    hide Reaches, Imaged, Ordered;
    var v := Finished(w, stack, name, out);
    forall n, m | Done(v, n) && m in v.above[n] ensures Reaches(v.reg, m, n) {
      if n == name {
        StackReaches(w.reg, stack + [name], m);
      } else {
        assert Done(w, n);
      }
    }
  }

  lemma FinishOrders(w: Walk, stack: seq<string>, name: string, out: seq<Element>)
    requires Closing(w, stack, name, out)
    ensures Ordered(Finished(w, stack, name, out))
  {
    hide Reaches, Imaged, CutsLeadBack;
    var v := Finished(w, stack, name, out);
    forall i | 0 <= i < |v.order| ensures FollowsEarlier(v, i) {
      if i < |w.order| {
        assert FollowsEarlier(w, i);
        assert v.order[i] == w.order[i] && v.order[..i] == w.order[..i];
        assert w.order[i] in w.order && Done(w, w.order[i]);
      } else {
        assert v.order[..i] == w.order;
      }
    }
  }

  lemma FinishImages(w: Walk, stack: seq<string>, name: string, out: seq<Element>)
    requires Closing(w, stack, name, out)
    ensures Imaged(Finished(w, stack, name, out))
  {
    var v := Finished(w, stack, name, out);
    forall n | Done(v, n)
      ensures n in v.reg && n in v.fin && n in v.above && v.fin[n] == Image(v.fin, v.above[n], v.reg[n])
    {
      if n != name {
        assert Done(w, n);
        var i :| 0 <= i < |w.order| && w.order[i] == n;
        assert FollowsEarlier(w, i);
        assert forall m :: m in w.order[..i] ==> m in w.order;
      }
      ImageFrame(w.fin, v.fin, v.above[n], w.reg[n]);
    }
  }

  class Resolver {
    var registry: Registry
    var state: map<string, int>
    ghost const original: Registry
    ghost var above: map<string, set<string>>
    ghost var order: seq<string>

    ghost function View(): Walk
      reads this
    {
      Walk(original, registry, state, above, order)
    }

    constructor (acls: Registry)
      ensures Sound(View(), []) && original == acls && state == map[]
    {
      registry, state, original, above, order := acls, map[], acls, map[], [];
    }

    /** Resolves every acl, in name order, then every view's list. */
    method ResolveReferences(views: seq<seq<Element>>) returns (resolved: seq<seq<Element>>)
      requires Sound(View(), [])
      modifies this
      ensures Resolves(original, registry, above, order)
      ensures |resolved| == |views| && forall i :: 0 <= i < |views| ==> resolved[i] == Image(registry, {}, views[i])
    {
      Placement(View(), []);
      TextLeqIsTotalPreorder();
      var names := SortSet(registry.Keys, TextLeq);
      ResolveACLs(names);
      hide *;
      resolved := ResolveViews(views);
      AllVisitedResolves(View());
    }

    method ResolveACLs(names: seq<string>)
      requires Sound(View(), []) && forall n :: n in original <==> n in names
      modifies this
      ensures Sound(View(), []) && forall n :: n in original ==> n in state
    {
      hide Sound, Extends, Image, Refs, Resolved, Names;
      for i := 0 to |names|
        invariant Sound(View(), [])
        invariant forall j :: 0 <= j < i ==> names[j] in state
      {
        ghost var before := View();
        NamesAnything(original, {names[i]});
        ResolveACL(names[i], []);
        StillVisited(before, View());
      }
      forall n | n in original ensures n in state {
        var j :| 0 <= j < |names| && names[j] == n;
      }
    }

    method ResolveViews(views: seq<seq<Element>>) returns (resolved: seq<seq<Element>>)
      requires Sound(View(), []) && forall n :: n in original ==> n in state
      modifies this
      ensures Sound(View(), []) && forall n :: n in original ==> n in state
      ensures |resolved| == |views| && forall i :: 0 <= i < |views| ==> resolved[i] == Image(registry, {}, views[i])
    {
      hide Sound, Extends, Image, Refs, Resolved, Names;
      ghost var w := View();
      resolved := [];
      for i := 0 to |views|
        invariant Sound(View(), []) && registry == w.fin
        invariant forall n :: n in original ==> n in state
        invariant |resolved| == i && forall j :: 0 <= j < i ==> resolved[j] == Image(w.fin, {}, views[j])
      {
        ghost var before := View();
        NamesAnything(original, Refs(views[i]));
        var list := ResolveList(views[i], []);
        StillVisited(before, View());
        NothingLeft(before, View());
        ResolvedImage(View(), views[i], list);
        resolved := resolved + [list];
      }
    }

    /** Resolves one acl in place, unless that is done or under way. */
    method ResolveACL(name: string, ghost stack: seq<string>)
      requires Sound(View(), stack) && Names(original, stack, {name}) && name in original
      modifies this
      ensures Sound(View(), stack) && Extends(old(View()), View()) && name in state
      decreases Unvisited(View()), 0
    {
      hide *;
      if name in state {
        ExtendsItself(View());
        return;
      }
      ghost var w0 := View();
      var list := Begin(name, stack);
      ghost var w1 := View();
      var out := ResolveList(list, stack + [name]);
      ghost var w2 := View();
      Finish(name, out, stack);
      ExtendsAll(w0, w1, w2, View());
    }

    method Begin(name: string, ghost stack: seq<string>) returns (list: seq<Element>)
      requires Sound(View(), stack) && Names(original, stack, {name}) && name in original && name !in state
      modifies this`state
      ensures list == original[name] && name !in stack && Names(original, stack + [name], Refs(list))
      ensures Sound(View(), stack + [name]) && Extends(old(View()), View())
      ensures Unvisited(View()) < old(Unvisited(View()))
    {
      Untouched(View(), stack, name);
      StartKeeps(View(), stack, name);
      hide Sound, Extends, Refs;
      ghost var w := View();
      state := state[name := 1];
      assert state.Keys == w.state.Keys + {name};
      assert name in Unvisited(w);
      list := registry[name];
    }

    /** Stores the resolved list back into the registry. */
    method Finish(name: string, out: seq<Element>, ghost stack: seq<string>)
      requires name in original && name !in stack
      requires Resolved(View(), stack + [name], original[name], out)
      modifies this
      ensures Sound(View(), stack) && Extends(old(View()), View()) && name in state
    {
      Close(View(), stack, name, out);
      FinishKeeps(View(), stack, name, out);
      hide Sound, Extends, Image, Settled;
      registry := registry[name := out];
      state := state[name := 2];
      above := above[name := OnStack(stack + [name])];
      order := order + [name];
    }

    /** The list with its references resolved and groups rewritten. */
    method ResolveList(es: seq<Element>, ghost stack: seq<string>) returns (out: seq<Element>)
      requires Sound(View(), stack) && Names(original, stack, Refs(es))
      modifies this
      ensures Extends(old(View()), View()) && Resolved(View(), stack, es, out)
      decreases Unvisited(View()), 1, es
    {
      hide Sound, Extends, Image, ImageOf, Settled, Refs, RefsOf, Resolved, Names, Unvisited, NeedsResolution;
      ExtendsItself(View());
      if !NeedsResolution(es) {
        PlainListResolved(View(), stack, es);
        return es;
      }
      PlainListResolved(View(), stack, []);
      out := [];
      var i := 0;
      assert es[..i] == [];
      while i < |es|
        invariant 0 <= i <= |es|
        invariant Extends(old(View()), View()) && Resolved(View(), stack, es[..i], out)
      {
        ghost var before := View();
        NextElement(old(View()), before, stack, es, i, out);
        assert es decreases to es[i];
        var one := ResolveElement(es[i], stack);
        ElementDone(old(View()), before, View(), stack, es, i, out, one);
        out := out + one;
        i := i + 1;
      }
      assert es[..|es|] == es;
    }

    /** What one element turns into. */
    method ResolveElement(el: Element, ghost stack: seq<string>) returns (out: seq<Element>)
      requires Sound(View(), stack)
      requires Names(original, stack, RefsOf(el))
      modifies this
      ensures Sound(View(), stack) && Extends(old(View()), View())
      ensures out == ImageOf(registry, OnStack(stack), el)
      ensures Settled(View(), stack, RefsOf(el))
      decreases Unvisited(View()), 1, el
    {
      Placement(View(), stack);
      hide Sound, Extends, Image, ImageOf, Settled, Refs, Resolved;
      ExtendsItself(View());
      match el.form
      case Ref(name, _) =>
        if name !in registry {
          LostReference(View(), stack, el);
          return Unevaluable(el.negated);
        }
        if name in state && state[name] == 1 {
          LostReference(View(), stack, el);
          return Unevaluable(el.negated);
        }
        ResolveACL(name, stack);
        FollowedReference(View(), stack, el);
        var sub := registry[name];
        if el.negated && |sub| == 0 {
          return [REJECT_ALL];
        }
        return [Element(el.negated, Ref(name, sub))];
      case Group(body) =>
        var sub := ResolveList(body, stack);
        ResolvedGroup(View(), stack, el, sub);
        if el.negated && |sub| == 0 {
          return [REJECT_ALL];
        }
        return [Element(el.negated, Group(sub))];
      case _ =>
        PlainElement(View(), stack, el);
        return [el];
    }
  }

  lemma Untouched(w: Walk, stack: seq<string>, name: string)
    requires Sound(w, stack) && name in w.reg && name !in w.state
    ensures name in w.fin && w.fin[name] == w.reg[name] && name !in stack
  {
  }

  lemma Close(w: Walk, stack: seq<string>, name: string, out: seq<Element>)
    requires Sound(w, stack + [name]) && name !in stack && name in w.reg
    requires out == Image(w.fin, OnStack(stack + [name]), w.reg[name])
    requires Settled(w, stack + [name], Refs(w.reg[name]))
    ensures Closing(w, stack, name, out)
  {
    assert (stack + [name])[|stack|] == name;
  }

  /** The part of a list resolved so far. */
  ghost predicate Resolved(w: Walk, stack: seq<string>, es: seq<Element>, out: seq<Element>) {
    Sound(w, stack) && out == Image(w.fin, OnStack(stack), es) && Settled(w, stack, Refs(es))
  }

  lemma ResolvedPush(w: Walk, v: Walk, stack: seq<string>, es: seq<Element>, out: seq<Element>, el: Element, one: seq<Element>)
    requires Resolved(w, stack, es, out) && Extends(w, v) && Sound(v, stack)
    requires one == ImageOf(v.fin, OnStack(stack), el) && Settled(v, stack, RefsOf(el))
    ensures Resolved(v, stack, es + [el], out + one)
  {
    ImagePush(v.fin, OnStack(stack), es, el);
    SoundIsPlaced(w, stack);
    ExtendsKeepsImage(w, v, stack, es);
    hide Sound, Extends, Image, ImageOf, Refs, RefsOf;
  }

  lemma LostReference(w: Walk, stack: seq<string>, el: Element)
    requires el.form.Ref? && (el.form.name !in w.fin || el.form.name in stack) && Sound(w, stack)
    ensures ImageOf(w.fin, OnStack(stack), el) == Unevaluable(el.negated) && Settled(w, stack, RefsOf(el))
  {
    Placement(w, stack);
    hide Sound;
  }

  lemma FollowedReference(w: Walk, stack: seq<string>, el: Element)
    requires el.form.Ref? && Sound(w, stack) && el.form.name in w.reg && el.form.name !in stack && el.form.name in w.state
    ensures el.form.name in w.fin && Settled(w, stack, RefsOf(el))
    ensures var sub := w.fin[el.form.name];
            ImageOf(w.fin, OnStack(stack), el) ==
            if el.negated && sub == [] then [REJECT_ALL] else [Element(el.negated, Ref(el.form.name, sub))]
  {
    Placement(w, stack);
    hide Sound;
  }

  lemma ResolvedGroup(w: Walk, stack: seq<string>, el: Element, sub: seq<Element>)
    requires el.form.Group? && Resolved(w, stack, el.form.body, sub)
    ensures Sound(w, stack) && Settled(w, stack, RefsOf(el))
    ensures ImageOf(w.fin, OnStack(stack), el) ==
            if el.negated && sub == [] then [REJECT_ALL] else [Element(el.negated, Group(sub))]
  {
    hide Sound, Settled;
  }

  lemma PlainElement(w: Walk, stack: seq<string>, el: Element)
    requires !el.form.Ref? && !el.form.Group?
    ensures ImageOf(w.fin, OnStack(stack), el) == [el] && Settled(w, stack, RefsOf(el))
  {
  }

  lemma PlainListResolved(w: Walk, stack: seq<string>, es: seq<Element>)
    requires Sound(w, stack) && (es == [] || !NeedsResolution(es))
    ensures Resolved(w, stack, es, es)
  {
    PlainListIsItsImage(w.fin, OnStack(stack), es);
    hide Sound;
  }

  /** The list resolved up to i leaves its next element ready to resolve. */
  lemma NextElement(start: Walk, w: Walk, stack: seq<string>, es: seq<Element>, i: nat, out: seq<Element>)
    requires i < |es| && Extends(start, w) && Resolved(w, stack, es[..i], out) && Names(start.reg, stack, Refs(es))
    ensures Sound(w, stack) && Names(start.reg, stack, RefsOf(es[i])) && Unvisited(w) <= Unvisited(start)
  {
    ElementNames(start.reg, stack, es, i);
    ResolvedIsSound(w, stack, es[..i], out);
    FewerUnvisited(start, w);
    hide *;
  }

  lemma ElementDone(start: Walk, w: Walk, v: Walk, stack: seq<string>, es: seq<Element>, i: nat, out: seq<Element>, one: seq<Element>)
    requires i < |es| && Extends(start, w) && Resolved(w, stack, es[..i], out)
    requires Sound(v, stack) && Extends(w, v)
    requires one == ImageOf(v.fin, OnStack(stack), es[i]) && Settled(v, stack, RefsOf(es[i]))
    ensures Extends(start, v) && Resolved(v, stack, es[..i + 1], out + one)
  {
    hide *;
    ExtendsItself(v);
    ExtendsAll(start, w, v, v);
    ResolvedPush(w, v, stack, es[..i], out, es[i], one);
    assert es[..i + 1] == es[..i] + [es[i]];
  }

  lemma ElementNames(reg: Registry, stack: seq<string>, es: seq<Element>, i: nat)
    requires i < |es| && Names(reg, stack, Refs(es))
    ensures Names(reg, stack, RefsOf(es[i]))
  {
    RefsMember(es, i);
  }

  lemma ResolvedIsSound(w: Walk, stack: seq<string>, es: seq<Element>, out: seq<Element>)
    requires Resolved(w, stack, es, out)
    ensures Sound(w, stack)
  {
  }

  lemma Placement(w: Walk, stack: seq<string>)
    requires Sound(w, stack)
    ensures w.fin.Keys == w.reg.Keys
    ensures forall n :: n in w.state ==> w.state[n] == 1 || w.state[n] == 2
    ensures forall n :: n in stack <==> n in w.state && w.state[n] == 1
  {
  }

  lemma NamesAnything(reg: Registry, names: set<string>)
    ensures Names(reg, [], names)
  {
  }

  lemma StillVisited(w: Walk, v: Walk)
    requires Extends(w, v)
    ensures forall n :: n in w.state ==> n in v.state
  {
  }

  /** With nothing left on the stack and every acl visited, the resolution is finished. */
  lemma AllVisitedResolves(w: Walk)
    requires Sound(w, []) && forall n :: n in w.reg ==> n in w.state
    ensures Resolves(w.reg, w.fin, w.above, w.order)
  {
    hide Image, Refs, Reaches;
    assert forall n :: n in w.reg <==> Done(w, n);
    forall i, m | 0 <= i < |w.order| && m in Refs(w.reg[w.order[i]]) && m in w.reg && m !in w.above[w.order[i]]
      ensures m in w.order[..i]
    {
      assert FollowsEarlier(w, i);
    }
  }

  lemma NothingLeft(w: Walk, v: Walk)
    requires Sound(w, []) && Extends(w, v) && forall n :: n in w.reg ==> n in w.state
    ensures v.fin == w.fin
  {
    assert forall n :: n in w.fin ==> Done(w, n);
  }

  lemma ResolvedImage(w: Walk, es: seq<Element>, out: seq<Element>)
    requires Resolved(w, [], es, out)
    ensures Sound(w, []) && out == Image(w.fin, {}, es)
  {
    assert OnStack([]) == {};
  }

  lemma FewerUnvisited(w: Walk, v: Walk)
    requires Extends(w, v)
    ensures Unvisited(v) <= Unvisited(w)
  {
  }

  lemma ExtendsItself(w: Walk)
    ensures Extends(w, w)
  {
  }

  lemma ExtendsAll(w0: Walk, w1: Walk, w2: Walk, w3: Walk)
    requires Extends(w0, w1) && Extends(w1, w2) && Extends(w2, w3)
    ensures Extends(w0, w3)
  {
  }

  lemma SoundIsPlaced(w: Walk, stack: seq<string>)
    requires Sound(w, stack)
    ensures Placed(w, stack)
  {
  }
}
