/**
 Address-match lists (internal/config/match.go) and their evaluation (internal/view/matcher.go).
 The first element that fires decides a list: a plain one accepts, a negated one rejects.
 */
module AclMatch {
  datatype Leaf = Country(code: string) | Asn(number: nat) | Ip(addr: string) | Cidr(prefix: string)

  datatype Element = Element(negated: bool, form: Form)

  /** Ref.sub is the resolved target; it is [] before resolution. */
  datatype Form = Test(leaf: Leaf) | Any | None | Localhost | Localnets
                | Ref(name: string, sub: seq<Element>) | Group(body: seq<Element>)

  const REJECT_ALL := Element(true, Any)

  const MAX_DEPTH: nat := 64

  /** What the address lookups answer for one client. */
  datatype Client = Client(matches: Leaf -> bool, localhost: bool, localnets: bool)

  /** The lists a view holds after resolution, evaluated as the server does. */
  predicate ListAccepts(es: seq<Element>, c: Client, depth: nat)
    decreases es
  {
    if depth > MAX_DEPTH || es == [] then false
    else if ElementFires(es[0], c, depth) then !es[0].negated
    else ListAccepts(es[1..], c, depth)
  }

  predicate ElementFires(e: Element, c: Client, depth: nat)
    decreases e
  {
    match e.form
    case Any => true
    case None => false
    case Localhost => c.localhost
    case Localnets => c.localnets
    case Test(leaf) => c.matches(leaf)
    case Ref(_, sub) => ListAccepts(sub, c, depth + 1)
    case Group(body) => ListAccepts(body, c, depth + 1)
  }

  /** The same evaluation without a depth limit, asking `stands` what each reference accepts. */
  predicate Evaluate(es: seq<Element>, c: Client, stands: string -> bool)
    decreases es
  {
    if es == [] then false
    else if Fires(es[0], c, stands) then !es[0].negated
    else Evaluate(es[1..], c, stands)
  }

  predicate Fires(e: Element, c: Client, stands: string -> bool)
    decreases e
  {
    match e.form
    case Any => true
    case None => false
    case Localhost => c.localhost
    case Localnets => c.localnets
    case Test(leaf) => c.matches(leaf)
    case Ref(name, _) => stands(name)
    case Group(body) => Evaluate(body, c, stands)
  }

  /** Evaluation of resolved lists without the depth limit. */
  predicate Accepts(es: seq<Element>, c: Client)
    decreases es
  {
    if es == [] then false
    else if FiresResolved(es[0], c) then !es[0].negated
    else Accepts(es[1..], c)
  }

  predicate FiresResolved(e: Element, c: Client)
    decreases e
  {
    match e.form
    case Any => true
    case None => false
    case Localhost => c.localhost
    case Localnets => c.localnets
    case Test(leaf) => c.matches(leaf)
    case Ref(_, sub) => Accepts(sub, c)
    case Group(body) => Accepts(body, c)
  }

  function Max(a: nat, b: nat): nat {
    if a > b then a else b
  }

  /** How many levels of groups and resolved references a list holds. */
  function Height(es: seq<Element>): nat
    decreases es
  {
    if es == [] then 0 else Max(HeightOf(es[0]), Height(es[1..]))
  }

  function HeightOf(e: Element): nat
    decreases e
  {
    match e.form
    case Ref(_, sub) => 1 + Height(sub)
    case Group(body) => 1 + Height(body)
    case _ => 0
  }

  /** Within the depth limit the limit is invisible. */
  lemma {:induction false} DepthIsInvisible(es: seq<Element>, c: Client, depth: nat)
    requires depth + Height(es) <= MAX_DEPTH
    ensures ListAccepts(es, c, depth) == Accepts(es, c)
    decreases es
  {
    if es != [] {
      DepthIsInvisible(es[1..], c, depth);
      assert es decreases to es[0];
      match es[0].form
      case Ref(_, sub) => DepthIsInvisible(sub, c, depth + 1);
      case Group(body) => DepthIsInvisible(body, c, depth + 1);
      case _ =>
    }
  }

  /** First match decides: a list accepts when some plain element fires and none before it does. */
  lemma {:induction false} FirstMatchDecides(es: seq<Element>, c: Client, depth: nat)
    ensures ListAccepts(es, c, depth) <==>
            && depth <= 64
            && exists i :: 0 <= i < |es| && ElementFires(es[i], c, depth) && !es[i].negated &&
                 forall j :: 0 <= j < i ==> !ElementFires(es[j], c, depth)
  {
    if es != [] {
      FirstMatchDecides(es[1..], c, depth);
      hide ElementFires;
      assert forall i :: 0 <= i < |es| - 1 ==> es[1..][i] == es[i + 1];
      if depth <= 64 && !ElementFires(es[0], c, depth) {
        if ListAccepts(es[1..], c, depth) {
          var i :| 0 <= i < |es[1..]| && ElementFires(es[1..][i], c, depth) && !es[1..][i].negated &&
                   forall j :: 0 <= j < i ==> !ElementFires(es[1..][j], c, depth);
          assert ElementFires(es[i + 1], c, depth);
          assert forall j :: 1 <= j < i + 1 ==> es[j] == es[1..][j - 1];
        }
        if exists i :: 0 <= i < |es| && ElementFires(es[i], c, depth) && !es[i].negated &&
             forall j :: 0 <= j < i ==> !ElementFires(es[j], c, depth) {
          var i :| 0 <= i < |es| && ElementFires(es[i], c, depth) && !es[i].negated &&
                   forall j :: 0 <= j < i ==> !ElementFires(es[j], c, depth);
          assert es[1..][i - 1] == es[i];
          assert forall j :: 0 <= j < i - 1 ==> es[1..][j] == es[j + 1];
        }
      }
    }
  }

  /** A single element, alone or negated in front of `any`. */
  lemma SingleElements(f: Form, c: Client)
    ensures ListAccepts([Element(false, f)], c, 0) == ElementFires(Element(false, f), c, 0)
    ensures ListAccepts([Element(true, f), Element(false, Any)], c, 0) == !ElementFires(Element(false, f), c, 0)
  {
    assert [Element(false, f)][1..] == [] && [Element(true, f), Element(false, Any)][1..] == [Element(false, Any)];
    assert [Element(false, Any)][1..] == [];
    assert ElementFires(Element(true, f), c, 0) == ElementFires(Element(false, f), c, 0);
  }

  /** Whom each single element accepts. */
  lemma SingleElementsAccept(c: Client, leaf: Leaf, name: string, body: seq<Element>)
    ensures ListAccepts([Element(false, Any)], c, 0) && !ListAccepts([Element(false, None)], c, 0)
    ensures ListAccepts([Element(false, Localhost)], c, 0) == c.localhost
    ensures ListAccepts([Element(false, Localnets)], c, 0) == c.localnets
    ensures ListAccepts([Element(false, Test(leaf))], c, 0) == c.matches(leaf)
    ensures ListAccepts([Element(false, Group(body))], c, 0) == ListAccepts(body, c, 1)
    ensures ListAccepts([Element(false, Ref(name, body))], c, 0) == ListAccepts(body, c, 1)
  {
    SingleElements(Any, c);
    SingleElements(None, c);
    SingleElements(Localhost, c);
    SingleElements(Localnets, c);
    SingleElements(Test(leaf), c);
    SingleElements(Group(body), c);
    SingleElements(Ref(name, body), c);
  }

  /** `any` inside k groups. */
  function Nested(k: nat): seq<Element> {
    [Element(false, if k == 0 then Any else Group(Nested(k - 1)))]
  }

  /** Sixty-four levels of groups are looked into, and no more. */
  lemma {:induction false} DepthLimit(k: nat, c: Client, depth: nat)
    ensures ListAccepts(Nested(k), c, depth) <==> depth + k <= 64
    decreases k
  {
    assert Nested(k)[1..] == [];
    if k > 0 {
      DepthLimit(k - 1, c, depth + 1);
    }
  }

  // ----- when the geographic databases are needed

  /** Whether some view needs the country or AS-number database. */
  predicate HasGeoLeaf(es: seq<Element>, depth: nat)
    decreases es
  {
    if depth > MAX_DEPTH || es == [] then false
    else GeoElement(es[0], depth) || HasGeoLeaf(es[1..], depth)
  }

  predicate GeoElement(e: Element, depth: nat)
    decreases e
  {
    match e.form
    case Test(leaf) => leaf.Country? || leaf.Asn?
    case Ref(_, sub) => HasGeoLeaf(sub, depth + 1)
    case Group(body) => HasGeoLeaf(body, depth + 1)
    case _ => false
  }

  /** Two clients that differ at most in what the databases say about them. */
  ghost predicate SameNetwork(c: Client, d: Client) {
    && c.localhost == d.localhost && c.localnets == d.localnets
    && forall leaf: Leaf :: !(leaf.Country? || leaf.Asn?) ==> c.matches(leaf) == d.matches(leaf)
  }

  /** A list in which the scan finds no geographic leaf never consults the databases. */
  lemma {:induction false} NoGeoLeafNeedsNoDatabase(es: seq<Element>, c: Client, d: Client, depth: nat)
    requires SameNetwork(c, d) && !HasGeoLeaf(es, depth)
    ensures ListAccepts(es, c, depth) == ListAccepts(es, d, depth)
    decreases es
  {
    if depth <= MAX_DEPTH && es != [] {
      NoGeoLeafNeedsNoDatabase(es[1..], c, d, depth);
      assert es decreases to es[0];
      match es[0].form
      case Ref(_, sub) => NoGeoLeafNeedsNoDatabase(sub, c, d, depth + 1);
      case Group(body) => NoGeoLeafNeedsNoDatabase(body, c, d, depth + 1);
      case _ =>
    }
  }

  /** Every test in a list, in nested groups and resolved references too. */
  function Leaves(es: seq<Element>): set<Leaf>
    decreases es
  {
    if es == [] then {} else LeavesOf(es[0]) + Leaves(es[1..])
  }

  function LeavesOf(e: Element): set<Leaf>
    decreases e
  {
    match e.form
    case Test(leaf) => {leaf}
    case Ref(_, sub) => Leaves(sub)
    case Group(body) => Leaves(body)
    case _ => {}
  }

  /** Within the depth limit the scan finds a geographic leaf exactly when there is one. */
  lemma {:induction false} GeoLeafIsFound(es: seq<Element>, depth: nat)
    requires depth + Height(es) <= 64
    ensures HasGeoLeaf(es, depth) <==> exists leaf :: leaf in Leaves(es) && (leaf.Country? || leaf.Asn?)
    decreases es
  {
    if es != [] {
      GeoLeafIsFound(es[1..], depth);
      assert es decreases to es[0];
      match es[0].form
      case Ref(_, sub) => GeoLeafIsFound(sub, depth + 1);
      case Group(body) => GeoLeafIsFound(body, depth + 1);
      case _ =>
    }
  }
}
