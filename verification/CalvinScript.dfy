/** CalvinScript programs as the parser delivers them, and what they mean.

    A structure declares actors and links between their ports. An actor is a leaf or an instance
    of a component, which has a structure of its own. Component definitions form a tree here. */
module CalvinScript {

  /** In a link, the name of the enclosing component: its own ports are `.port`. */
  const SELF: string := "."

  datatype Conn = Conn(src: string, srcPort: string, dst: string, dstPort: string)

  datatype Instance =
    | Leaf(ins: seq<string>, outs: seq<string>)
    | Comp(ins: seq<string>, outs: seq<string>, body: Structure)

  datatype Decl = Decl(name: string, kind: Instance)

  datatype Structure = Structure(actors: seq<Decl>, conns: seq<Conn>)

  function IndexOf(ds: seq<Decl>, a: string): (i: int)
    ensures -1 <= i < |ds|
    ensures i >= 0 ==> ds[i].name == a
    ensures i == -1 ==> forall j :: 0 <= j < |ds| ==> ds[j].name != a
  {
    if ds == [] then -1
    else if ds[|ds| - 1].name == a then |ds| - 1
    else IndexOf(ds[..|ds| - 1], a)
  }

  predicate Declared(s: Structure, a: string) { IndexOf(s.actors, a) >= 0 }

  predicate IsComp(s: Structure, a: string) {
    Declared(s, a) && s.actors[IndexOf(s.actors, a)].kind.Comp?
  }

  predicate IsLeaf(s: Structure, a: string) {
    Declared(s, a) && s.actors[IndexOf(s.actors, a)].kind.Leaf?
  }

  function Body(s: Structure, a: string): (b: Structure)
    requires IsComp(s, a)
    ensures b < s
  {
    s.actors[IndexOf(s.actors, a)].kind.body
  }

  // ------------------------------------------------------ direct path semantics

  datatype Dir = In | Out

  /** A port: of the actor found by following `path` down from the structure, or, when the path
      is empty, of the component the structure belongs to. */
  datatype Node = Node(path: seq<string>, dir: Dir, port: string)

  function SrcNode(c: Conn): Node {
    if c.src == SELF then Node([], In, c.srcPort) else Node([c.src], Out, c.srcPort)
  }

  function DstNode(c: Conn): Node {
    if c.dst == SELF then Node([], Out, c.dstPort) else Node([c.dst], In, c.dstPort)
  }

  function Within(a: string, x: Node): Node { x.(path := [a] + x.path) }

  function Inner(x: Node): Node
    requires x.path != []
  {
    x.(path := x.path[1..])
  }

  /** A link of the structure itself. */
  predicate OwnLink(s: Structure, x: Node, y: Node) {
    exists c :: c in s.conns && x == SrcNode(c) && y == DstNode(c)
  }

  /** A link of the structure or of a component nested in it, at any depth. */
  predicate Link(s: Structure, x: Node, y: Node)
    decreases s
  {
    || OwnLink(s, x, y)
    || (x.path != [] && y.path != [] && x.path[0] == y.path[0] && IsComp(s, x.path[0])
        && Link(Body(s, x.path[0]), Inner(x), Inner(y)))
  }

  /** A walk along links, through component boundaries in either direction. */
  predicate Walk(s: Structure, xs: seq<Node>) {
    forall i :: 0 <= i < |xs| - 1 ==> Link(s, xs[i], xs[i + 1])
  }

  predicate OfLeaf(s: Structure, x: Node)
    decreases |x.path|
  {
    && x.path != []
    && if |x.path| == 1 then IsLeaf(s, x.path[0])
       else IsComp(s, x.path[0]) && OfLeaf(Body(s, x.path[0]), Inner(x))
  }

  /** Tokens written to leaf outport x arrive at leaf inport y. */
  ghost predicate Feeds(s: Structure, x: Node, y: Node) {
    && x.dir == Out && y.dir == In && OfLeaf(s, x) && OfLeaf(s, y)
    && exists xs :: |xs| >= 2 && xs[0] == x && xs[|xs| - 1] == y && Walk(s, xs)
  }

  // ------------------------------------------------------ what the checker accepts

  /** How many of the first i links lead into port q of a. */
  function IntoCount(s: Structure, i: nat, a: string, q: string): nat
    requires i <= |s.conns|
  {
    if i == 0 then 0
    else IntoCount(s, i - 1, a, q) + if s.conns[i - 1].dst == a && s.conns[i - 1].dstPort == q then 1 else 0
  }

  predicate Into(s: Structure, a: string, q: string) {
    exists i :: 0 <= i < |s.conns| && s.conns[i].dst == a && s.conns[i].dstPort == q
  }

  predicate OutOf(s: Structure, a: string, q: string) {
    exists i :: 0 <= i < |s.conns| && s.conns[i].src == a && s.conns[i].srcPort == q
  }

  /** undeclared_actors finds nothing. */
  predicate AllDeclared(s: Structure) {
    forall c :: c in s.conns ==>
      (c.src == SELF || Declared(s, c.src)) && (c.dst == SELF || Declared(s, c.dst))
  }

  /** check_actor_connections for one declaration. */
  predicate ActorLinked(s: Structure, d: Decl) {
    && (forall c :: c in s.conns ==>
          && (c.dst == d.name ==> c.dstPort in d.kind.ins)
          && (c.src == d.name ==> c.srcPort in d.kind.outs))
    && (forall q :: q in d.kind.ins ==> IntoCount(s, |s.conns|, d.name, q) == 1)
    && (forall q :: q in d.kind.outs ==> OutOf(s, d.name, q))
  }

  /** check_component_connections. */
  predicate BoundaryLinked(s: Structure, ins: seq<string>, outs: seq<string>) {
    && (forall c :: c in s.conns ==>
          && (c.src == SELF ==> c.srcPort in ins)
          && (c.dst == SELF ==> c.dstPort in outs)
          && !(c.src == SELF && c.dst == SELF))
    && (forall q :: q in ins ==> OutOf(s, SELF, q))
    && (forall q :: q in outs ==> IntoCount(s, |s.conns|, SELF, q) == 1)
  }

  /** Actor names are dictionary keys and identifiers: distinct, without ':' and '.'. */
  predicate PlainName(a: string) {
    ':' !in a && '.' !in a
  }

  predicate ProperNames(s: Structure) {
    && (forall i :: 0 <= i < |s.actors| ==> PlainName(s.actors[i].name))
    && (forall i, j :: 0 <= i < j < |s.actors| ==> s.actors[i].name != s.actors[j].name)
  }

  /** The checker reports no error for the structure or for any component in it. */
  predicate Accepted(s: Structure)
    decreases s
  {
    && ProperNames(s) && AllDeclared(s)
    && forall i :: 0 <= i < |s.actors| ==>
         && ActorLinked(s, s.actors[i])
         && (s.actors[i].kind.Comp? ==>
               && BoundaryLinked(s.actors[i].kind.body, s.actors[i].kind.ins, s.actors[i].kind.outs)
               && Accepted(s.actors[i].kind.body))
  }
}
