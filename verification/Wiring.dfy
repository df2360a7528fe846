/** The flat wiring the analyzer computes, on ports instead of port names (analyzer.py:167-244). */
module Wiring {
  import opened CalvinScript

  function AllWithin(a: string, xs: seq<Node>): (ys: seq<Node>)
    ensures |ys| == |xs|
    ensures forall i :: 0 <= i < |xs| ==> ys[i] == Within(a, xs[i])
  {
    seq(|xs|, i requires 0 <= i < |xs| => Within(a, xs[i]))
  }

  type Wire = (Node, Node)

  function WiresWithin(a: string, ws: seq<Wire>): (r: seq<Wire>)
    ensures |r| == |ws|
    ensures forall i :: 0 <= i < |ws| ==> r[i] == (Within(a, ws[i].0), Within(a, ws[i].1))
  {
    seq(|ws|, i requires 0 <= i < |ws| => (Within(a, ws[i].0), Within(a, ws[i].1)))
  }

  predicate Enters(c: Conn, p: string) { c.src == SELF && c.srcPort == p && c.dst != SELF }

  /** in_mappings.get(port, port): the leaf inports behind port q of actor a. */
  function Target(s: Structure, a: string, q: string): (r: seq<Node>)
    ensures r != []
    decreases s, 0, 0
  {
    if !IsComp(s, a) then [Node([a], In, q)]
    else
      var d := Down(Body(s, a), |Body(s, a).conns|, q);
      if d == [] then [Node([a], In, q)] else AllWithin(a, d)
  }

  /** What the first i links export for the component's own inport p. */
  function Down(s: Structure, i: nat, p: string): seq<Node>
    requires i <= |s.conns|
    decreases s, 1, i
  {
    if i == 0 then []
    else
      Down(s, i - 1, p)
      + if Enters(s.conns[i - 1], p) then Target(s, s.conns[i - 1].dst, s.conns[i - 1].dstPort) else []
  }

  /** The last of the first i links into the component's own outport p, or -1. */
  function LastExit(s: Structure, i: nat, p: string): (k: int)
    requires i <= |s.conns|
    ensures -1 <= k < i
    ensures k >= 0 ==> s.conns[k].dst == SELF && s.conns[k].dstPort == p
    ensures forall j :: k < j < i ==> !(s.conns[j].dst == SELF && s.conns[j].dstPort == p)
  {
    if i == 0 then -1
    else if s.conns[i - 1].dst == SELF && s.conns[i - 1].dstPort == p then i - 1
    else LastExit(s, i - 1, p)
  }

  predicate HasExit(s: Structure, p: string) { LastExit(s, |s.conns|, p) >= 0 }

  /** out_mappings.get(port, port): the leaf outport behind port q of actor a. */
  function Origin(s: Structure, a: string, q: string): Node
    decreases s, 0, 0
  {
    if IsComp(s, a) && HasExit(Body(s, a), q) then Within(a, Up(Body(s, a), |Body(s, a).conns|, q))
    else Node([a], Out, q)
  }

  function SourceOf(s: Structure, c: Conn): Node
    decreases s, 1, 0
  {
    if c.src == SELF then Node([], In, c.srcPort) else Origin(s, c.src, c.srcPort)
  }

  /** What the first i links export for the component's own outport p. */
  function Up(s: Structure, i: nat, p: string): Node
    requires i <= |s.conns| && LastExit(s, i, p) >= 0
    decreases s, 2, 0
  {
    SourceOf(s, s.conns[LastExit(s, i, p)])
  }

  function Fan(x: Node, ys: seq<Node>): (r: seq<Wire>)
    ensures |r| == |ys|
    ensures forall i :: 0 <= i < |ys| ==> r[i] == (x, ys[i])
  {
    seq(|ys|, i requires 0 <= i < |ys| => (x, ys[i]))
  }

  predicate Inside(c: Conn) { c.src != SELF && c.dst != SELF }

  /** Connections made while the first i actors are analyzed. */
  function ChildWires(s: Structure, i: nat): seq<Wire>
    requires i <= |s.actors|
    decreases s, 1, i
  {
    if i == 0 then []
    else
      ChildWires(s, i - 1)
      + if s.actors[i - 1].kind.Comp? then WiresWithin(s.actors[i - 1].name, Wires(s.actors[i - 1].kind.body)) else []
  }

  /** Connections made for the first i of the structure's own links. */
  function OwnWires(s: Structure, i: nat): seq<Wire>
    requires i <= |s.conns|
  {
    if i == 0 then []
    else
      var c := s.conns[i - 1];
      OwnWires(s, i - 1)
      + if Inside(c) then Fan(Origin(s, c.src, c.srcPort), Target(s, c.dst, c.dstPort)) else []
  }

  /** Every connection, in the order it is made. */
  function Wires(s: Structure): seq<Wire>
    decreases s, 2, 0
  {
    ChildWires(s, |s.actors|) + OwnWires(s, |s.conns|)
  }

  // ------------------------------------------------------------ membership

  lemma {:induction false} InDown(s: Structure, i: nat, p: string, y: Node)
    requires i <= |s.conns|
    ensures y in Down(s, i, p) <==>
              exists j :: 0 <= j < i && Enters(s.conns[j], p) && y in Target(s, s.conns[j].dst, s.conns[j].dstPort)
    decreases i
  {
    if i > 0 { InDown(s, i - 1, p, y); }
  }

  lemma {:induction false} DownEmpty(s: Structure, i: nat, p: string)
    requires i <= |s.conns|
    ensures Down(s, i, p) == [] <==> forall j :: 0 <= j < i ==> !Enters(s.conns[j], p)
    decreases i
  {
    if i > 0 { DownEmpty(s, i - 1, p); }
  }

  lemma {:induction false} InOwnWires(s: Structure, i: nat, w: Wire)
    requires i <= |s.conns|
    ensures w in OwnWires(s, i) <==>
              exists j :: 0 <= j < i && Inside(s.conns[j])
                && w.0 == Origin(s, s.conns[j].src, s.conns[j].srcPort)
                && w.1 in Target(s, s.conns[j].dst, s.conns[j].dstPort)
    decreases i
  {
    if i > 0 {
      InOwnWires(s, i - 1, w);
      var c := s.conns[i - 1];
      var f := Fan(Origin(s, c.src, c.srcPort), Target(s, c.dst, c.dstPort));
      assert w in f <==> w.0 == Origin(s, c.src, c.srcPort) && w.1 in Target(s, c.dst, c.dstPort) by {
        if w.0 == Origin(s, c.src, c.srcPort) && w.1 in Target(s, c.dst, c.dstPort) {
          var k :| 0 <= k < |Target(s, c.dst, c.dstPort)| && Target(s, c.dst, c.dstPort)[k] == w.1;
          assert f[k] == w;
        }
      }
    }
  }

  predicate Nested(a: string, w: Wire) {
    w.0.path != [] && w.1.path != [] && w.0.path[0] == a && w.1.path[0] == a
  }

  lemma {:induction false} InChildWires(s: Structure, i: nat, w: Wire)
    requires i <= |s.actors|
    ensures w in ChildWires(s, i) <==>
              exists j :: 0 <= j < i && s.actors[j].kind.Comp? && Nested(s.actors[j].name, w)
                && (Inner(w.0), Inner(w.1)) in Wires(s.actors[j].kind.body)
    decreases i
  {
    if i > 0 {
      InChildWires(s, i - 1, w);
      var d := s.actors[i - 1];
      if d.kind.Comp? {
        InWiresWithin(d.name, Wires(d.kind.body), w);
      }
    }
  }

  lemma WithinInner(a: string, x: Node)
    ensures Inner(Within(a, x)) == x
    ensures x.path != [] && x.path[0] == a ==> Within(a, Inner(x)) == x
  {
    if x.path != [] && x.path[0] == a {
      assert [a] + x.path[1..] == x.path;
    }
  }

  lemma InWiresWithin(a: string, ws: seq<Wire>, w: Wire)
    ensures w in WiresWithin(a, ws) <==> Nested(a, w) && (Inner(w.0), Inner(w.1)) in ws
  {
    var r := WiresWithin(a, ws);
    if w in r {
      var k :| 0 <= k < |r| && r[k] == w;
      WithinInner(a, ws[k].0);
      WithinInner(a, ws[k].1);
      assert ws[k] == (Inner(w.0), Inner(w.1));
    }
    if Nested(a, w) && (Inner(w.0), Inner(w.1)) in ws {
      var k :| 0 <= k < |ws| && ws[k] == (Inner(w.0), Inner(w.1));
      WithinInner(a, w.0);
      WithinInner(a, w.1);
      assert r[k] == w;
    }
  }

  lemma InAllWithin(a: string, xs: seq<Node>, y: Node)
    ensures y in AllWithin(a, xs) <==> y.path != [] && y.path[0] == a && Inner(y) in xs
  {
    var r := AllWithin(a, xs);
    if y in r {
      var k :| 0 <= k < |r| && r[k] == y;
      WithinInner(a, xs[k]);
      assert xs[k] == Inner(y);
    }
    if y.path != [] && y.path[0] == a && Inner(y) in xs {
      var k :| 0 <= k < |xs| && xs[k] == Inner(y);
      WithinInner(a, y);
      assert r[k] == y;
    }
  }
}
