/** Every leaf inport is connected exactly once, by counting how often it occurs. */
module WiringOnce {
  import opened CalvinScript
  import opened Wiring
  import opened WiringMeaning

  function One(b: bool): nat { if b then 1 else 0 }

  function Count(y: Node, xs: seq<Node>): nat {
    if xs == [] then 0 else Count(y, xs[..|xs| - 1]) + One(xs[|xs| - 1] == y)
  }

  /** How many connections lead to y. */
  function Fed(y: Node, ws: seq<Wire>): nat {
    if ws == [] then 0 else Fed(y, ws[..|ws| - 1]) + One(ws[|ws| - 1].1 == y)
  }

  lemma {:induction false} CountAppend(y: Node, xs: seq<Node>, ys: seq<Node>)
    ensures Count(y, xs + ys) == Count(y, xs) + Count(y, ys)
    decreases |ys|
  {
    if ys == [] {
      assert xs + ys == xs;
    } else {
      assert (xs + ys)[..|xs + ys| - 1] == xs + ys[..|ys| - 1];
      CountAppend(y, xs, ys[..|ys| - 1]);
    }
  }

  lemma {:induction false} FedAppend(y: Node, ws: seq<Wire>, vs: seq<Wire>)
    ensures Fed(y, ws + vs) == Fed(y, ws) + Fed(y, vs)
    decreases |vs|
  {
    if vs == [] {
      assert ws + vs == ws;
    } else {
      assert (ws + vs)[..|ws + vs| - 1] == ws + vs[..|vs| - 1];
      FedAppend(y, ws, vs[..|vs| - 1]);
    }
  }

  lemma {:induction false} FedFan(y: Node, x: Node, ys: seq<Node>)
    ensures Fed(y, Fan(x, ys)) == Count(y, ys)
    decreases |ys|
  {
    if ys != [] {
      assert Fan(x, ys)[..|ys| - 1] == Fan(x, ys[..|ys| - 1]);
      FedFan(y, x, ys[..|ys| - 1]);
    }
  }

  predicate HeadIs(y: Node, a: string) { y.path != [] && y.path[0] == a }

  lemma WithinMatches(a: string, x: Node, y: Node)
    ensures Within(a, x) == y <==> HeadIs(y, a) && x == Inner(y)
  {
    WithinInner(a, x);
    WithinInner(a, y);
  }

  lemma {:induction false} CountWithin(a: string, y: Node, xs: seq<Node>)
    ensures Count(y, AllWithin(a, xs)) == if HeadIs(y, a) then Count(Inner(y), xs) else 0
    decreases |xs|
  {
    if xs != [] {
      var n := |xs|;
      assert AllWithin(a, xs)[..n - 1] == AllWithin(a, xs[..n - 1]);
      CountWithin(a, y, xs[..n - 1]);
      WithinMatches(a, xs[n - 1], y);
    }
  }

  lemma {:induction false} FedWithin(a: string, y: Node, ws: seq<Wire>)
    ensures Fed(y, WiresWithin(a, ws)) == if HeadIs(y, a) then Fed(Inner(y), ws) else 0
    decreases |ws|
  {
    if ws != [] {
      var n := |ws|;
      assert WiresWithin(a, ws)[..n - 1] == WiresWithin(a, ws[..n - 1]);
      FedWithin(a, y, ws[..n - 1]);
      WithinMatches(a, ws[n - 1].1, y);
    }
  }

  // ------------------------------------------------------------ arrivals

  /** How often y lies behind the destination of one of the first i links. */
  function Arrivals(s: Structure, i: nat, y: Node): nat
    requires i <= |s.conns|
  {
    if i == 0 then 0
    else
      var c := s.conns[i - 1];
      Arrivals(s, i - 1, y) + if c.dst != SELF then Count(y, Target(s, c.dst, c.dstPort)) else 0
  }

  /** The same, over the links that come from the structure's own inports. */
  function Exports(s: Structure, i: nat, y: Node): nat
    requires i <= |s.conns|
  {
    if i == 0 then 0
    else
      var c := s.conns[i - 1];
      Exports(s, i - 1, y)
      + if c.src == SELF && c.dst != SELF then Count(y, Target(s, c.dst, c.dstPort)) else 0
  }

  lemma {:induction false} ArrivalsSplit(s: Structure, i: nat, y: Node)
    requires i <= |s.conns|
    ensures Arrivals(s, i, y) == Fed(y, OwnWires(s, i)) + Exports(s, i, y)
    decreases i
  {
    if i > 0 {
      ArrivalsSplit(s, i - 1, y);
      var c := s.conns[i - 1];
      if Inside(c) {
        var f := Fan(Origin(s, c.src, c.srcPort), Target(s, c.dst, c.dstPort));
        FedAppend(y, OwnWires(s, i - 1), f);
        FedFan(y, Origin(s, c.src, c.srcPort), Target(s, c.dst, c.dstPort));
      } else {
        FedAppend(y, OwnWires(s, i - 1), []);
      }
    }
  }

  /** A declared inport of a leaf somewhere in the program. */
  predicate LeafInport(s: Structure, y: Node)
    decreases |y.path|
  {
    && y.dir == In && y.path != []
    && if |y.path| == 1 then
         IsLeaf(s, y.path[0]) && y.port in s.actors[IndexOf(s.actors, y.path[0])].kind.ins
       else IsComp(s, y.path[0]) && LeafInport(Body(s, y.path[0]), Inner(y))
  }

  lemma TargetHead(s: Structure, b: string, q: string, y: Node)
    requires y.path != [] && y.path[0] != b
    ensures Count(y, Target(s, b, q)) == 0
  {
    if IsComp(s, b) {
      CountWithin(b, y, Down(Body(s, b), |Body(s, b).conns|, q));
    }
    CountSingle(y, Node([b], In, q));
  }

  lemma CountSingle(y: Node, x: Node)
    ensures Count(y, [x]) == One(x == y)
  {
    assert [x][..0] == [];
  }

  lemma {:induction false} ArrivalsAtLeaf(s: Structure, i: nat, a: string, q: string)
    requires i <= |s.conns| && IsLeaf(s, a) && a != SELF
    ensures Arrivals(s, i, Node([a], In, q)) == IntoCount(s, i, a, q)
    decreases i
  {
    if i > 0 {
      ArrivalsAtLeaf(s, i - 1, a, q);
      var c := s.conns[i - 1];
      if c.dst == a {
        CountSingle(Node([a], In, q), Node([a], In, c.dstPort));
      } else if c.dst != SELF {
        TargetHead(s, c.dst, c.dstPort, Node([a], In, q));
      }
    }
  }

  /** The links into component a, each with what the first j inner links export for its port. */
  function Spread(s: Structure, i: nat, a: string, j: nat, y: Node): nat
    requires i <= |s.conns| && IsComp(s, a) && j <= |Body(s, a).conns|
  {
    if i == 0 then 0
    else
      var c := s.conns[i - 1];
      Spread(s, i - 1, a, j, y) + if c.dst == a then Count(y, Down(Body(s, a), j, c.dstPort)) else 0
  }

  lemma {:induction false} ArrivalsAtComp(s: Structure, i: nat, a: string, y: Node)
    requires i <= |s.conns| && IsComp(s, a) && a != SELF && HeadIs(y, a)
    requires Accepted(s)
    ensures Arrivals(s, i, y) == Spread(s, i, a, |Body(s, a).conns|, Inner(y))
    decreases i
  {
    hide Accepted;
    if i > 0 {
      ArrivalsAtComp(s, i - 1, a, y);
      var c := s.conns[i - 1];
      if c.dst == a {
        ArrivalInside(s, i - 1, a, y);
      } else if c.dst != SELF {
        TargetHead(s, c.dst, c.dstPort, y);
      }
    }
  }

  lemma ArrivalInside(s: Structure, i: nat, a: string, y: Node)
    requires i < |s.conns| && IsComp(s, a) && HeadIs(y, a) && s.conns[i].dst == a && Accepted(s)
    ensures Count(y, Target(s, a, s.conns[i].dstPort))
         == Count(Inner(y), Down(Body(s, a), |Body(s, a).conns|, s.conns[i].dstPort))
  {
    var q, b := s.conns[i].dstPort, Body(s, a);
    var k := s.actors[IndexOf(s.actors, a)].kind;
    ComponentAccepted(s, a);
    assert s.conns[i] in s.conns;
    InportLeads(b, k.ins, k.outs, q);
    CountWithin(a, y, Down(b, |b.conns|, q));
  }

  lemma {:induction false} SpreadStep(s: Structure, i: nat, a: string, j: nat, y: Node)
    requires i <= |s.conns| && IsComp(s, a) && 0 < j <= |Body(s, a).conns|
    ensures var c := Body(s, a).conns[j - 1];
            var n := if c.src == SELF && c.dst != SELF then Count(y, Target(Body(s, a), c.dst, c.dstPort)) else 0;
            Spread(s, i, a, j, y) == Spread(s, i, a, j - 1, y) + IntoCount(s, i, a, c.srcPort) * n
    decreases i
  {
    var b := Body(s, a);
    var c := b.conns[j - 1];
    var n := if c.src == SELF && c.dst != SELF then Count(y, Target(b, c.dst, c.dstPort)) else 0;
    hide Down, Target, Count;
    if i > 0 {
      SpreadStep(s, i - 1, a, j, y);
      CountDownStep(b, j, s.conns[i - 1].dstPort, y);
      OneMore(IntoCount(s, i - 1, a, c.srcPort), n);
    }
  }

  lemma OneMore(k: nat, n: nat)
    ensures (k + 1) * n == k * n + n
  {
  }

  lemma CountDownStep(b: Structure, j: nat, q: string, y: Node)
    requires 0 < j <= |b.conns|
    ensures var c := b.conns[j - 1];
            Count(y, Down(b, j, q)) == Count(y, Down(b, j - 1, q))
              + if Enters(c, q) then Count(y, Target(b, c.dst, c.dstPort)) else 0
  {
    var c := b.conns[j - 1];
    CountAppend(y, Down(b, j - 1, q), if Enters(c, q) then Target(b, c.dst, c.dstPort) else []);
  }

  /** Each inport of the component has one link into it, so every inner export counts once. */
  lemma {:induction false} SpreadIsExports(s: Structure, a: string, j: nat, y: Node)
    requires Accepted(s) && IsComp(s, a) && j <= |Body(s, a).conns|
    ensures Spread(s, |s.conns|, a, j, y) == Exports(Body(s, a), j, y)
    decreases j
  {
    hide Accepted, Target, Count, IntoCount, Spread;
    if j == 0 {
      SpreadNothing(s, |s.conns|, a, y);
    } else {
      SpreadIsExports(s, a, j - 1, y);
      SpreadStep(s, |s.conns|, a, j, y);
      if Body(s, a).conns[j - 1].src == SELF { InportLinkedOnce(s, a, j - 1); }
    }
  }

  lemma InportLinkedOnce(s: Structure, a: string, j: nat)
    requires Accepted(s) && IsComp(s, a) && j < |Body(s, a).conns| && Body(s, a).conns[j].src == SELF
    ensures IntoCount(s, |s.conns|, a, Body(s, a).conns[j].srcPort) == 1
  {
    ComponentAccepted(s, a);
    assert Body(s, a).conns[j] in Body(s, a).conns;
  }

  lemma {:induction false} SpreadNothing(s: Structure, i: nat, a: string, y: Node)
    requires i <= |s.conns| && IsComp(s, a)
    ensures Spread(s, i, a, 0, y) == 0
    decreases i
  {
    if i > 0 { SpreadNothing(s, i - 1, a, y); }
  }

  lemma {:induction false} FedByChildren(s: Structure, i: nat, y: Node)
    requires i <= |s.actors| && ProperNames(s) && y.path != []
    ensures Fed(y, ChildWires(s, i)) ==
              var k := IndexOf(s.actors, y.path[0]);
              if 0 <= k < i && s.actors[k].kind.Comp? then Fed(Inner(y), Wires(s.actors[k].kind.body)) else 0
    decreases i
  {
    if i > 0 {
      FedByChildren(s, i - 1, y);
      var d := s.actors[i - 1];
      var added := if d.kind.Comp? then WiresWithin(d.name, Wires(d.kind.body)) else [];
      FedAppend(y, ChildWires(s, i - 1), added);
      if d.kind.Comp? { FedWithin(d.name, y, Wires(d.kind.body)); }
      IndexIsPlace(s.actors, i - 1);
    }
  }

  lemma PlainIsNotSelf(s: Structure, a: string)
    requires ProperNames(s) && Declared(s, a)
    ensures a != SELF
  {
    assert PlainName(s.actors[IndexOf(s.actors, a)].name);
    assert '.' in SELF by { assert SELF[0] == '.'; }
  }

  /** Every leaf inport is fed once, counting what the structure exports for its own inports. */
  lemma {:induction false} FedOnce(s: Structure, y: Node)
    requires Accepted(s) && LeafInport(s, y)
    ensures Fed(y, Wires(s)) + Exports(s, |s.conns|, y) == 1
    decreases s
  {
    var a, n := y.path[0], |s.conns|;
    FedAppend(y, ChildWires(s, |s.actors|), OwnWires(s, n));
    ArrivalsSplit(s, n, y);
    FedByChildren(s, |s.actors|, y);
    PlainIsNotSelf(s, a);
    DeclaredIsLinked(s, a);
    if |y.path| == 1 {
      ArrivalsAtLeaf(s, n, a, y.port);
      assert y == Node([a], In, y.port);
    } else {
      hide Accepted;
      ComponentAccepted(s, a);
      ArrivalsAtComp(s, n, a, y);
      SpreadIsExports(s, a, |Body(s, a).conns|, Inner(y));
      FedOnce(Body(s, a), Inner(y));
    }
  }

  lemma DeclaredIsLinked(s: Structure, a: string)
    requires Accepted(s) && Declared(s, a)
    ensures ActorLinked(s, s.actors[IndexOf(s.actors, a)])
  {
  }

  // ------------------------------------------------------------ whole programs

  /** No link of the program itself starts at a port of the (absent) enclosing component. */
  predicate ClosedProgram(s: Structure) {
    forall i :: 0 <= i < |s.conns| ==> !(s.conns[i].src == SELF && s.conns[i].dst != SELF)
  }

  lemma {:induction false} NoExports(s: Structure, i: nat, y: Node)
    requires i <= |s.conns| && ClosedProgram(s)
    ensures Exports(s, i, y) == 0
    decreases i
  {
    if i > 0 { NoExports(s, i - 1, y); }
  }

  lemma {:induction false} SomeExport(s: Structure, i: nat, j: nat, y: Node)
    requires j < i <= |s.conns| && s.conns[j].src == SELF && s.conns[j].dst != SELF
    requires y in Target(s, s.conns[j].dst, s.conns[j].dstPort)
    ensures Exports(s, i, y) >= 1
    decreases i
  {
    if j < i - 1 {
      SomeExport(s, i - 1, j, y);
    } else {
      CountIn(y, Target(s, s.conns[j].dst, s.conns[j].dstPort));
    }
  }

  lemma {:induction false} CountIn(y: Node, xs: seq<Node>)
    requires y in xs
    ensures Count(y, xs) >= 1
    decreases |xs|
  {
    var n := |xs|;
    if xs[n - 1] != y {
      assert xs == xs[..n - 1] + [xs[n - 1]];
      CountIn(y, xs[..n - 1]);
    }
  }

  /** Some leaf inport lies behind every linked port. */
  lemma {:induction false} LeadsToInport(s: Structure, a: string, q: string) returns (y: Node)
    requires Accepted(s) && Declared(s, a) && Into(s, a, q)
    ensures y in Target(s, a, q) && LeafInport(s, y)
    decreases s
  {
    hide Accepted, Into;
    IntoDeclared(s, a, q);
    if IsComp(s, a) {
      var b := Body(s, a);
      ComponentAccepted(s, a);
      var c := EntryLink(s, a, q);
      LinkEnds(b, c);
      var inner := LeadsToInport(b, c.dst, c.dstPort);
      InDown(b, |b.conns|, q, inner);
      y := Within(a, inner);
      WithinInner(a, inner);
      InAllWithin(a, Down(b, |b.conns|, q), y);
    } else {
      y := Node([a], In, q);
    }
  }

  lemma IntoDeclared(s: Structure, a: string, q: string)
    requires Accepted(s) && Declared(s, a) && Into(s, a, q)
    ensures q in s.actors[IndexOf(s.actors, a)].kind.ins
  {
    var i :| 0 <= i < |s.conns| && s.conns[i].dst == a && s.conns[i].dstPort == q;
    assert s.conns[i] in s.conns;
  }

  /** A link inside component a that leaves its inport q. */
  lemma EntryLink(s: Structure, a: string, q: string) returns (c: Conn)
    requires Accepted(s) && IsComp(s, a) && q in s.actors[IndexOf(s.actors, a)].kind.ins
    ensures var b := Body(s, a);
            exists j :: 0 <= j < |b.conns| && b.conns[j] == c && Enters(c, q)
    ensures c in Body(s, a).conns && c.dst != SELF
  {
    var b := Body(s, a);
    ComponentAccepted(s, a);
    var j :| 0 <= j < |b.conns| && b.conns[j].src == SELF && b.conns[j].srcPort == q;
    c := b.conns[j];
    assert c in b.conns;
  }

  /** Every leaf inport of an accepted program occurs exactly once among the connections, if and
      only if no link of the program itself starts at one of its own ports. */
  lemma InportsFedOnceIff(s: Structure)
    requires Accepted(s)
    ensures (forall y :: LeafInport(s, y) ==> Fed(y, Wires(s)) == 1) <==> ClosedProgram(s)
  {
    hide Accepted;
    if ClosedProgram(s) {
      forall y | LeafInport(s, y)
        ensures Fed(y, Wires(s)) == 1
      {
        FedOnce(s, y);
        NoExports(s, |s.conns|, y);
      }
    } else {
      var j :| 0 <= j < |s.conns| && s.conns[j].src == SELF && s.conns[j].dst != SELF;
      assert s.conns[j] in s.conns;
      LinkEnds(s, s.conns[j]);
      var y := LeadsToInport(s, s.conns[j].dst, s.conns[j].dstPort);
      FedOnce(s, y);
      SomeExport(s, |s.conns|, j, y);
    }
  }

  /** The checker accepts this program, and its one link makes no connection at all. */
  lemma LostInport()
    ensures var s := Structure([Decl("snk", Leaf(["token"], []))], [Conn(SELF, "x", "snk", "token")]);
            Accepted(s) && LeafInport(s, Node(["snk"], In, "token")) && Wires(s) == []
  {
    var d := Decl("snk", Leaf(["token"], []));
    var s := Structure([d], [Conn(SELF, "x", "snk", "token")]);
    assert IndexOf(s.actors, "snk") == 0;
    assert IntoCount(s, 0, "snk", "token") == 0;
    assert IntoCount(s, 1, "snk", "token") == 1;
    assert "snk"[0] == 's' && "snk"[1] == 'n' && "snk"[2] == 'k';
    assert SELF != "snk" by { assert |SELF| == 1; }
    assert ChildWires(s, 0) == [];
    assert ChildWires(s, 1) == [];
    assert OwnWires(s, 0) == [] && OwnWires(s, 1) == [];
  }
}
