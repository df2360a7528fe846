/** Flattening preserves meaning: the connections listed are exactly the walks of the program. */
module WiringMeaning {
  import opened CalvinScript
  import opened Wiring

  // ------------------------------------------------------------- declarations

  lemma {:induction false} IndexIsPlace(ds: seq<Decl>, i: nat)
    requires i < |ds| && forall j, k :: 0 <= j < k < |ds| ==> ds[j].name != ds[k].name
    ensures IndexOf(ds, ds[i].name) == i
    decreases |ds|
  {
    if i < |ds| - 1 { IndexIsPlace(ds[..|ds| - 1], i); }
  }

  /** A component of an accepted structure is itself accepted, boundary included. */
  lemma ComponentAccepted(s: Structure, a: string)
    requires Accepted(s) && IsComp(s, a)
    ensures Accepted(Body(s, a))
    ensures var k := s.actors[IndexOf(s.actors, a)].kind; BoundaryLinked(Body(s, a), k.ins, k.outs)
    ensures ActorLinked(s, s.actors[IndexOf(s.actors, a)])
  {
  }

  lemma LinkEnds(s: Structure, c: Conn)
    requires Accepted(s) && c in s.conns
    ensures c.src == SELF || (Declared(s, c.src) && OutOf(s, c.src, c.srcPort))
    ensures c.dst == SELF || (Declared(s, c.dst) && Into(s, c.dst, c.dstPort))
    ensures OwnLink(s, SrcNode(c), DstNode(c)) && Link(s, SrcNode(c), DstNode(c))
  {
    var i :| 0 <= i < |s.conns| && s.conns[i] == c;
  }

  /** A component outport something is linked from has exactly one inner link. */
  lemma OutportFed(s: Structure, a: string, q: string)
    requires Accepted(s) && IsComp(s, a) && OutOf(s, a, q)
    ensures var b := Body(s, a);
            && HasExit(b, q)
            && var c := b.conns[LastExit(b, |b.conns|, q)]; c in b.conns && c.src != SELF && c.dst == SELF
  {
    ComponentAccepted(s, a);
    var i :| 0 <= i < |s.conns| && s.conns[i].src == a && s.conns[i].srcPort == q;
    assert s.conns[i] in s.conns;
    ExitExists(Body(s, a), |Body(s, a).conns|, q);
  }

  // ------------------------------------------------------------- lifting walks

  function Lifted(a: string, xs: seq<Node>): seq<Node> { AllWithin(a, xs) }

  lemma LiftLink(s: Structure, a: string, x: Node, y: Node)
    requires IsComp(s, a) && Link(Body(s, a), x, y)
    ensures Link(s, Within(a, x), Within(a, y))
  {
    WithinInner(a, x);
    WithinInner(a, y);
  }

  lemma LiftWalk(s: Structure, a: string, xs: seq<Node>)
    requires IsComp(s, a) && Walk(Body(s, a), xs)
    ensures Walk(s, Lifted(a, xs))
  {
    forall i | 0 <= i < |xs| - 1
      ensures Link(s, Lifted(a, xs)[i], Lifted(a, xs)[i + 1])
    {
      LiftLink(s, a, xs[i], xs[i + 1]);
    }
  }

  lemma LiftLeaf(s: Structure, a: string, x: Node)
    requires IsComp(s, a) && OfLeaf(Body(s, a), x)
    ensures OfLeaf(s, Within(a, x))
  {
    WithinInner(a, x);
  }

  lemma JoinWalks(s: Structure, xs: seq<Node>, ys: seq<Node>)
    requires xs != [] && ys != [] && Walk(s, xs) && Walk(s, ys) && Link(s, xs[|xs| - 1], ys[0])
    ensures Walk(s, xs + ys)
  {
    forall i | 0 <= i < |xs + ys| - 1
      ensures Link(s, (xs + ys)[i], (xs + ys)[i + 1])
    {
      if i < |xs| - 1 {
        assert Link(s, xs[i], xs[i + 1]);
      } else if i >= |xs| {
        assert Link(s, ys[i - |xs|], ys[i - |xs| + 1]);
      }
    }
  }

  // ------------------------------------------------ every connection is a walk

  /** A component inport that something is linked to leads somewhere inside. */
  lemma InportLeads(b: Structure, ins: seq<string>, outs: seq<string>, q: string)
    requires BoundaryLinked(b, ins, outs) && q in ins
    ensures Down(b, |b.conns|, q) != []
  {
    var i :| 0 <= i < |b.conns| && b.conns[i].src == SELF && b.conns[i].srcPort == q;
    assert b.conns[i] in b.conns;
    assert Enters(b.conns[i], q);
    DownEmpty(b, |b.conns|, q);
  }

  lemma {:induction false} TargetWalk(s: Structure, a: string, q: string, y: Node) returns (xs: seq<Node>)
    requires Accepted(s) && Declared(s, a) && Into(s, a, q) && y in Target(s, a, q)
    ensures xs != [] && xs[0] == Node([a], In, q) && xs[|xs| - 1] == y && Walk(s, xs)
    ensures OfLeaf(s, y) && y.dir == In
    decreases s, 0
  {
    if IsComp(s, a) {
      var b, k := Body(s, a), s.actors[IndexOf(s.actors, a)].kind;
      ComponentAccepted(s, a);
      var i :| 0 <= i < |s.conns| && s.conns[i].dst == a && s.conns[i].dstPort == q;
      assert s.conns[i] in s.conns;
      InportLeads(b, k.ins, k.outs, q);
      InAllWithin(a, Down(b, |b.conns|, q), y);
      WithinInner(a, y);
      var inner := DownWalk(b, q, Inner(y));
      LiftWalk(s, a, inner);
      LiftLeaf(s, a, Inner(y));
      xs := Lifted(a, inner);
    } else {
      xs := [y];
    }
  }

  lemma {:induction false} DownWalk(s: Structure, p: string, y: Node) returns (xs: seq<Node>)
    requires Accepted(s) && y in Down(s, |s.conns|, p)
    ensures |xs| >= 2 && xs[0] == Node([], In, p) && xs[|xs| - 1] == y && Walk(s, xs)
    ensures OfLeaf(s, y) && y.dir == In
    decreases s, 1
  {
    InDown(s, |s.conns|, p, y);
    var j :| 0 <= j < |s.conns| && Enters(s.conns[j], p) && y in Target(s, s.conns[j].dst, s.conns[j].dstPort);
    var c := s.conns[j];
    assert c in s.conns;
    var rest := TargetWalk(s, c.dst, c.dstPort, y);
    assert OwnLink(s, SrcNode(c), DstNode(c));
    JoinWalks(s, [SrcNode(c)], rest);
    xs := [SrcNode(c)] + rest;
  }

  /** The one link into a component outport. */
  lemma {:induction false} ExitExists(s: Structure, i: nat, p: string)
    requires i <= |s.conns|
    ensures IntoCount(s, i, SELF, p) > 0 <==> LastExit(s, i, p) >= 0
    decreases i
  {
    if i > 0 { ExitExists(s, i - 1, p); }
  }

  lemma {:induction false} OriginWalk(s: Structure, a: string, q: string) returns (xs: seq<Node>)
    requires Accepted(s) && Declared(s, a) && OutOf(s, a, q)
    ensures var x := Origin(s, a, q);
            && xs != [] && xs[0] == x && xs[|xs| - 1] == Node([a], Out, q) && Walk(s, xs)
            && OfLeaf(s, x) && x.dir == Out
    decreases s
  {
    hide Accepted, Link, Walk, OfLeaf, OutOf, IntoCount;
    if IsComp(s, a) {
      var b := Body(s, a);
      ComponentAccepted(s, a);
      OutportFed(s, a, q);
      var c := b.conns[LastExit(b, |b.conns|, q)];
      LinkEnds(b, c);
      var inner := OriginWalk(b, c.src, c.srcPort);
      SingleWalk(b, DstNode(c));
      JoinWalks(b, inner, [DstNode(c)]);
      LiftWalk(s, a, inner + [DstNode(c)]);
      LiftLeaf(s, a, inner[0]);
      xs := Lifted(a, inner + [DstNode(c)]);
      assert Up(b, |b.conns|, q) == SourceOf(b, c) == inner[0];
    } else {
      xs := [Node([a], Out, q)];
      SingleWalk(s, xs[0]);
      SingleLeaf(s, xs[0]);
    }
  }

  lemma SingleWalk(s: Structure, x: Node)
    ensures Walk(s, [x])
  {
  }

  lemma SingleLeaf(s: Structure, x: Node)
    requires |x.path| == 1 && IsLeaf(s, x.path[0])
    ensures OfLeaf(s, x)
  {
  }

  lemma {:induction false} WireIsWalk(s: Structure, w: Wire)
    requires Accepted(s) && w in Wires(s)
    ensures Feeds(s, w.0, w.1)
    decreases s
  {
    if w in OwnWires(s, |s.conns|) {
      OwnWireIsWalk(s, w);
    } else {
      InChildWires(s, |s.actors|, w);
      var j :| 0 <= j < |s.actors| && s.actors[j].kind.Comp? && Nested(s.actors[j].name, w)
            && (Inner(w.0), Inner(w.1)) in Wires(s.actors[j].kind.body);
      var a := s.actors[j].name;
      PlaceIsComp(s, j);
      ComponentAccepted(s, a);
      hide Accepted, Feeds;
      WireIsWalk(Body(s, a), (Inner(w.0), Inner(w.1)));
      LiftFeeds(s, a, Inner(w.0), Inner(w.1));
      WithinInner(a, w.0);
      WithinInner(a, w.1);
    }
  }

  lemma PlaceIsComp(s: Structure, j: nat)
    requires Accepted(s) && j < |s.actors| && s.actors[j].kind.Comp?
    ensures IsComp(s, s.actors[j].name) && Body(s, s.actors[j].name) == s.actors[j].kind.body
  {
    IndexIsPlace(s.actors, j);
  }

  lemma OwnWireIsWalk(s: Structure, w: Wire)
    requires Accepted(s) && w in OwnWires(s, |s.conns|)
    ensures Feeds(s, w.0, w.1)
  {
    hide Accepted, Link, Walk, OfLeaf;
    InOwnWires(s, |s.conns|, w);
    var j :| 0 <= j < |s.conns| && Inside(s.conns[j])
          && w.0 == Origin(s, s.conns[j].src, s.conns[j].srcPort)
          && w.1 in Target(s, s.conns[j].dst, s.conns[j].dstPort);
    var c := s.conns[j];
    LinkEnds(s, c);
    var up := OriginWalk(s, c.src, c.srcPort);
    var down := TargetWalk(s, c.dst, c.dstPort, w.1);
    JoinWalks(s, up, down);
    var xs := up + down;
    assert |xs| >= 2 && xs[0] == w.0 && xs[|xs| - 1] == w.1 && Walk(s, xs);
  }

  lemma LiftFeeds(s: Structure, a: string, x: Node, y: Node)
    requires IsComp(s, a) && Feeds(Body(s, a), x, y)
    ensures Feeds(s, Within(a, x), Within(a, y))
  {
    var xs: seq<Node> :| |xs| >= 2 && xs[0] == x && xs[|xs| - 1] == y && Walk(Body(s, a), xs);
    LiftWalk(s, a, xs);
    LiftLeaf(s, a, x);
    LiftLeaf(s, a, y);
    var ys := Lifted(a, xs);
    assert |ys| >= 2 && ys[0] == Within(a, x) && ys[|ys| - 1] == Within(a, y) && Walk(s, ys);
  }

  // ------------------------------------------------ every walk is a connection

  predicate Heading(xs: seq<Node>, dir: Dir) { forall i :: 0 <= i < |xs| ==> xs[i].dir == dir }

  predicate AllIn(a: string, xs: seq<Node>) {
    forall i :: 0 <= i < |xs| ==> xs[i].path != [] && xs[i].path[0] == a
  }

  function Stripped(a: string, xs: seq<Node>): (ys: seq<Node>)
    requires AllIn(a, xs)
    ensures |ys| == |xs|
    ensures forall i :: 0 <= i < |xs| ==> ys[i] == Inner(xs[i])
  {
    seq(|xs|, i requires 0 <= i < |xs| => Inner(xs[i]))
  }

  /** A link between ports of actors both inside a, leaving an inport or reaching an outport
      below the top, is a link of a's own structure. */
  lemma InnerLink(s: Structure, x: Node, y: Node)
    requires Link(s, x, y) && ((x.dir == In && x.path != []) || (y.dir == Out && y.path != []))
    ensures x.path != [] && y.path != [] && x.path[0] == y.path[0] && IsComp(s, x.path[0])
    ensures Link(Body(s, x.path[0]), Inner(x), Inner(y))
  {
  }

  lemma {:induction false} StripDown(s: Structure, a: string, xs: seq<Node>, i: nat)
    requires Heading(xs, In) && Walk(s, xs) && i < |xs|
    requires xs[0].path != [] && xs[0].path[0] == a
    ensures AllIn(a, xs[..i + 1])
    decreases i
  {
    if i > 0 {
      StripDown(s, a, xs, i - 1);
      assert xs[..i + 1] == xs[..i] + [xs[i]];
      assert xs[..i][i - 1] == xs[i - 1];
      assert Link(s, xs[i - 1], xs[(i - 1) + 1]);
      InnerLink(s, xs[i - 1], xs[i]);
    }
  }

  lemma {:induction false} StripUp(s: Structure, a: string, xs: seq<Node>, i: nat)
    requires Heading(xs, Out) && Walk(s, xs) && i < |xs|
    requires xs[|xs| - 1].path != [] && xs[|xs| - 1].path[0] == a
    ensures AllIn(a, xs[i..])
    decreases |xs| - i
  {
    if i < |xs| - 1 {
      StripUp(s, a, xs, i + 1);
      assert xs[i..] == [xs[i]] + xs[i + 1..];
      assert xs[i + 1..][0] == xs[i + 1];
      InnerLink(s, xs[i], xs[i + 1]);
    }
  }

  /** A walk whose nodes are all inside component a, with links that are a's own. */
  lemma StrippedWalks(s: Structure, a: string, xs: seq<Node>)
    requires IsComp(s, a) && AllIn(a, xs) && Walk(s, xs)
    requires forall i :: 0 <= i < |xs| - 1 ==> Link(Body(s, a), Inner(xs[i]), Inner(xs[i + 1]))
    ensures Walk(Body(s, a), Stripped(a, xs))
  {
  }

  lemma StripLeaf(s: Structure, a: string, x: Node)
    requires OfLeaf(s, x) && x.path[0] == a && IsComp(s, a)
    ensures OfLeaf(Body(s, a), Inner(x))
  {
  }

  lemma {:induction false} TargetComplete(s: Structure, a: string, q: string, xs: seq<Node>)
    requires Accepted(s) && xs != [] && Walk(s, xs) && Heading(xs, In)
    requires xs[0] == Node([a], In, q) && OfLeaf(s, xs[|xs| - 1])
    ensures xs[|xs| - 1] in Target(s, a, q)
    decreases s, 0
  {
    hide Accepted, Down, Target, OfLeaf, Link;
    var y := xs[|xs| - 1];
    if |xs| > 1 {
      StripDown(s, a, xs, |xs| - 1);
      assert xs[..|xs|] == xs;
      InnerLink(s, xs[0], xs[1]);
      ComponentAccepted(s, a);
      forall i | 0 <= i < |xs| - 1
        ensures Link(Body(s, a), Inner(xs[i]), Inner(xs[i + 1]))
      {
        InnerLink(s, xs[i], xs[i + 1]);
      }
      StrippedWalks(s, a, xs);
      StripLeaf(s, a, y);
      DownComplete(Body(s, a), q, Stripped(a, xs));
      BehindPort(s, a, q, y);
    } else {
      LeafTarget(s, a, q);
    }
  }

  lemma BehindPort(s: Structure, a: string, q: string, y: Node)
    requires IsComp(s, a) && y.path != [] && y.path[0] == a
    requires Inner(y) in Down(Body(s, a), |Body(s, a).conns|, q)
    ensures y in Target(s, a, q)
  {
    hide Down;
    InAllWithin(a, Down(Body(s, a), |Body(s, a).conns|, q), y);
  }

  lemma LeafTarget(s: Structure, a: string, q: string)
    requires OfLeaf(s, Node([a], In, q))
    ensures Node([a], In, q) in Target(s, a, q)
  {
  }

  lemma {:induction false} DownComplete(s: Structure, p: string, xs: seq<Node>)
    requires Accepted(s) && |xs| >= 2 && Walk(s, xs) && Heading(xs, In)
    requires xs[0] == Node([], In, p) && OfLeaf(s, xs[|xs| - 1])
    ensures xs[|xs| - 1] in Down(s, |s.conns|, p)
    decreases s, 1
  {
    assert OwnLink(s, xs[0], xs[1]);
    var c :| c in s.conns && xs[0] == SrcNode(c) && xs[1] == DstNode(c);
    var j :| 0 <= j < |s.conns| && s.conns[j] == c;
    TailWalks(s, xs);
    TargetComplete(s, c.dst, c.dstPort, xs[1..]);
    InDown(s, |s.conns|, p, xs[|xs| - 1]);
  }

  lemma TailWalks(s: Structure, xs: seq<Node>)
    requires Walk(s, xs) && |xs| >= 2
    ensures Walk(s, xs[1..]) && Walk(s, xs[..|xs| - 1])
  {
    forall i | 0 <= i < |xs[1..]| - 1
      ensures Link(s, xs[1..][i], xs[1..][i + 1])
    {
      assert Link(s, xs[i + 1], xs[(i + 1) + 1]);
    }
  }

  lemma {:induction false} OriginComplete(s: Structure, a: string, q: string, xs: seq<Node>)
    requires Accepted(s) && xs != [] && Walk(s, xs) && Heading(xs, Out)
    requires xs[|xs| - 1] == Node([a], Out, q) && OfLeaf(s, xs[0])
    ensures Origin(s, a, q) == xs[0]
    decreases s, 0
  {
    var x, n := xs[0], |xs|;
    if n > 1 {
      StripUp(s, a, xs, 0);
      assert xs[0..] == xs;
      assert Link(s, xs[n - 2], xs[(n - 2) + 1]);
      InnerLink(s, xs[n - 2], xs[n - 1]);
      ComponentAccepted(s, a);
      forall i | 0 <= i < n - 1
        ensures Link(Body(s, a), Inner(xs[i]), Inner(xs[i + 1]))
      {
        InnerLink(s, xs[i], xs[i + 1]);
      }
      StrippedWalks(s, a, xs);
      StripLeaf(s, a, x);
      var k := s.actors[IndexOf(s.actors, a)].kind;
      UpComplete(Body(s, a), k.ins, k.outs, q, Stripped(a, xs));
      WithinInner(a, x);
    }
  }

  lemma {:induction false} UpComplete(s: Structure, ins: seq<string>, outs: seq<string>, p: string, xs: seq<Node>)
    requires Accepted(s) && BoundaryLinked(s, ins, outs)
    requires |xs| >= 2 && Walk(s, xs) && Heading(xs, Out)
    requires xs[|xs| - 1] == Node([], Out, p) && OfLeaf(s, xs[0])
    ensures HasExit(s, p) && Up(s, |s.conns|, p) == xs[0]
    decreases s, 1
  {
    hide Accepted, OfLeaf;
    var n := |xs|;
    var c, j := LastStep(s, xs, p);
    UniqueExit(s, ins, outs, p, c, j);
    TailWalks(s, xs);
    hide Link, Walk;
    OriginComplete(s, c.src, c.srcPort, xs[..n - 1]);
    assert Up(s, |s.conns|, p) == SourceOf(s, c);
  }

  /** The last link of a walk that ends at one of the structure's own outports. */
  lemma LastStep(s: Structure, xs: seq<Node>, p: string) returns (c: Conn, j: nat)
    requires |xs| >= 2 && Walk(s, xs) && Heading(xs, Out) && xs[|xs| - 1] == Node([], Out, p)
    ensures c in s.conns && j < |s.conns| && s.conns[j] == c && c.dst == SELF && c.dstPort == p
    ensures c.src != SELF && xs[|xs| - 2] == Node([c.src], Out, c.srcPort)
  {
    var n := |xs|;
    assert Link(s, xs[n - 2], xs[(n - 2) + 1]);
    assert OwnLink(s, xs[n - 2], xs[n - 1]);
    c :| c in s.conns && xs[n - 2] == SrcNode(c) && xs[n - 1] == DstNode(c);
    j :| 0 <= j < |s.conns| && s.conns[j] == c;
  }

  lemma UniqueExit(s: Structure, ins: seq<string>, outs: seq<string>, p: string, c: Conn, j: nat)
    requires BoundaryLinked(s, ins, outs)
    requires j < |s.conns| && s.conns[j] == c && c.dst == SELF && c.dstPort == p
    ensures LastExit(s, |s.conns|, p) == j
  {
    assert c in s.conns;
    CountPositive(s, |s.conns|, SELF, p, j);
    ExitExists(s, |s.conns|, p);
    OnlyOneInto(s, |s.conns|, SELF, p, j, LastExit(s, |s.conns|, p));
  }

  lemma {:induction false} CountPositive(s: Structure, i: nat, a: string, q: string, j: nat)
    requires j < i <= |s.conns| && s.conns[j].dst == a && s.conns[j].dstPort == q
    ensures IntoCount(s, i, a, q) >= 1
    decreases i
  {
    if j < i - 1 { CountPositive(s, i - 1, a, q, j); }
  }

  lemma {:induction false} OnlyOneInto(s: Structure, i: nat, a: string, q: string, j: nat, k: int)
    requires i <= |s.conns| && IntoCount(s, i, a, q) <= 1
    requires j < i && s.conns[j].dst == a && s.conns[j].dstPort == q
    requires 0 <= k < i && s.conns[k].dst == a && s.conns[k].dstPort == q
    ensures j == k
    decreases i
  {
    if j < i - 1 && k < i - 1 {
      OnlyOneInto(s, i - 1, a, q, j, k);
    } else if j < k {
      CountPositive(s, i - 1, a, q, j);
    } else if k < j {
      CountPositive(s, i - 1, a, q, k);
    }
  }

  /** Nothing passes straight through a component from an inport to an outport. */
  lemma {:induction false} NoPassThrough(s: Structure, x: Node, y: Node)
    requires Accepted(s) && Link(s, x, y) && x.dir == In && y.dir == Out
    ensures x.path == [] && y.path == [] && exists c :: c in s.conns && c.src == SELF && c.dst == SELF
    decreases s
  {
    if !OwnLink(s, x, y) {
      var a := x.path[0];
      ComponentAccepted(s, a);
      NoPassThrough(Body(s, a), Inner(x), Inner(y));
      assert false;
    }
  }

  /** No link starts at a structure's own outports. */
  lemma NothingLeaves(s: Structure, x: Node, y: Node)
    requires Link(s, x, y)
    ensures !(x.path == [] && x.dir == Out)
  {
  }

  /** Once a walk heads into components it keeps heading inwards. */
  lemma {:induction false} StaysIn(s: Structure, xs: seq<Node>, k: nat, i: nat)
    requires Accepted(s) && Walk(s, xs) && k <= i < |xs|
    requires xs[k].dir == In && xs[|xs| - 1].dir == In
    ensures xs[i].dir == In
    decreases i - k
  {
    hide Accepted, Link;
    if i > k {
      StaysIn(s, xs, k, i - 1);
      assert Link(s, xs[i - 1], xs[(i - 1) + 1]);
      if i < |xs| - 1 { NothingLeaves(s, xs[i], xs[i + 1]); }
      if xs[i].dir == Out {
        NoPassThrough(s, xs[i - 1], xs[i]);
        assert false;
      }
    }
  }

  lemma {:induction false} TurnComplete(s: Structure, xs: seq<Node>, k: nat)
    requires Accepted(s) && Walk(s, xs) && 0 < k < |xs|
    requires Heading(xs[..k], Out) && Heading(xs[k..], In)
    requires OfLeaf(s, xs[0]) && OfLeaf(s, xs[|xs| - 1])
    ensures (xs[0], xs[|xs| - 1]) in Wires(s)
    decreases s
  {
    hide Accepted, Link, OfLeaf, Wires;
    if OwnLink(s, xs[k - 1], xs[k]) {
      OwnTurn(s, xs, k);
    } else {
      var a, ys := NestedTurn(s, xs, k);
      TurnComplete(Body(s, a), ys, k);
      ChildWireCounts(s, a, xs[0], xs[|xs| - 1]);
    }
  }

  /** A walk that turns below the top lies in one component, and there it is shorter to name. */
  lemma NestedTurn(s: Structure, xs: seq<Node>, k: nat) returns (a: string, ys: seq<Node>)
    requires Accepted(s) && Walk(s, xs) && 0 < k < |xs|
    requires Heading(xs[..k], Out) && Heading(xs[k..], In)
    requires OfLeaf(s, xs[0]) && OfLeaf(s, xs[|xs| - 1]) && !OwnLink(s, xs[k - 1], xs[k])
    ensures IsComp(s, a) && AllIn(a, xs) && ys == Stripped(a, xs)
    ensures Accepted(Body(s, a)) && Walk(Body(s, a), ys)
    ensures Heading(ys[..k], Out) && Heading(ys[k..], In)
    ensures OfLeaf(Body(s, a), ys[0]) && OfLeaf(Body(s, a), ys[|ys| - 1])
  {
    hide Link, OfLeaf, Accepted;
    assert Link(s, xs[k - 1], xs[(k - 1) + 1]);
    TurnHead(s, xs[k - 1], xs[k]);
    a := xs[k].path[0];
    ComponentAccepted(s, a);
    StripTurn(s, a, xs, k);
    hide Walk;
    EndsInside(a, xs);
    StripLeaf(s, a, xs[0]);
    StripLeaf(s, a, xs[|xs| - 1]);
    ys := Stripped(a, xs);
  }

  lemma TurnHead(s: Structure, x: Node, y: Node)
    requires Link(s, x, y) && !OwnLink(s, x, y)
    ensures x.path != [] && y.path != [] && x.path[0] == y.path[0] && IsComp(s, x.path[0])
    ensures Link(Body(s, x.path[0]), Inner(x), Inner(y))
  {
  }

  lemma EndsInside(a: string, xs: seq<Node>)
    requires AllIn(a, xs) && xs != []
    ensures xs[0].path != [] && xs[0].path[0] == a
    ensures xs[|xs| - 1].path != [] && xs[|xs| - 1].path[0] == a
  {
  }

  lemma ChildWireCounts(s: Structure, a: string, x: Node, y: Node)
    requires IsComp(s, a) && x.path != [] && x.path[0] == a && y.path != [] && y.path[0] == a
    requires (Inner(x), Inner(y)) in Wires(Body(s, a))
    ensures (x, y) in Wires(s)
  {
    InChildWires(s, |s.actors|, (x, y));
    assert s.actors[IndexOf(s.actors, a)].name == a;
  }

  lemma OwnTurn(s: Structure, xs: seq<Node>, k: nat)
    requires Accepted(s) && Walk(s, xs) && 0 < k < |xs|
    requires Heading(xs[..k], Out) && Heading(xs[k..], In)
    requires OfLeaf(s, xs[0]) && OfLeaf(s, xs[|xs| - 1]) && OwnLink(s, xs[k - 1], xs[k])
    ensures (xs[0], xs[|xs| - 1]) in Wires(s)
  {
    hide Accepted, Link, OfLeaf, Walk;
    var up, down := xs[..k], xs[k..];
    PartsWalk(s, xs, k);
    assert up[k - 1] == xs[k - 1] && down[0] == xs[k] && down[|down| - 1] == xs[|xs| - 1];
    var c :| c in s.conns && xs[k - 1] == SrcNode(c) && xs[k] == DstNode(c);
    var j :| 0 <= j < |s.conns| && s.conns[j] == c;
    OriginComplete(s, c.src, c.srcPort, up);
    TargetComplete(s, c.dst, c.dstPort, down);
    InOwnWires(s, |s.conns|, (xs[0], xs[|xs| - 1]));
  }

  /** A walk that turns inside component a is, all of it, a walk of a's own structure. */
  lemma StripTurn(s: Structure, a: string, xs: seq<Node>, k: nat)
    requires Walk(s, xs) && 0 < k < |xs| && IsComp(s, a)
    requires Heading(xs[..k], Out) && Heading(xs[k..], In)
    requires xs[k - 1].path != [] && xs[k - 1].path[0] == a && xs[k].path != [] && xs[k].path[0] == a
    requires Link(Body(s, a), Inner(xs[k - 1]), Inner(xs[k]))
    ensures AllIn(a, xs) && Walk(Body(s, a), Stripped(a, xs))
    ensures Heading(Stripped(a, xs)[..k], Out) && Heading(Stripped(a, xs)[k..], In)
  {
    hide Link;
    StripSides(s, a, xs, k);
    forall i | 0 <= i < |xs| - 1
      ensures Link(Body(s, a), Inner(xs[i]), Inner(xs[i + 1]))
    {
      if i < k - 1 {
        assert xs[..k][i + 1] == xs[i + 1];
        assert Link(s, xs[i], xs[i + 1]);
        InnerLink(s, xs[i], xs[i + 1]);
      } else if i >= k {
        assert xs[k..][i - k] == xs[i];
        assert Link(s, xs[i], xs[i + 1]);
        InnerLink(s, xs[i], xs[i + 1]);
      }
    }
    StrippedWalks(s, a, xs);
    var ys := Stripped(a, xs);
    assert forall i :: 0 <= i < k ==> ys[i].dir == xs[i].dir == xs[..k][i].dir;
    assert forall i :: k <= i < |xs| ==> ys[i].dir == xs[i].dir == xs[k..][i - k].dir;
  }

  lemma StripSides(s: Structure, a: string, xs: seq<Node>, k: nat)
    requires Walk(s, xs) && 0 < k < |xs|
    requires Heading(xs[..k], Out) && Heading(xs[k..], In)
    requires xs[k - 1].path != [] && xs[k - 1].path[0] == a && xs[k].path != [] && xs[k].path[0] == a
    ensures AllIn(a, xs)
  {
    hide Link, Walk;
    var up, down := xs[..k], xs[k..];
    PartsWalk(s, xs, k);
    assert up[k - 1] == xs[k - 1] && down[0] == xs[k];
    StripUp(s, a, up, 0);
    StripDown(s, a, down, |down| - 1);
    assert up[0..] == up && down[..|down|] == down;
    assert xs == up + down;
  }

  lemma PartsWalk(s: Structure, xs: seq<Node>, k: nat)
    requires Walk(s, xs) && k <= |xs|
    ensures Walk(s, xs[..k]) && Walk(s, xs[k..])
  {
    forall i | 0 <= i < |xs[k..]| - 1
      ensures Link(s, xs[k..][i], xs[k..][i + 1])
    {
      assert Link(s, xs[i + k], xs[(i + k) + 1]);
    }
  }

  function FirstIn(xs: seq<Node>): (k: nat)
    requires xs != [] && xs[|xs| - 1].dir == In
    ensures k < |xs| && xs[k].dir == In && forall i :: 0 <= i < k ==> xs[i].dir == Out
  {
    if xs[0].dir == In then 0 else 1 + FirstIn(xs[1..])
  }

  lemma WalkIsWire(s: Structure, x: Node, y: Node)
    requires Accepted(s) && Feeds(s, x, y)
    ensures (x, y) in Wires(s)
  {
    var xs: seq<Node> :| |xs| >= 2 && xs[0] == x && xs[|xs| - 1] == y && Walk(s, xs);
    var k := FirstIn(xs);
    forall i | k <= i < |xs|
      ensures xs[i].dir == In
    {
      StaysIn(s, xs, k, i);
    }
    TurnComplete(s, xs, k);
  }

  /** The wiring is the meaning: x is connected to y exactly when the nested program has a path
      of links from x to y through component boundaries. */
  lemma WiringIsMeaning(s: Structure, x: Node, y: Node)
    requires Accepted(s)
    ensures (x, y) in Wires(s) <==> Feeds(s, x, y)
  {
    if (x, y) in Wires(s) { WireIsWalk(s, (x, y)); }
    if Feeds(s, x, y) { WalkIsWire(s, x, y); }
  }
}
