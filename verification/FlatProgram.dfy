/** What the analyzer's connections table means for a script the checker accepts. */
module FlatProgram {
  import opened CalvinScript
  import opened Literals
  import opened PortNames
  import opened PortTables
  import opened Wiring
  import opened WiringMeaning
  import opened WiringOnce

  /** The table the Analyzer constructor leaves behind. */
  function FlatConnections(root: string, s: Structure): Table {
    Grouped(map[], NamedWires(root, Wires(Elab(s))))
  }

  predicate Connects(m: Table, k: string, v: string) { k in m && v in m[k] }

  lemma {:induction false} InGrouped(ws: seq<NamedWire>, k: string, v: string)
    ensures Connects(Grouped(map[], ws), k, v) <==> (k, v) in ws
    decreases |ws|
  {
    if ws != [] {
      var init, w := ws[..|ws| - 1], ws[|ws| - 1];
      InGrouped(init, k, v);
      assert ws == init + [w];
    }
  }

  /** Ports of leaf actors have plain paths, so their names are their own. */
  lemma {:induction false} LeafPathIsPlain(s: Structure, x: Node)
    requires Accepted(s) && OfLeaf(s, x)
    ensures PlainPath(x.path)
    decreases |x.path|
  {
    hide ActorLinked, BoundaryLinked, AllDeclared, PlainName;
    var k := IndexOf(s.actors, x.path[0]);
    assert PlainName(s.actors[k].name);
    if |x.path| > 1 {
      LeafPathIsPlain(Body(s, x.path[0]), Inner(x));
      assert forall i :: 1 <= i < |x.path| ==> x.path[i] == Inner(x).path[i - 1];
    }
  }

  lemma LeafNameInjective(root: string, s: Structure, x: Node, y: Node)
    requires Accepted(s) && OfLeaf(s, x) && OfLeaf(s, y) && x.dir == y.dir && Name(root, x) == Name(root, y)
    ensures x == y
  {
    hide Accepted, OfLeaf, Name, PlainPath;
    LeafPathIsPlain(s, x);
    LeafPathIsPlain(s, y);
    NameInjective(root, x, y);
  }

  lemma WireEndsAtLeaves(s: Structure, w: Wire)
    requires Accepted(s) && w in Wires(s)
    ensures w.0.dir == Out && w.1.dir == In && OfLeaf(s, w.0) && OfLeaf(s, w.1) && Feeds(s, w.0, w.1)
  {
    hide Accepted, Wires, OfLeaf;
    WiringIsMeaning(s, w.0, w.1);
  }

  /** Leaf port x is listed as feeding leaf port y exactly when the nested script has a path of links
      from x to y through component boundaries. */
  lemma FlatteningPreservesMeaning(root: string, s: Structure, x: Node, y: Node)
    requires SourceAccepted(s)
    requires OfLeaf(Elab(s), x) && x.dir == Out && OfLeaf(Elab(s), y) && y.dir == In
    ensures Connects(FlatConnections(root, s), Name(root, x), Name(root, y)) <==> Feeds(Elab(s), x, y)
  {
    hide SourceAccepted, Accepted, Elab, Wires, OfLeaf, Name, Grouped, Connects, Feeds;
    var e := Elab(s);
    var ws := Wires(e);
    ElabAccepted(s);
    InGrouped(NamedWires(root, ws), Name(root, x), Name(root, y));
    WiringIsMeaning(e, x, y);
    if (Name(root, x), Name(root, y)) in NamedWires(root, ws) {
      var i :| 0 <= i < |ws| && NamedWires(root, ws)[i] == (Name(root, x), Name(root, y));
      WireEndsAtLeaves(e, ws[i]);
      LeafNameInjective(root, e, x, ws[i].0);
      LeafNameInjective(root, e, y, ws[i].1);
      assert (x, y) == ws[i];
    }
    if (x, y) in ws {
      var i :| 0 <= i < |ws| && ws[i] == (x, y);
      assert NamedWires(root, ws)[i] in NamedWires(root, ws);
    }
  }

  /** Nothing but ports of leaf actors is left in the table. */
  lemma OnlyLeafPorts(root: string, s: Structure, k: string, v: string) returns (x: Node, y: Node)
    requires SourceAccepted(s) && Connects(FlatConnections(root, s), k, v)
    ensures k == Name(root, x) && v == Name(root, y)
    ensures OfLeaf(Elab(s), x) && OfLeaf(Elab(s), y) && Feeds(Elab(s), x, y)
  {
    hide SourceAccepted, Accepted, Elab, Wires, OfLeaf, Name, Grouped, Connects, Feeds;
    var ws := Wires(Elab(s));
    ElabAccepted(s);
    InGrouped(NamedWires(root, ws), k, v);
    var i :| 0 <= i < |ws| && NamedWires(root, ws)[i] == (k, v);
    WireEndsAtLeaves(Elab(s), ws[i]);
    x, y := ws[i].0, ws[i].1;
  }

  // ------------------------------------------------------------ exactly once

  ghost predicate ListedAt(m: Table, v: string, k: string, i: int) {
    k in m && 0 <= i < |m[k]| && m[k][i] == v
  }

  ghost predicate Unlisted(m: Table, v: string) { forall k, i :: !ListedAt(m, v, k, i) }

  /** v occurs in the table at one place and no other. */
  ghost predicate ListedOnce(m: Table, v: string) {
    exists k, i :: ListedAt(m, v, k, i) && forall k', i' :: ListedAt(m, v, k', i') ==> k' == k && i' == i
  }

  function CountTo(ws: seq<NamedWire>, v: string): nat {
    if ws == [] then 0 else CountTo(ws[..|ws| - 1], v) + One(ws[|ws| - 1].1 == v)
  }

  lemma ExtendLists(m: Table, k0: string, v0: string, v: string, k: string, i: int)
    ensures var n := if k0 in m then |m[k0]| else 0;
            ListedAt(Extend(m, k0, [v0]), v, k, i) <==> ListedAt(m, v, k, i) || (k == k0 && i == n && v == v0)
  {
  }

  lemma {:induction false} CountIsListing(ws: seq<NamedWire>, v: string)
    ensures CountTo(ws, v) == 0 <==> Unlisted(Grouped(map[], ws), v)
    ensures CountTo(ws, v) == 1 <==> ListedOnce(Grouped(map[], ws), v)
    decreases |ws|
  {
    if ws == [] {
      assert Unlisted(map[], v);
    } else {
      var init, w := ws[..|ws| - 1], ws[|ws| - 1];
      CountIsListing(init, v);
      ListingStep(Grouped(map[], init), w.0, w.1, v);
    }
  }

  lemma ListingStep(m: Table, k0: string, v0: string, v: string)
    ensures var m' := Extend(m, k0, [v0]);
            && (v0 != v ==> (Unlisted(m', v) <==> Unlisted(m, v)) && (ListedOnce(m', v) <==> ListedOnce(m, v)))
            && (v0 == v ==> !Unlisted(m', v) && (ListedOnce(m', v) <==> Unlisted(m, v)))
    ensures ListedOnce(m, v) ==> !Unlisted(m, v)
  {
    hide ListedAt, Extend;
    var m' := Extend(m, k0, [v0]);
    var n := if k0 in m then |m[k0]| else 0;
    forall k, i ensures ListedAt(m', v, k, i) <==> ListedAt(m, v, k, i) || (k == k0 && i == n && v == v0) {
      ExtendLists(m, k0, v0, v, k, i);
    }
    NotYet(m, v, k0);
    if v0 == v {
      assert ListedAt(m', v, k0, n);
    }
  }

  lemma NotYet(m: Table, v: string, k: string)
    ensures !ListedAt(m, v, k, if k in m then |m[k]| else 0)
  {
  }

  lemma {:induction false} CountIsFed(root: string, s: Structure, ws: seq<Wire>, y: Node)
    requires Accepted(s) && OfLeaf(s, y) && y.dir == In
    requires forall w :: w in ws ==> OfLeaf(s, w.1) && w.1.dir == In
    ensures CountTo(NamedWires(root, ws), Name(root, y)) == Fed(y, ws)
    decreases |ws|
  {
    hide Accepted, OfLeaf, Name;
    if ws != [] {
      var init, w := ws[..|ws| - 1], ws[|ws| - 1];
      assert NamedWires(root, ws)[..|ws| - 1] == NamedWires(root, init);
      assert w in ws;
      CountIsFed(root, s, init, y);
      if Name(root, w.1) == Name(root, y) { LeafNameInjective(root, s, w.1, y); }
    }
  }

  lemma {:induction false} InportIsLeaf(s: Structure, y: Node)
    requires LeafInport(s, y)
    ensures OfLeaf(s, y) && y.dir == In
    decreases |y.path|
  {
    if |y.path| > 1 { InportIsLeaf(Body(s, y.path[0]), Inner(y)); }
  }

  lemma ListedIsFed(root: string, s: Structure, y: Node)
    requires SourceAccepted(s) && LeafInport(Elab(s), y)
    ensures ListedOnce(FlatConnections(root, s), Name(root, y)) <==> Fed(y, Wires(Elab(s))) == 1
  {
    hide SourceAccepted, Accepted, Elab, Wires, OfLeaf, Name, Grouped, ListedOnce, Unlisted, Fed, LeafInport, CountTo;
    var e := Elab(s);
    ElabAccepted(s);
    InportIsLeaf(e, y);
    forall w | w in Wires(e) ensures OfLeaf(e, w.1) && w.1.dir == In { WireEndsAtLeaves(e, w); }
    CountIsFed(root, e, Wires(e), y);
    CountIsListing(NamedWires(root, Wires(e)), Name(root, y));
  }

  lemma ClosedAsParsed(s: Structure)
    ensures ClosedProgram(Elab(s)) <==> ClosedProgram(s)
  {
    hide Elab, LiteralName;
    ElabConns(s);
    assert SELF != NONE by { assert |SELF| == 1; }
    var e := Elab(s);
    forall i | 0 <= i < |s.conns|
      ensures (e.conns[i].src == SELF <==> s.conns[i].src == SELF) && e.conns[i].dst == s.conns[i].dst
    {
      LiteralNameFacts(Implicits(s.conns, i + 1));
      assert e.conns[i] == Explicit(s.conns, i);
    }
  }

  /** Every inport of a leaf actor occurs in the table exactly once, if and only if no link of the
      script itself starts at a port `.p`: such a link is accepted, and makes no connection. */
  lemma InportsListedOnceIff(root: string, s: Structure)
    requires SourceAccepted(s)
    ensures (forall y :: LeafInport(Elab(s), y) ==> ListedOnce(FlatConnections(root, s), Name(root, y)))
        <==> ClosedProgram(s)
  {
    hide SourceAccepted, Accepted, Elab, Wires, Name, ListedOnce, Fed, LeafInport, FlatConnections, ClosedProgram;
    ElabAccepted(s);
    InportsFedOnceIff(Elab(s));
    ClosedAsParsed(s);
    forall y | LeafInport(Elab(s), y)
      ensures ListedOnce(FlatConnections(root, s), Name(root, y)) <==> Fed(y, Wires(Elab(s))) == 1
    {
      ListedIsFed(root, s, y);
    }
  }
}
