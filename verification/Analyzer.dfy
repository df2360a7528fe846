/** The analyzer's recursive expansion of components into leaf-to-leaf connections (analyzer.py:122-244). */
module Analyzer {
  import opened CalvinScript
  import opened Literals
  import opened PortNames
  import opened PortTables
  import opened Wiring

  /** What the lexer and the parser's dictionaries guarantee of names, at every level. */
  predicate Lexed(s: Structure)
    decreases s
  {
    && IdentifierNames(s) && Endpoints(s)
    && forall i :: 0 <= i < |s.actors| && s.actors[i].kind.Comp? ==> Lexed(s.actors[i].kind.body)
  }

  predicate Endpoints(s: Structure) {
    forall c :: c in s.conns ==>
      && (c.src == SELF || c.src == NONE || Identifier(c.src))
      && (c.dst == SELF || Identifier(c.dst))
  }

  lemma {:induction false} AcceptedIsLexed(s: Structure)
    requires SourceAccepted(s)
    ensures Lexed(s)
    decreases s
  {
    hide Identifier, ActorLinked, BoundaryLinked;
    forall c | c in s.conns
      ensures (c.src == SELF || c.src == NONE || Identifier(c.src)) && (c.dst == SELF || Identifier(c.dst))
    {
      if Declared(s, c.src) { NameIsIdentifier(s, IndexOf(s.actors, c.src)); }
      if Declared(s, c.dst) { NameIsIdentifier(s, IndexOf(s.actors, c.dst)); }
    }
    forall i | 0 <= i < |s.actors| && s.actors[i].kind.Comp? ensures Lexed(s.actors[i].kind.body) {
      AcceptedIsLexed(s.actors[i].kind.body);
    }
  }

  lemma PlainEndpoints(s: Structure, c: Conn)
    requires Lexed(s) && c in Elab(s).conns
    ensures (c.src == SELF || PlainName(c.src)) && (c.dst == SELF || PlainName(c.dst))
  {
    hide Elab, Identifier, LiteralName, IdentifierNames;
    ElabConns(s);
    ConnOrigin(s, Elab(s), c);
    var i :| 0 <= i < |s.conns| && c == Explicit(s.conns, i);
    var o := s.conns[i];
    assert o in s.conns;
    LiteralNameFacts(Implicits(s.conns, i + 1));
    if o.src != SELF && o.src != NONE { IdentifierFacts(o.src); }
    if o.dst != SELF { IdentifierFacts(o.dst); }
  }

  /** What the analyzer sees of the fully expanded program when it looks at one structure. */
  lemma ElabActor(s: Structure, i: nat)
    requires i < |Expanded(s).actors|
    ensures |Elab(s).actors| == |Expanded(s).actors| && Elab(s).conns == Expanded(s).conns
    ensures var d, d' := Expanded(s).actors[i], Elab(s).actors[i];
            && d'.name == d.name && (d'.kind.Comp? <==> d.kind.Comp?)
            && (d.kind.Comp? ==> i < |s.actors| && d == s.actors[i] && d'.kind.body == Elab(d.kind.body))
  {
    hide Elab, LiteralName, Implicits, Explicit;
    ElabUnfolds(s);
    ExpandedActors(s, i);
  }

  lemma ElabShape(s: Structure)
    ensures |Elab(s).actors| == |Expanded(s).actors| && Elab(s).conns == Expanded(s).conns
  {
    hide Elab, ElabDecls, LiteralName, Implicits, Explicit;
    ElabUnfolds(s);
  }

  /** A link's contribution: an entry for the caller's mapping of inports or outports, or nothing. */
  datatype Export = Nothing | InPort(port: string, targets: seq<string>) | OutPort(port: string, origin: string)

  ghost function ExportOf(namespace: string, s: Structure, c: Conn): Export {
    if Inside(c) then Nothing
    else if c.dst != SELF then
      InPort(FullPortName(namespace, SELF, c.srcPort), Names(namespace, Target(s, c.dst, c.dstPort)))
    else OutPort(FullPortName(namespace, SELF, c.dstPort), Name(namespace, SourceOf(s, c)))
  }

  ghost function WiresOf(s: Structure, c: Conn): seq<Wire> {
    if Inside(c) then Fan(Origin(s, c.src, c.srcPort), Target(s, c.dst, c.dstPort)) else []
  }

  lemma OwnWiresNext(s: Structure, i: nat)
    requires i < |s.conns|
    ensures OwnWires(s, i + 1) == OwnWires(s, i) + WiresOf(s, s.conns[i])
  {
  }

  lemma ChildWiresNext(s: Structure, i: nat)
    requires i < |s.actors|
    ensures ChildWires(s, i + 1) == ChildWires(s, i)
              + if s.actors[i].kind.Comp? then WiresWithin(s.actors[i].name, Wires(s.actors[i].kind.body)) else []
  {
  }

  lemma ExportNext(ei: Table, eo: map<string, string>, namespace: string, s: Structure, i: nat)
    requires i < |s.conns| && ExportsIn(ei, namespace, s, i) && ExportsOut(eo, namespace, s, i)
    ensures var x := ExportOf(namespace, s, s.conns[i]);
            && ExportsIn(if x.InPort? then Extend(ei, x.port, x.targets) else ei, namespace, s, i + 1)
            && ExportsOut(if x.OutPort? then eo[x.port := x.origin] else eo, namespace, s, i + 1)
  {
    hide ExportsIn, ExportsOut, Name, Names, FullPortName, Target, SourceOf, Extend;
    var c := s.conns[i];
    if c.src == SELF && c.dst != SELF { ExportsInNext(ei, namespace, s, i); } else { ExportsInSkip(ei, namespace, s, i); }
    if c.dst == SELF { ExportsOutNext(eo, namespace, s, i); } else { ExportsOutSkip(eo, namespace, s, i); }
  }

  /** Port names a link resolves to, given the mappings of the components among the actors. */
  lemma Resolved(m: Table, o: map<string, string>, namespace: string, s: Structure, c: Conn)
    requires ProperNames(s) && InMaps(m, namespace, s, |s.actors|) && OutMaps(o, namespace, s, |s.actors|)
    requires c.src == SELF || PlainName(c.src)
    requires c.dst == SELF || PlainName(c.dst)
    ensures var k := FullPortName(namespace, c.dst, c.dstPort);
            if c.dst == SELF then k !in m else (if k in m then m[k] else [k]) == Names(namespace, Target(s, c.dst, c.dstPort))
    ensures var k := FullPortName(namespace, c.src, c.srcPort);
            (if k in o then o[k] else k) == Name(namespace, SourceOf(s, c))
  {
    hide InMaps, OutMaps, Names, Target, Origin, ProperNames;
    if c.dst == SELF {
      OwnPortUnmapped(m, o, namespace, s, |s.actors|, c.dstPort);
    } else {
      InLookup(m, namespace, s, c.dst, c.dstPort);
    }
    if c.src == SELF {
      OwnPortUnmapped(m, o, namespace, s, |s.actors|, c.srcPort);
    } else {
      OutLookup(o, namespace, s, c.src, c.srcPort);
    }
  }

  class Analyzer {
    var connections: Table

    /** Analyze a whole script; its root namespace is the script's name. */
    constructor (structure: Structure, root: string)
      requires Lexed(structure)
      ensures connections == Grouped(map[], NamedWires(root, Wires(Elab(structure))))
    {
      connections := map[];
      new;
      var exportIn, exportOut := AnalyzeStructure(structure, root);
    }

    method AddConnection(src: string, dst: seq<string>)
      modifies this
      ensures connections == Extend(old(connections), src, dst)
    {
      if src !in connections { connections := connections[src := []]; }
      connections := connections[src := connections[src] + dst];
    }

    /** Each literal becomes a constant actor of its own, counted from 1. */
    method ExpandLiterals(s: Structure) returns (e: Structure)
      ensures e == Expanded(s)
    {
      var actors, conns := s.actors, s.conns;
      var count, i := 1, 0;
      while i < |s.conns|
        invariant 0 <= i <= |s.conns| == |conns| && count == Implicits(s.conns, i) + 1
        invariant forall k :: 0 <= k < i ==> conns[k] == Explicit(s.conns, k)
        invariant forall k :: i <= k < |conns| ==> conns[k] == s.conns[k]
        invariant actors == s.actors + Constants(Implicits(s.conns, i))
      {
        if conns[i].src == NONE {
          var name := LiteralName(count);
          ghost var before := Constants(Implicits(s.conns, i));
          assert before + [Decl(name, CONSTANT)] == Constants(Implicits(s.conns, i + 1));
          assert s.actors + before + [Decl(name, CONSTANT)] == s.actors + (before + [Decl(name, CONSTANT)]);
          actors := actors + [Decl(name, CONSTANT)];
          conns := conns[i := Conn(name, "token", conns[i].dst, conns[i].dstPort)];
          count := count + 1;
        }
        i := i + 1;
      }
      e := Structure(actors, conns);
      assert conns == ExplicitConns(s.conns);
    }

    method CreateConnection(c: Conn, namespace: string, inMappings: Table, outMappings: map<string, string>,
                            ghost s: Structure)
      returns (made: Export)
      requires ProperNames(s) && InMaps(inMappings, namespace, s, |s.actors|)
      requires OutMaps(outMappings, namespace, s, |s.actors|)
      requires c.src == SELF || PlainName(c.src)
      requires c.dst == SELF || PlainName(c.dst)
      modifies this
      ensures made == ExportOf(namespace, s, c)
      ensures connections == Grouped(old(connections), NamedWires(namespace, WiresOf(s, c)))
    {
      hide InMaps, OutMaps, ProperNames, Names, Target, Name, Origin;
      var src := FullPortName(namespace, c.src, c.srcPort);
      var dst := FullPortName(namespace, c.dst, c.dstPort);
      Resolved(inMappings, outMappings, namespace, s, c);
      var targets := if dst in inMappings then inMappings[dst] else [dst];
      var origin := if src in outMappings then outMappings[src] else src;
      if c.src != SELF && c.dst != SELF {
        GroupedFan(connections, namespace, Origin(s, c.src, c.srcPort), Target(s, c.dst, c.dstPort));
        AddConnection(origin, targets);
        made := Nothing;
      } else if c.dst != SELF {
        OwnPortUnmapped(inMappings, outMappings, namespace, s, |s.actors|, c.srcPort);
        made := InPort(origin, targets);
      } else {
        made := OutPort(dst, origin);
      }
    }

    method AnalyzeStructure(structure: Structure, namespace: string)
      returns (exportIn: Table, exportOut: map<string, string>)
      requires Lexed(structure)
      modifies this
      ensures connections == Grouped(old(connections), NamedWires(namespace, Wires(Elab(structure))))
      ensures ExportsIn(exportIn, namespace, Elab(structure), |Elab(structure).conns|)
      ensures ExportsOut(exportOut, namespace, Elab(structure), |Elab(structure).conns|)
      decreases structure
    {
      var e := ExpandLiterals(structure);
      var inMappings, outMappings := AnalyzeActors(e, namespace, structure);
      exportIn, exportOut := ConnectAll(e, namespace, inMappings, outMappings, structure);
      ghost var s := Elab(structure);
      GroupedNext(old(connections), namespace, ChildWires(s, |s.actors|), OwnWires(s, |s.conns|));
    }

    /** The loop over the actors: recurse into each component. */
    method AnalyzeActors(e: Structure, namespace: string, ghost structure: Structure)
      returns (inMappings: Table, outMappings: map<string, string>)
      requires Lexed(structure) && e == Expanded(structure)
      modifies this
      ensures var s := Elab(structure);
              && connections == Grouped(old(connections), NamedWires(namespace, ChildWires(s, |s.actors|)))
              && InMaps(inMappings, namespace, s, |s.actors|) && OutMaps(outMappings, namespace, s, |s.actors|)
      decreases structure, 0
    {
      hide InMaps, OutMaps, ExportsIn, ExportsOut, ChildWires, Grouped, NamedWires, Elab, Expanded, ProperNames, Identifier;
      inMappings, outMappings := map[], map[];
      ghost var s := Elab(structure);
      ElabProper(structure);
      ElabShape(structure);
      StartMaps(namespace, s);
      StartWires(connections, namespace, s);
      var i := 0;
      while i < |e.actors|
        invariant 0 <= i <= |e.actors| == |s.actors|
        invariant InMaps(inMappings, namespace, s, i) && OutMaps(outMappings, namespace, s, i)
        invariant connections == Grouped(old(connections), NamedWires(namespace, ChildWires(s, i)))
      {
        var d := e.actors[i];
        ElabActor(structure, i);
        ChildWiresNext(s, i);
        if d.kind.Comp? {
          ghost var ws := Wires(Elab(d.kind.body));
          GroupedNext(old(connections), namespace, ChildWires(s, i), WiresWithin(d.name, ws));
          NamedWiresWithin(namespace, d.name, ws);
          var compIn, compOut := AnalyzeStructure(d.kind.body, namespace + ":" + d.name);
          InMapsNext(inMappings, compIn, namespace, s, i);
          OutMapsNext(outMappings, compOut, namespace, s, i);
          inMappings := inMappings + compIn;
          outMappings := outMappings + compOut;
        } else {
          assert ChildWires(s, i) + [] == ChildWires(s, i);
          MapsSkip(inMappings, outMappings, namespace, s, i);
        }
        i := i + 1;
      }
    }

    /** The loop over the links. */
    method ConnectAll(e: Structure, namespace: string, inMappings: Table, outMappings: map<string, string>,
                      ghost structure: Structure)
      returns (exportIn: Table, exportOut: map<string, string>)
      requires Lexed(structure) && e == Expanded(structure)
      requires InMaps(inMappings, namespace, Elab(structure), |Elab(structure).actors|)
      requires OutMaps(outMappings, namespace, Elab(structure), |Elab(structure).actors|)
      modifies this
      ensures var s := Elab(structure);
              && connections == Grouped(old(connections), NamedWires(namespace, OwnWires(s, |s.conns|)))
              && ExportsIn(exportIn, namespace, s, |s.conns|) && ExportsOut(exportOut, namespace, s, |s.conns|)
    {
      hide InMaps, OutMaps, ExportsIn, ExportsOut, OwnWires, Grouped, NamedWires, Elab, Expanded, ProperNames, Identifier;
      ghost var s := Elab(structure);
      ElabProper(structure);
      ElabShape(structure);
      exportIn, exportOut := map[], map[];
      StartExports(namespace, s);
      StartOwn(connections, namespace, s);
      var i := 0;
      while i < |e.conns|
        invariant 0 <= i <= |e.conns| && e.conns == s.conns
        invariant ExportsIn(exportIn, namespace, s, i) && ExportsOut(exportOut, namespace, s, i)
        invariant connections == Grouped(old(connections), NamedWires(namespace, OwnWires(s, i)))
      {
        PlainEndpoints(structure, s.conns[i]);
        OwnWiresNext(s, i);
        GroupedNext(old(connections), namespace, OwnWires(s, i), WiresOf(s, s.conns[i]));
        ExportNext(exportIn, exportOut, namespace, s, i);
        var made := CreateConnection(e.conns[i], namespace, inMappings, outMappings, s);
        if made.InPort? {
          exportIn := Extend(exportIn, made.port, made.targets);
        } else if made.OutPort? {
          exportOut := exportOut[made.port := made.origin];
        }
        i := i + 1;
      }
    }
  }

  lemma StartMaps(namespace: string, s: Structure)
    ensures InMaps(map[], namespace, s, 0) && OutMaps(map[], namespace, s, 0)
  {
  }

  lemma StartWires(m: Table, namespace: string, s: Structure)
    ensures m == Grouped(m, NamedWires(namespace, ChildWires(s, 0)))
  {
  }

  lemma StartExports(namespace: string, s: Structure)
    ensures ExportsIn(map[], namespace, s, 0) && ExportsOut(map[], namespace, s, 0)
  {
  }

  lemma StartOwn(m: Table, namespace: string, s: Structure)
    ensures m == Grouped(m, NamedWires(namespace, OwnWires(s, 0)))
  {
  }
}
