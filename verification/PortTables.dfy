/** The dictionaries the analyzer fills, and what they hold (analyzer.py:122-126, 167-192, 232-242). */
module PortTables {
  import opened CalvinScript
  import opened PortNames
  import opened Wiring

  type Table = map<string, seq<string>>
  type NamedWire = (string, string)

  /** d.setdefault(k, []).extend(ys) */
  function Extend(m: Table, k: string, ys: seq<string>): Table {
    m[k := (if k in m then m[k] else []) + ys]
  }

  function NamedWires(namespace: string, ws: seq<Wire>): (r: seq<NamedWire>)
    ensures |r| == |ws|
    ensures forall i :: 0 <= i < |ws| ==> r[i] == (Name(namespace, ws[i].0), Name(namespace, ws[i].1))
  {
    seq(|ws|, i requires 0 <= i < |ws| => (Name(namespace, ws[i].0), Name(namespace, ws[i].1)))
  }

  /** The connections made one after another. */
  function Grouped(m: Table, ws: seq<NamedWire>): Table {
    if ws == [] then m
    else Extend(Grouped(m, ws[..|ws| - 1]), ws[|ws| - 1].0, [ws[|ws| - 1].1])
  }

  lemma {:induction false} GroupedConcat(m: Table, ws: seq<NamedWire>, vs: seq<NamedWire>)
    ensures Grouped(m, ws + vs) == Grouped(Grouped(m, ws), vs)
    decreases |vs|
  {
    if vs == [] {
      assert ws + vs == ws;
    } else {
      assert (ws + vs)[..|ws + vs| - 1] == ws + vs[..|vs| - 1];
      GroupedConcat(m, ws, vs[..|vs| - 1]);
    }
  }

  lemma NamedWiresConcat(namespace: string, ws: seq<Wire>, vs: seq<Wire>)
    ensures NamedWires(namespace, ws + vs) == NamedWires(namespace, ws) + NamedWires(namespace, vs)
  {
    hide Name;
  }

  lemma GroupedNext(m: Table, namespace: string, ws: seq<Wire>, vs: seq<Wire>)
    ensures Grouped(m, NamedWires(namespace, ws + vs))
         == Grouped(Grouped(m, NamedWires(namespace, ws)), NamedWires(namespace, vs))
  {
    hide Grouped;
    NamedWiresConcat(namespace, ws, vs);
    GroupedConcat(m, NamedWires(namespace, ws), NamedWires(namespace, vs));
  }

  /** Connecting one source to a list at once is connecting it to each in turn. */
  lemma {:induction false} GroupedFan(m: Table, namespace: string, x: Node, ys: seq<Node>)
    requires ys != []
    ensures Grouped(m, NamedWires(namespace, Fan(x, ys))) == Extend(m, Name(namespace, x), Names(namespace, ys))
    decreases |ys|
  {
    hide Name;
    var ws := NamedWires(namespace, Fan(x, ys));
    var init := ys[..|ys| - 1];
    assert ws[..|ws| - 1] == NamedWires(namespace, Fan(x, init));
    assert Names(namespace, ys) == Names(namespace, init) + [Name(namespace, ys[|ys| - 1])];
    if init == [] {
      assert ws[..|ws| - 1] == [];
      assert Names(namespace, ys) == [ws[|ws| - 1].1];
    } else {
      GroupedFan(m, namespace, x, init);
      var before := if Name(namespace, x) in m then m[Name(namespace, x)] else [];
      assert before + Names(namespace, init) + [ws[|ws| - 1].1] == before + Names(namespace, ys);
    }
  }

  lemma NamedWiresWithin(namespace: string, a: string, ws: seq<Wire>)
    ensures NamedWires(namespace, WiresWithin(a, ws)) == NamedWires(namespace + ":" + a, ws)
  {
    hide Name;
    forall i | 0 <= i < |ws|
      ensures NamedWires(namespace, WiresWithin(a, ws))[i] == NamedWires(namespace + ":" + a, ws)[i]
    {
      NameWithin(namespace, a, ws[i].0);
      NameWithin(namespace, a, ws[i].1);
    }
  }

  lemma NamesConcat(namespace: string, xs: seq<Node>, ys: seq<Node>)
    ensures Names(namespace, xs + ys) == Names(namespace, xs) + Names(namespace, ys)
  {
    hide Name;
  }

  lemma FullPortNameInjective(namespace: string, a: string, p: string, b: string, q: string)
    requires PlainName(a) && PlainName(b) && FullPortName(namespace, a, p) == FullPortName(namespace, b, q)
    ensures a == b && p == q
  {
    assert SELF[0] == '.';
    var u, v := a + ("." + p), b + ("." + q);
    assert FullPortName(namespace, a, p) == namespace + ":" + u;
    assert FullPortName(namespace, b, q) == namespace + ":" + v;
    assert u == (namespace + ":" + u)[|namespace| + 1..];
    assert v == (namespace + ":" + v)[|namespace| + 1..];
    SplitPlain(a, "." + p, b, "." + q);
    assert ("." + p)[1..] == p && ("." + q)[1..] == q;
  }

  lemma OwnPortName(namespace: string, p: string, a: string, q: string)
    ensures FullPortName(namespace, SELF, p) == FullPortName(namespace, SELF, q) ==> p == q
    ensures PlainName(a) ==> FullPortName(namespace, SELF, p) != FullPortName(namespace, a, q)
  {
    assert SELF[0] == '.';
    assert (namespace + "." + p)[|namespace| + 1..] == p && (namespace + "." + q)[|namespace| + 1..] == q;
    assert (namespace + "." + p)[|namespace|] == '.' && (namespace + ":" + a + "." + q)[|namespace|] == ':';
  }

  // ------------------------------------------------------------ exported mappings

  /** What the first i links of s export for the inports of its component, by full name. */
  ghost predicate ExportsIn(m: Table, namespace: string, s: Structure, i: nat)
    requires i <= |s.conns|
  {
    && (forall p :: Down(s, i, p) != [] ==>
          FullPortName(namespace, SELF, p) in m && m[FullPortName(namespace, SELF, p)] == Names(namespace, Down(s, i, p)))
    && (forall k :: k in m ==> exists p :: k == FullPortName(namespace, SELF, p) && Down(s, i, p) != [])
  }

  ghost predicate ExportsOut(m: map<string, string>, namespace: string, s: Structure, i: nat)
    requires i <= |s.conns|
  {
    && (forall p :: LastExit(s, i, p) >= 0 ==>
          FullPortName(namespace, SELF, p) in m && m[FullPortName(namespace, SELF, p)] == Name(namespace, Up(s, i, p)))
    && (forall k :: k in m ==> exists p :: k == FullPortName(namespace, SELF, p) && LastExit(s, i, p) >= 0)
  }

  lemma ExportsInSkip(m: Table, namespace: string, s: Structure, i: nat)
    requires i < |s.conns| && ExportsIn(m, namespace, s, i)
    requires s.conns[i].src != SELF || s.conns[i].dst == SELF
    ensures ExportsIn(m, namespace, s, i + 1)
  {
    hide Names, FullPortName;
    forall p ensures Down(s, i + 1, p) == Down(s, i, p) { DownNext(s, i, p); }
  }

  lemma DownNext(s: Structure, i: nat, p: string)
    requires i < |s.conns|
    ensures Down(s, i + 1, p) == Down(s, i, p)
              + if Enters(s.conns[i], p) then Target(s, s.conns[i].dst, s.conns[i].dstPort) else []
  {
  }

  lemma ExportsInNext(m: Table, namespace: string, s: Structure, i: nat)
    requires i < |s.conns| && ExportsIn(m, namespace, s, i)
    requires s.conns[i].src == SELF && s.conns[i].dst != SELF
    ensures var c := s.conns[i];
            ExportsIn(Extend(m, FullPortName(namespace, SELF, c.srcPort), Names(namespace, Target(s, c.dst, c.dstPort))),
                      namespace, s, i + 1)
  {
    hide Names, FullPortName, Down, Target;
    var c := s.conns[i];
    var key := FullPortName(namespace, SELF, c.srcPort);
    var ys := Target(s, c.dst, c.dstPort);
    var m' := Extend(m, key, Names(namespace, ys));
    forall p
      ensures Down(s, i + 1, p) != [] ==>
        FullPortName(namespace, SELF, p) in m'
        && m'[FullPortName(namespace, SELF, p)] == Names(namespace, Down(s, i + 1, p))
    {
      DownNext(s, i, p);
      OwnPortName(namespace, p, "", c.srcPort);
      if p == c.srcPort {
        NamesConcat(namespace, Down(s, i, p), ys);
        NothingYet(m, namespace, s, i, p);
      }
    }
    forall k | k in m' ensures exists p :: k == FullPortName(namespace, SELF, p) && Down(s, i + 1, p) != [] {
      if k == key {
        DownNext(s, i, c.srcPort);
      } else {
        var p :| k == FullPortName(namespace, SELF, p) && Down(s, i, p) != [];
        DownNext(s, i, p);
      }
    }
  }

  lemma NothingYet(m: Table, namespace: string, s: Structure, i: nat, p: string)
    requires i <= |s.conns| && ExportsIn(m, namespace, s, i)
    ensures (if FullPortName(namespace, SELF, p) in m then m[FullPortName(namespace, SELF, p)] else [])
         == Names(namespace, Down(s, i, p))
  {
    hide FullPortName, Down, Name;
    if FullPortName(namespace, SELF, p) in m {
      var q :| FullPortName(namespace, SELF, p) == FullPortName(namespace, SELF, q) && Down(s, i, q) != [];
      OwnPortName(namespace, p, "", q);
    }
  }

  lemma ExportsOutSkip(m: map<string, string>, namespace: string, s: Structure, i: nat)
    requires i < |s.conns| && ExportsOut(m, namespace, s, i) && s.conns[i].dst != SELF
    ensures ExportsOut(m, namespace, s, i + 1)
  {
    hide Name, FullPortName, SourceOf;
    assert forall p :: LastExit(s, i + 1, p) == LastExit(s, i, p);
  }

  lemma ExportsOutNext(m: map<string, string>, namespace: string, s: Structure, i: nat)
    requires i < |s.conns| && ExportsOut(m, namespace, s, i) && s.conns[i].dst == SELF
    ensures var c := s.conns[i];
            ExportsOut(m[FullPortName(namespace, SELF, c.dstPort) := Name(namespace, SourceOf(s, c))], namespace, s, i + 1)
  {
    hide Name, FullPortName, SourceOf, LastExit, Up;
    var c := s.conns[i];
    var key := FullPortName(namespace, SELF, c.dstPort);
    var m' := m[key := Name(namespace, SourceOf(s, c))];
    ExitHere(s, i);
    forall p
      ensures LastExit(s, i + 1, p) >= 0 ==>
        FullPortName(namespace, SELF, p) in m' && m'[FullPortName(namespace, SELF, p)] == Name(namespace, Up(s, i + 1, p))
    {
      OwnPortName(namespace, p, "", c.dstPort);
      if p != c.dstPort { ExitElsewhere(s, i, p); }
    }
    forall k | k in m' ensures exists p :: k == FullPortName(namespace, SELF, p) && LastExit(s, i + 1, p) >= 0 {
      if k != key {
        var p :| k == FullPortName(namespace, SELF, p) && LastExit(s, i, p) >= 0;
        if p != c.dstPort { ExitElsewhere(s, i, p); }
      }
    }
  }

  lemma ExitHere(s: Structure, i: nat)
    requires i < |s.conns| && s.conns[i].dst == SELF
    ensures LastExit(s, i + 1, s.conns[i].dstPort) == i && Up(s, i + 1, s.conns[i].dstPort) == SourceOf(s, s.conns[i])
  {
  }

  lemma ExitElsewhere(s: Structure, i: nat, p: string)
    requires i < |s.conns| && s.conns[i].dstPort != p
    ensures LastExit(s, i + 1, p) == LastExit(s, i, p)
    ensures LastExit(s, i, p) >= 0 ==> Up(s, i + 1, p) == Up(s, i, p)
  {
  }

  // ------------------------------------------------------------ mappings seen by the caller

  /** a is a component among the first i actors. */
  predicate Known(s: Structure, i: nat, a: string) { IsComp(s, a) && IndexOf(s.actors, a) < i }

  predicate EntersComp(s: Structure, a: string, q: string) {
    IsComp(s, a) && Down(Body(s, a), |Body(s, a).conns|, q) != []
  }

  predicate LeavesComp(s: Structure, a: string, q: string) { IsComp(s, a) && HasExit(Body(s, a), q) }

  ghost predicate InMaps(m: Table, namespace: string, s: Structure, i: nat) {
    && (forall a, q :: Known(s, i, a) && EntersComp(s, a, q) ==>
          FullPortName(namespace, a, q) in m && m[FullPortName(namespace, a, q)] == Names(namespace, Target(s, a, q)))
    && (forall k :: k in m ==> exists a, q :: k == FullPortName(namespace, a, q) && Known(s, i, a) && EntersComp(s, a, q))
  }

  ghost predicate OutMaps(m: map<string, string>, namespace: string, s: Structure, i: nat) {
    && (forall a, q :: Known(s, i, a) && LeavesComp(s, a, q) ==>
          FullPortName(namespace, a, q) in m && m[FullPortName(namespace, a, q)] == Name(namespace, Origin(s, a, q)))
    && (forall k :: k in m ==> exists a, q :: k == FullPortName(namespace, a, q) && Known(s, i, a) && LeavesComp(s, a, q))
  }

  lemma KnownIsPlain(s: Structure, i: nat, a: string)
    requires ProperNames(s) && Known(s, i, a)
    ensures PlainName(a) && a != SELF
  {
    assert SELF[0] == '.';
    assert s.actors[IndexOf(s.actors, a)].name == a;
  }

  lemma KnownNext(s: Structure, i: nat, a: string)
    requires ProperNames(s) && i < |s.actors|
    ensures Known(s, i + 1, a) <==> Known(s, i, a) || (a == s.actors[i].name && s.actors[i].kind.Comp?)
    ensures IndexOf(s.actors, s.actors[i].name) == i
  {
    assert s.actors[IndexOf(s.actors, s.actors[i].name)].name == s.actors[i].name;
  }

  lemma MapsSkip(m: Table, o: map<string, string>, namespace: string, s: Structure, i: nat)
    requires ProperNames(s) && i < |s.actors| && !s.actors[i].kind.Comp?
    requires InMaps(m, namespace, s, i) && OutMaps(o, namespace, s, i)
    ensures InMaps(m, namespace, s, i + 1) && OutMaps(o, namespace, s, i + 1)
  {
    hide Known, EntersComp, LeavesComp, ProperNames, FullPortName;
    forall a ensures Known(s, i + 1, a) <==> Known(s, i, a) { KnownNext(s, i, a); }
  }

  /** Names of what lies behind port q, seen from outside and from inside the component. */
  lemma ChildTarget(namespace: string, s: Structure, a: string, q: string)
    requires EntersComp(s, a, q)
    ensures Names(namespace, Target(s, a, q))
         == Names(namespace + ":" + a, Down(Body(s, a), |Body(s, a).conns|, q))
  {
    hide Names, Down;
    TargetOfComp(s, a, q);
    NamesWithin(namespace, a, Down(Body(s, a), |Body(s, a).conns|, q), Target(s, a, q));
  }

  lemma TargetOfComp(s: Structure, a: string, q: string)
    requires EntersComp(s, a, q)
    ensures Target(s, a, q) == AllWithin(a, Down(Body(s, a), |Body(s, a).conns|, q))
  {
  }

  lemma InMapsNext(m: Table, child: Table, namespace: string, s: Structure, i: nat)
    requires ProperNames(s) && i < |s.actors| && s.actors[i].kind.Comp? && InMaps(m, namespace, s, i)
    requires ExportsIn(child, namespace + ":" + s.actors[i].name, s.actors[i].kind.body, |s.actors[i].kind.body.conns|)
    ensures InMaps(m + child, namespace, s, i + 1)
  {
    hide Known, Names, FullPortName, Down, Target, ProperNames, InMaps, ExportsIn;
    var b := s.actors[i].name;
    var inner := namespace + ":" + b;
    KnownNext(s, i, b);
    KnownIsPlain(s, i + 1, b);
    forall a, q | Known(s, i + 1, a) && EntersComp(s, a, q)
      ensures FullPortName(namespace, a, q) in m + child
      ensures (m + child)[FullPortName(namespace, a, q)] == Names(namespace, Target(s, a, q))
    {
      KnownNext(s, i, a);
      KnownIsPlain(s, i + 1, a);
      if a == b {
        SameNameBothSides(namespace, b, q);
        ChildTarget(namespace, s, b, q);
        ExportsInAt(child, inner, s.actors[i].kind.body, q);
      } else {
        InMapsAt(m, namespace, s, i, a, q);
        OtherKey(child, namespace, s.actors[i].kind.body, b, a, q);
      }
    }
    forall k | k in m + child
      ensures exists a, q :: k == FullPortName(namespace, a, q) && Known(s, i + 1, a) && EntersComp(s, a, q)
    {
      if k in child {
        var q := ExportsInKey(child, inner, s.actors[i].kind.body, k);
        SameNameBothSides(namespace, b, q);
        assert EntersComp(s, b, q);
      } else {
        var a, q := InMapsKey(m, namespace, s, i, k);
        KnownNext(s, i, a);
      }
    }
    InMapsFold(m + child, namespace, s, i + 1);
  }

  lemma InMapsFold(m: Table, namespace: string, s: Structure, i: nat)
    requires forall a, q :: Known(s, i, a) && EntersComp(s, a, q) ==>
      FullPortName(namespace, a, q) in m && m[FullPortName(namespace, a, q)] == Names(namespace, Target(s, a, q))
    requires forall k :: k in m ==> exists a, q :: k == FullPortName(namespace, a, q) && Known(s, i, a) && EntersComp(s, a, q)
    ensures InMaps(m, namespace, s, i)
  {
    hide Known, Names, FullPortName, Down, Target, EntersComp;
  }

  lemma InMapsAt(m: Table, namespace: string, s: Structure, i: nat, a: string, q: string)
    requires InMaps(m, namespace, s, i) && Known(s, i, a) && EntersComp(s, a, q)
    ensures FullPortName(namespace, a, q) in m && m[FullPortName(namespace, a, q)] == Names(namespace, Target(s, a, q))
  {
    hide Known, Names, FullPortName, Down, Target, EntersComp;
  }

  lemma InMapsKey(m: Table, namespace: string, s: Structure, i: nat, k: string) returns (a: string, q: string)
    requires InMaps(m, namespace, s, i) && k in m
    ensures k == FullPortName(namespace, a, q) && Known(s, i, a) && EntersComp(s, a, q)
  {
    hide Known, Names, FullPortName, Down, Target, EntersComp;
    a, q :| k == FullPortName(namespace, a, q) && Known(s, i, a) && EntersComp(s, a, q);
  }

  lemma ExportsInAt(m: Table, namespace: string, s: Structure, q: string)
    requires ExportsIn(m, namespace, s, |s.conns|) && Down(s, |s.conns|, q) != []
    ensures FullPortName(namespace, SELF, q) in m
    ensures m[FullPortName(namespace, SELF, q)] == Names(namespace, Down(s, |s.conns|, q))
  {
    hide Names, FullPortName, Down;
  }

  lemma ExportsInKey(m: Table, namespace: string, s: Structure, k: string) returns (q: string)
    requires ExportsIn(m, namespace, s, |s.conns|) && k in m
    ensures k == FullPortName(namespace, SELF, q) && Down(s, |s.conns|, q) != []
  {
    hide Names, FullPortName, Down;
    q :| k == FullPortName(namespace, SELF, q) && Down(s, |s.conns|, q) != [];
  }

  /** A component exports no port of another actor. */
  lemma OtherKey(child: Table, namespace: string, body: Structure, b: string, a: string, q: string)
    requires ExportsIn(child, namespace + ":" + b, body, |body.conns|)
    requires PlainName(a) && PlainName(b) && a != b && b != SELF
    ensures FullPortName(namespace, a, q) !in child
  {
    hide FullPortName, ExportsIn;
    if FullPortName(namespace, a, q) in child {
      var p := ExportsInKey(child, namespace + ":" + b, body, FullPortName(namespace, a, q));
      SameNameBothSides(namespace, b, p);
      FullPortNameInjective(namespace, a, q, b, p);
    }
  }

  /** in_mappings.get(name, name) finds the leaf inports behind a port. */
  lemma InLookup(m: Table, namespace: string, s: Structure, a: string, q: string)
    requires ProperNames(s) && InMaps(m, namespace, s, |s.actors|) && PlainName(a)
    ensures var k := FullPortName(namespace, a, q);
            (if k in m then m[k] else [k]) == Names(namespace, Target(s, a, q))
  {
    hide FullPortName, Down, InMaps;
    var k := FullPortName(namespace, a, q);
    assert a != SELF by { assert SELF[0] == '.'; }
    if EntersComp(s, a, q) {
      InMapsAt(m, namespace, s, |s.actors|, a, q);
    } else {
      if k in m {
        var b, p := InMapsKey(m, namespace, s, |s.actors|, k);
        KnownIsPlain(s, |s.actors|, b);
        FullPortNameInjective(namespace, a, q, b, p);
      }
      TargetOfOther(s, a, q);
      SameNameBothSides(namespace, a, q);
    }
  }

  lemma TargetOfOther(s: Structure, a: string, q: string)
    requires !EntersComp(s, a, q)
    ensures Target(s, a, q) == [Node([a], In, q)]
  {
  }

  // ---- the same for outports

  lemma OutMapsFold(m: map<string, string>, namespace: string, s: Structure, i: nat)
    requires forall a, q :: Known(s, i, a) && LeavesComp(s, a, q) ==>
      FullPortName(namespace, a, q) in m && m[FullPortName(namespace, a, q)] == Name(namespace, Origin(s, a, q))
    requires forall k :: k in m ==> exists a, q :: k == FullPortName(namespace, a, q) && Known(s, i, a) && LeavesComp(s, a, q)
    ensures OutMaps(m, namespace, s, i)
  {
    hide Known, Name, FullPortName, Origin, LeavesComp;
  }

  lemma OutMapsAt(m: map<string, string>, namespace: string, s: Structure, i: nat, a: string, q: string)
    requires OutMaps(m, namespace, s, i) && Known(s, i, a) && LeavesComp(s, a, q)
    ensures FullPortName(namespace, a, q) in m && m[FullPortName(namespace, a, q)] == Name(namespace, Origin(s, a, q))
  {
    hide Known, Name, FullPortName, Origin, LeavesComp;
  }

  lemma OutMapsKey(m: map<string, string>, namespace: string, s: Structure, i: nat, k: string) returns (a: string, q: string)
    requires OutMaps(m, namespace, s, i) && k in m
    ensures k == FullPortName(namespace, a, q) && Known(s, i, a) && LeavesComp(s, a, q)
  {
    hide Known, Name, FullPortName, Origin, LeavesComp;
    a, q :| k == FullPortName(namespace, a, q) && Known(s, i, a) && LeavesComp(s, a, q);
  }

  lemma ExportsOutAt(m: map<string, string>, namespace: string, s: Structure, q: string)
    requires ExportsOut(m, namespace, s, |s.conns|) && HasExit(s, q)
    ensures FullPortName(namespace, SELF, q) in m
    ensures m[FullPortName(namespace, SELF, q)] == Name(namespace, Up(s, |s.conns|, q))
  {
    hide Name, FullPortName, Up, LastExit;
  }

  lemma ExportsOutKey(m: map<string, string>, namespace: string, s: Structure, k: string) returns (q: string)
    requires ExportsOut(m, namespace, s, |s.conns|) && k in m
    ensures k == FullPortName(namespace, SELF, q) && HasExit(s, q)
  {
    hide Name, FullPortName, Up, LastExit;
    q :| k == FullPortName(namespace, SELF, q) && LastExit(s, |s.conns|, q) >= 0;
  }

  lemma ChildOrigin(namespace: string, s: Structure, a: string, q: string)
    requires LeavesComp(s, a, q)
    ensures Name(namespace, Origin(s, a, q)) == Name(namespace + ":" + a, Up(Body(s, a), |Body(s, a).conns|, q))
  {
    hide Name, Up;
    assert Origin(s, a, q) == Within(a, Up(Body(s, a), |Body(s, a).conns|, q));
    NameWithin(namespace, a, Up(Body(s, a), |Body(s, a).conns|, q));
  }

  lemma OtherOutKey(child: map<string, string>, namespace: string, body: Structure, b: string, a: string, q: string)
    requires ExportsOut(child, namespace + ":" + b, body, |body.conns|)
    requires PlainName(a) && PlainName(b) && a != b && b != SELF
    ensures FullPortName(namespace, a, q) !in child
  {
    hide FullPortName, ExportsOut;
    if FullPortName(namespace, a, q) in child {
      var p := ExportsOutKey(child, namespace + ":" + b, body, FullPortName(namespace, a, q));
      SameNameBothSides(namespace, b, p);
      FullPortNameInjective(namespace, a, q, b, p);
    }
  }

  lemma OutMapsNext(m: map<string, string>, child: map<string, string>, namespace: string, s: Structure, i: nat)
    requires ProperNames(s) && i < |s.actors| && s.actors[i].kind.Comp? && OutMaps(m, namespace, s, i)
    requires ExportsOut(child, namespace + ":" + s.actors[i].name, s.actors[i].kind.body, |s.actors[i].kind.body.conns|)
    ensures OutMaps(m + child, namespace, s, i + 1)
  {
    hide Known, Name, FullPortName, Up, Origin, ProperNames, OutMaps, ExportsOut, HasExit;
    var b := s.actors[i].name;
    var inner := namespace + ":" + b;
    KnownNext(s, i, b);
    KnownIsPlain(s, i + 1, b);
    forall a, q | Known(s, i + 1, a) && LeavesComp(s, a, q)
      ensures FullPortName(namespace, a, q) in m + child
      ensures (m + child)[FullPortName(namespace, a, q)] == Name(namespace, Origin(s, a, q))
    {
      KnownNext(s, i, a);
      KnownIsPlain(s, i + 1, a);
      if a == b {
        SameNameBothSides(namespace, b, q);
        ChildOrigin(namespace, s, b, q);
        ExportsOutAt(child, inner, s.actors[i].kind.body, q);
      } else {
        OutMapsAt(m, namespace, s, i, a, q);
        OtherOutKey(child, namespace, s.actors[i].kind.body, b, a, q);
      }
    }
    forall k | k in m + child
      ensures exists a, q :: k == FullPortName(namespace, a, q) && Known(s, i + 1, a) && LeavesComp(s, a, q)
    {
      if k in child {
        var q := ExportsOutKey(child, inner, s.actors[i].kind.body, k);
        SameNameBothSides(namespace, b, q);
        assert LeavesComp(s, b, q);
      } else {
        var a, q := OutMapsKey(m, namespace, s, i, k);
        KnownNext(s, i, a);
      }
    }
    OutMapsFold(m + child, namespace, s, i + 1);
  }

  /** out_mappings.get(name, name) finds the leaf outport behind a port. */
  lemma OutLookup(m: map<string, string>, namespace: string, s: Structure, a: string, q: string)
    requires ProperNames(s) && OutMaps(m, namespace, s, |s.actors|) && PlainName(a)
    ensures var k := FullPortName(namespace, a, q);
            (if k in m then m[k] else k) == Name(namespace, Origin(s, a, q))
  {
    hide FullPortName, Up, OutMaps, HasExit;
    var k := FullPortName(namespace, a, q);
    assert a != SELF by { assert SELF[0] == '.'; }
    if LeavesComp(s, a, q) {
      OutMapsAt(m, namespace, s, |s.actors|, a, q);
    } else {
      if k in m {
        var b, p := OutMapsKey(m, namespace, s, |s.actors|, k);
        KnownIsPlain(s, |s.actors|, b);
        FullPortNameInjective(namespace, a, q, b, p);
      }
      SameNameBothSides(namespace, a, q);
    }
  }

  /** A component's own ports are in neither mapping. */
  lemma OwnPortUnmapped(m: Table, o: map<string, string>, namespace: string, s: Structure, i: nat, p: string)
    requires ProperNames(s) && InMaps(m, namespace, s, i) && OutMaps(o, namespace, s, i)
    ensures FullPortName(namespace, SELF, p) !in m && FullPortName(namespace, SELF, p) !in o
  {
    hide FullPortName, InMaps, OutMaps, EntersComp, LeavesComp;
    var k := FullPortName(namespace, SELF, p);
    if k in m {
      var a, q := InMapsKey(m, namespace, s, i, k);
      KnownIsPlain(s, i, a);
      OwnPortName(namespace, p, a, q);
    }
    if k in o {
      var a, q := OutMapsKey(o, namespace, s, i, k);
      KnownIsPlain(s, i, a);
      OwnPortName(namespace, p, a, q);
    }
  }
}
