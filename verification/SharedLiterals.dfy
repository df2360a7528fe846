/** Port literals of component definitions that several instances share. The analyzer expands the literals of
    a definition in the definition itself (analyzer.py:143-152), with the arguments of the instance it happens
    to visit first; a later instance finds no literal left to expand. Only components defined in the script
    are shared: one from the actor store is read from its file for every instance and counts as a definition of
    its own. */
module SharedLiterals {
  import opened Wrappers
  import opened Arguments
  import Constants

  /** The script itself; a component's name is not empty. */
  const ROOT: string := ""

  /** analyze_structure being called: the definition, its literals as written, the arguments handed down. */
  datatype Visit = Visit(def: string, literals: seq<Arg>, argd: Values)

  /** The calls below the first i declarations of a structure, in order. */
  function VisitsUpTo(cs: Constants.Table, s: Script, i: nat, argd: Values): seq<Visit>
    requires i <= |s.insts|
    decreases s, i
  {
    if i == 0 then []
    else
      var before, d := VisitsUpTo(cs, s, i - 1, argd), s.insts[i - 1];
      match d.kind
      case Primitive(_, _) => before
      case Component(def, _, body) => before + Visits(cs, def, body, AllResolved(cs, d.args, argd))
  }

  function Visits(cs: Constants.Table, def: string, s: Script, argd: Values): (r: seq<Visit>)
    ensures r != []
    decreases s, |s.insts| + 1
  {
    [Visit(def, s.literals, argd)] + VisitsUpTo(cs, s, |s.insts|, argd)
  }

  /** The values a visit would give the literals, were they still there. */
  function Own(cs: Constants.Table, v: Visit): seq<string> { LiteralValues(cs, v.literals, v.argd) }

  /** For each definition the data of the constants put into it so far. */
  type Data = map<string, seq<string>>

  function Learned(cs: Constants.Table, t: Data, v: Visit): Data {
    if v.def in t then t else t[v.def := Own(cs, v)]
  }

  function After(cs: Constants.Table, t: Data, vs: seq<Visit>): Data {
    if vs == [] then t else Learned(cs, After(cs, t, vs[..|vs| - 1]), vs[|vs| - 1])
  }

  function DataOf(t: Data, def: string): seq<string> { if def in t then t[def] else [] }

  /** The leaf actors when each structure has the constants found in its definition. */
  function SharedUpTo(cs: Constants.Table, t: Data, s: Script, i: nat, path: seq<string>, argd: Values): Actors
    requires i <= |s.insts|
    decreases s, i
  {
    if i == 0 then []
    else
      var before, d := SharedUpTo(cs, t, s, i - 1, path, argd), s.insts[i - 1];
      var values := AllResolved(cs, d.args, argd);
      match d.kind
      case Primitive(_, _) => before + [(path + [d.name], values)]
      case Component(def, _, body) => before + Shared(cs, t, def, body, path + [d.name], values)
  }

  function Shared(cs: Constants.Table, t: Data, def: string, s: Script, path: seq<string>, argd: Values): Actors
    decreases s, |s.insts| + 1
  {
    SharedUpTo(cs, t, s, |s.insts|, path, argd) + ConstantActors(DataOf(t, def), path)
  }

  // ------------------------------------------------------------ what is learned

  lemma {:induction false} AfterAppend(cs: Constants.Table, t: Data, vs: seq<Visit>, ws: seq<Visit>)
    ensures After(cs, t, vs + ws) == After(cs, After(cs, t, vs), ws)
    decreases |ws|
  {
    if ws == [] {
      assert vs + ws == vs;
    } else {
      var n := |ws| - 1;
      assert (vs + ws)[..|vs + ws| - 1] == vs + ws[..n];
      AfterAppend(cs, t, vs, ws[..n]);
    }
  }

  predicate Extends(t: Data, u: Data) { forall d :: d in t ==> d in u && u[d] == t[d] }

  predicate Knows(t: Data, vs: seq<Visit>) { forall j :: 0 <= j < |vs| ==> vs[j].def in t }

  lemma {:induction false} AfterExtends(cs: Constants.Table, t: Data, vs: seq<Visit>)
    ensures Extends(t, After(cs, t, vs)) && Knows(After(cs, t, vs), vs)
  {
    if vs != [] { AfterExtends(cs, t, vs[..|vs| - 1]); }
  }

  /** The first visit to a definition. */
  function FirstVisit(vs: seq<Visit>, def: string): (k: nat)
    requires exists j :: 0 <= j < |vs| && vs[j].def == def
    ensures k < |vs| && vs[k].def == def && forall j :: 0 <= j < k ==> vs[j].def != def
  {
    if vs[0].def == def then 0
    else
      var j :| 0 <= j < |vs| && vs[j].def == def;
      assert vs[1..][j - 1].def == def;
      1 + FirstVisit(vs[1..], def)
  }

  lemma {:induction false} Unvisited(cs: Constants.Table, vs: seq<Visit>, def: string)
    requires forall j :: 0 <= j < |vs| ==> vs[j].def != def
    ensures def !in After(cs, map[], vs)
    decreases |vs|
  {
    if vs != [] { Unvisited(cs, vs[..|vs| - 1], def); }
  }

  lemma {:induction false} FirstVisitCounts(cs: Constants.Table, vs: seq<Visit>, k: nat)
    requires k < |vs| && forall j :: 0 <= j < k ==> vs[j].def != vs[k].def
    ensures vs[k].def in After(cs, map[], vs) && After(cs, map[], vs)[vs[k].def] == Own(cs, vs[k])
    decreases |vs|
  {
    hide Own;
    var n := |vs| - 1;
    if k < n {
      FirstVisitCounts(cs, vs[..n], k);
    } else {
      Unvisited(cs, vs[..n], vs[k].def);
    }
  }

  /** Learning about more definitions does not change what is known. */
  lemma {:induction false} SharedStable(cs: Constants.Table, t: Data, u: Data, s: Script, i: nat,
                                       path: seq<string>, argd: Values)
    requires i <= |s.insts| && Extends(t, u) && Knows(t, VisitsUpTo(cs, s, i, argd))
    ensures SharedUpTo(cs, t, s, i, path, argd) == SharedUpTo(cs, u, s, i, path, argd)
    decreases s, i
  {
    if i > 0 {
      var before, d := VisitsUpTo(cs, s, i - 1, argd), s.insts[i - 1];
      KnowsPart(t, before, VisitsUpTo(cs, s, i, argd)[|before|..], VisitsUpTo(cs, s, i, argd));
      SharedStable(cs, t, u, s, i - 1, path, argd);
      if d.kind.Component? {
        var body, values := d.kind.body, AllResolved(cs, d.args, argd);
        var inner := VisitsUpTo(cs, body, |body.insts|, values);
        var all := Visits(cs, d.kind.def, body, values);
        KnowsPart(t, before, all, VisitsUpTo(cs, s, i, argd));
        KnowsPart(t, [all[0]], inner, all);
        assert all[0].def in t;
        SharedStable(cs, t, u, body, |body.insts|, path + [d.name], values);
      }
    }
  }

  lemma KnowsPart(t: Data, vs: seq<Visit>, ws: seq<Visit>, all: seq<Visit>)
    requires all == vs + ws && Knows(t, all)
    ensures Knows(t, vs) && Knows(t, ws)
  {
    forall j | 0 <= j < |vs| ensures vs[j].def in t { assert all[j] == vs[j]; }
    forall j | 0 <= j < |ws| ensures ws[j].def in t { assert all[|vs| + j] == ws[j]; }
  }

  // ------------------------------------------------------------ the analyzer

  /** What analysing the next declaration needs of a script whose actors all have values. */
  lemma {:induction false} GivenAt(cs: Constants.Table, s: Script, i: nat, n: nat, path: seq<string>, argd: Values)
    requires i < n <= |s.insts| && GivenUpTo(cs, s, n, path, argd).Some?
    ensures var d := s.insts[i];
            && Resolvable(cs, d.args, argd)
            && (d.kind.Component? ==>
                  Given(cs, d.kind.body, path + [d.name], AllResolved(cs, d.args, argd)).Some?)
    decreases n
  {
    hide Given, Resolvable;
    if i < n - 1 { GivenAt(cs, s, i, n - 1, path, argd); }
  }

  lemma GivenParts(cs: Constants.Table, s: Script, path: seq<string>, argd: Values)
    requires Given(cs, s, path, argd).Some?
    ensures GivenUpTo(cs, s, |s.insts|, path, argd).Some? && LiteralsResolvable(cs, s.literals, argd)
  {
  }

  /** One more declaration: what is known grows, the actors so far stay as they are. */
  lemma SharedNext(cs: Constants.Table, t: Data, known: Data, data: Data, def: string, s: Script, i: nat,
                   path: seq<string>, argd: Values)
    requires i < |s.insts|
    requires known == After(cs, t, [Visit(def, s.literals, argd)] + VisitsUpTo(cs, s, i, argd))
    requires var d := s.insts[i];
             data == if d.kind.Primitive? then known
                     else After(cs, known, Visits(cs, d.kind.def, d.kind.body, AllResolved(cs, d.args, argd)))
    ensures data == After(cs, t, [Visit(def, s.literals, argd)] + VisitsUpTo(cs, s, i + 1, argd))
    ensures SharedUpTo(cs, data, s, i, path, argd) == SharedUpTo(cs, known, s, i, path, argd)
  {
    hide After, SharedUpTo, Visits, Knows;
    var first, before, d := [Visit(def, s.literals, argd)], VisitsUpTo(cs, s, i, argd), s.insts[i];
    AfterExtends(cs, t, first + before);
    KnowsPart(known, first, before, first + before);
    if d.kind.Component? {
      var more := Visits(cs, d.kind.def, d.kind.body, AllResolved(cs, d.args, argd));
      assert first + (before + more) == first + before + more;
      AfterAppend(cs, t, first + before, more);
      AfterExtends(cs, known, more);
    }
    SharedStable(cs, known, data, s, i, path, argd);
  }

  lemma AfterFirst(cs: Constants.Table, t: Data, v: Visit)
    ensures After(cs, t, [v]) == Learned(cs, t, v) && [v] + [] == [v]
  {
    assert [v][..0] == [];
  }

  class Definitions {
    var data: Data

    constructor ()
      ensures data == map[]
    {
      data := map[];
    }

    /** expand_literals. */
    method ExpandLiterals(cs: Constants.Table, def: string, literals: seq<Arg>, argd: Values) returns (r: Result<()>)
      modifies this
      ensures LiteralsResolvable(cs, literals, argd) ==> r.Ok?
      ensures r.Ok? ==> data == Learned(cs, old(data), Visit(def, literals, argd))
    {
      if def in data { return Ok(()); }
      var values: seq<string> := [];
      var i := 0;
      while i < |literals|
        invariant 0 <= i <= |literals| && data == old(data)
        invariant values == LiteralValues(cs, literals[..i], argd)
      {
        var v := Resolve(cs, literals[i], argd);
        if v.None? { return Raised("undefined"); }
        assert literals[..i + 1] == literals[..i] + [literals[i]];
        values := values + [v.value];
        i := i + 1;
      }
      assert literals[..i] == literals;
      data := data[def := values];
      r := Ok(());
    }

    /** analyze_structure, as far as actors and their arguments go. */
    method AnalyzeStructure(cs: Constants.Table, def: string, s: Script, path: seq<string>, argd: Values)
      returns (r: Result<Actors>)
      modifies this
      ensures Given(cs, s, path, argd).Some? ==> r.Ok?
      ensures r.Ok? ==> && data == After(cs, old(data), Visits(cs, def, s, argd))
                        && r.value == Shared(cs, data, def, s, path, argd)
      decreases s
    {
      hide After, Learned, Extends, Knows, Given, Resolvable;
      if Given(cs, s, path, argd).Some? { GivenParts(cs, s, path, argd); }
      var expanded := ExpandLiterals(cs, def, s.literals, argd);
      if expanded.Raised? { return Raised(expanded.reason); }
      ghost var first := [Visit(def, s.literals, argd)];
      AfterFirst(cs, old(data), first[0]);
      var actors: Actors := [];
      var i := 0;
      while i < |s.insts|
        invariant 0 <= i <= |s.insts|
        invariant data == After(cs, old(data), first + VisitsUpTo(cs, s, i, argd))
        invariant actors == SharedUpTo(cs, data, s, i, path, argd)
      {
        var d := s.insts[i];
        ghost var known := data;
        if Given(cs, s, path, argd).Some? { GivenAt(cs, s, i, |s.insts|, path, argd); }
        var values := ResolveArguments(cs, d.args, argd);
        if values.Raised? { return Raised(values.reason); }
        if d.kind.Component? {
          var inner := AnalyzeStructure(cs, d.kind.def, d.kind.body, path + [d.name], values.value);
          if inner.Raised? { return Raised(inner.reason); }
          actors := actors + inner.value;
        } else {
          actors := actors + [(path + [d.name], values.value)];
        }
        SharedNext(cs, old(data), known, data, def, s, i, path, argd);
        i := i + 1;
      }
      r := Ok(actors + ConstantActors(DataOf(data, def), path));
    }
  }

  // ------------------------------------------------------------ when sharing is harmless

  predicate Sized(t: Data, vs: seq<Visit>) {
    forall j :: 0 <= j < |vs| ==> |DataOf(t, vs[j].def)| == |vs[j].literals|
  }

  /** Every visit finds the values it would have computed itself. */
  predicate AllOwn(cs: Constants.Table, t: Data, vs: seq<Visit>) {
    forall j :: 0 <= j < |vs| ==> DataOf(t, vs[j].def) == Own(cs, vs[j])
  }

  lemma PartsSized(t: Data, vs: seq<Visit>, ws: seq<Visit>)
    requires Sized(t, vs + ws)
    ensures Sized(t, vs) && Sized(t, ws)
  {
    forall j | 0 <= j < |vs| ensures |DataOf(t, vs[j].def)| == |vs[j].literals| { assert (vs + ws)[j] == vs[j]; }
    forall j | 0 <= j < |ws| ensures |DataOf(t, ws[j].def)| == |ws[j].literals| {
      assert (vs + ws)[|vs| + j] == ws[j];
    }
  }

  lemma PartsOwn(cs: Constants.Table, t: Data, vs: seq<Visit>, ws: seq<Visit>)
    ensures AllOwn(cs, t, vs + ws) <==> AllOwn(cs, t, vs) && AllOwn(cs, t, ws)
  {
    if AllOwn(cs, t, vs + ws) {
      forall j | 0 <= j < |vs| ensures DataOf(t, vs[j].def) == Own(cs, vs[j]) { assert (vs + ws)[j] == vs[j]; }
      forall j | 0 <= j < |ws| ensures DataOf(t, ws[j].def) == Own(cs, ws[j]) {
        assert (vs + ws)[|vs| + j] == ws[j];
      }
    }
  }

  lemma PartsEqual<T>(a: seq<T>, b: seq<T>, c: seq<T>, d: seq<T>)
    requires |a| == |c|
    ensures a + b == c + d <==> a == c && b == d
  {
    assert (a + b)[..|a|] == a && (c + d)[..|a|] == c;
    assert (a + b)[|a|..] == b && (c + d)[|a|..] == d;
  }

  lemma ConstantsEqual(a: seq<string>, b: seq<string>, path: seq<string>)
    requires |a| == |b|
    ensures ConstantActors(a, path) == ConstantActors(b, path) <==> a == b
  {
    if ConstantActors(a, path) == ConstantActors(b, path) {
      forall k | 0 <= k < |a| ensures a[k] == b[k] {
        assert ConstantActors(a, path)[k].1["data"] == ConstantActors(b, path)[k].1["data"];
      }
    }
  }

  lemma {:induction false} SharedUpToIff(cs: Constants.Table, t: Data, s: Script, i: nat, path: seq<string>, argd: Values)
    requires i <= |s.insts| && GivenUpTo(cs, s, i, path, argd).Some? && Sized(t, VisitsUpTo(cs, s, i, argd))
    ensures |SharedUpTo(cs, t, s, i, path, argd)| == |GivenUpTo(cs, s, i, path, argd).value|
    ensures SharedUpTo(cs, t, s, i, path, argd) == GivenUpTo(cs, s, i, path, argd).value <==>
              AllOwn(cs, t, VisitsUpTo(cs, s, i, argd))
    decreases s, i
  {
    hide Given, Shared, Visits, AllOwn, Sized, Resolvable;
    if i == 0 {
      NoneOwn(cs, t);
    } else {
      var d := s.insts[i - 1];
      var given, shared := GivenUpTo(cs, s, i - 1, path, argd).value, SharedUpTo(cs, t, s, i - 1, path, argd);
      var values := AllResolved(cs, d.args, argd);
      if d.kind.Component? {
        var more := Visits(cs, d.kind.def, d.kind.body, values);
        PartsSized(t, VisitsUpTo(cs, s, i - 1, argd), more);
        PartsOwn(cs, t, VisitsUpTo(cs, s, i - 1, argd), more);
        SharedUpToIff(cs, t, s, i - 1, path, argd);
        SharedIff(cs, t, d.kind.def, d.kind.body, path + [d.name], values);
        PartsEqual(shared, Shared(cs, t, d.kind.def, d.kind.body, path + [d.name], values),
                   given, Given(cs, d.kind.body, path + [d.name], values).value);
      } else {
        SharedUpToIff(cs, t, s, i - 1, path, argd);
        PartsEqual(shared, [(path + [d.name], values)], given, [(path + [d.name], values)]);
      }
    }
  }

  lemma NoneOwn(cs: Constants.Table, t: Data)
    ensures AllOwn(cs, t, [])
  {
  }

  lemma {:induction false} SharedIff(cs: Constants.Table, t: Data, def: string, s: Script, path: seq<string>, argd: Values)
    requires Given(cs, s, path, argd).Some? && Sized(t, Visits(cs, def, s, argd))
    ensures |Shared(cs, t, def, s, path, argd)| == |Given(cs, s, path, argd).value|
    ensures Shared(cs, t, def, s, path, argd) == Given(cs, s, path, argd).value <==>
              AllOwn(cs, t, Visits(cs, def, s, argd))
    decreases s, |s.insts| + 1
  {
    hide SharedUpTo, GivenUpTo, VisitsUpTo, LiteralsResolvable;
    var v, below := Visit(def, s.literals, argd), VisitsUpTo(cs, s, |s.insts|, argd);
    PartsSized(t, [v], below);
    PartsOwn(cs, t, [v], below);
    assert [v][0] == v;
    SharedUpToIff(cs, t, s, |s.insts|, path, argd);
    ConstantsEqual(DataOf(t, def), Own(cs, v), path);
    PartsEqual(SharedUpTo(cs, t, s, |s.insts|, path, argd), ConstantActors(DataOf(t, def), path),
               GivenUpTo(cs, s, |s.insts|, path, argd).value, ConstantActors(Own(cs, v), path));
  }

  /** Every instance is of the definition its type names. */
  predicate FromTable(defs: map<string, Kind>, s: Script)
    decreases s
  {
    forall i :: 0 <= i < |s.insts| && s.insts[i].kind.Component? ==>
      && s.insts[i].kind.def in defs && defs[s.insts[i].kind.def] == s.insts[i].kind
      && FromTable(defs, s.insts[i].kind.body)
  }

  /** A visit to a definition of the table, with an argument for each parameter and all literals known. */
  predicate Proper(cs: Constants.Table, defs: map<string, Kind>, v: Visit) {
    && v.def in defs && defs[v.def].Component?
    && v.literals == defs[v.def].body.literals && v.argd.Keys == defs[v.def].params
    && LiteralsResolvable(cs, v.literals, v.argd)
  }

  predicate AllProper(cs: Constants.Table, defs: map<string, Kind>, vs: seq<Visit>) {
    forall j :: 0 <= j < |vs| ==> Proper(cs, defs, vs[j])
  }

  lemma PartsProper(cs: Constants.Table, defs: map<string, Kind>, vs: seq<Visit>, ws: seq<Visit>)
    requires AllProper(cs, defs, vs) && AllProper(cs, defs, ws)
    ensures AllProper(cs, defs, vs + ws)
  {
    forall j | 0 <= j < |vs + ws| ensures Proper(cs, defs, (vs + ws)[j]) {
      assert (vs + ws)[j] == if j < |vs| then vs[j] else ws[j - |vs|];
    }
  }

  lemma {:induction false} VisitsUpToProper(cs: Constants.Table, defs: map<string, Kind>, s: Script, i: nat,
                                            path: seq<string>, argd: Values)
    requires i <= |s.insts| && FromTable(defs, s) && ConstantsAccepted(cs) && Accepted(cs, s, argd.Keys)
    requires GivenUpTo(cs, s, i, path, argd).Some?
    ensures AllProper(cs, defs, VisitsUpTo(cs, s, i, argd))
    decreases s, i
  {
    hide Given, Accepted, Visits, Proper, Resolvable;
    if i > 0 {
      var d := s.insts[i - 1];
      VisitsUpToProper(cs, defs, s, i - 1, path, argd);
      AcceptedAt(cs, s, i - 1, argd);
      if d.kind.Component? {
        var values := AllResolved(cs, d.args, argd);
        VisitsProper(cs, defs, d.kind.def, d.kind.body, path + [d.name], values);
        PartsProper(cs, defs, VisitsUpTo(cs, s, i - 1, argd), Visits(cs, d.kind.def, d.kind.body, values));
      }
    }
  }

  lemma {:induction false} VisitsProper(cs: Constants.Table, defs: map<string, Kind>, def: string, s: Script,
                                        path: seq<string>, argd: Values)
    requires FromTable(defs, s) && ConstantsAccepted(cs) && Accepted(cs, s, argd.Keys)
    requires Given(cs, s, path, argd).Some?
    requires def in defs && defs[def] == Component(def, argd.Keys, s)
    ensures AllProper(cs, defs, Visits(cs, def, s, argd))
    decreases s, |s.insts| + 1
  {
    hide GivenUpTo, Accepted, FromTable, VisitsUpTo;
    VisitsUpToProper(cs, defs, s, |s.insts|, path, argd);
    PartsProper(cs, defs, [Visit(def, s.literals, argd)], VisitsUpTo(cs, s, |s.insts|, argd));
  }

  /** The visit that expanded the literals found by visit j. */
  function Expander(vs: seq<Visit>, j: nat): Visit
    requires j < |vs|
  {
    vs[FirstVisit(vs, vs[j].def)]
  }

  /** Wherever a component's port literal names a parameter, the instance gives it the value that the
      component's first instance gave it. */
  predicate SameArguments(vs: seq<Visit>) {
    forall j, k :: 0 <= j < |vs| && 0 <= k < |vs[j].literals| ==> SameArgument(vs, j, vs[j].literals[k])
  }

  predicate SameArgument(vs: seq<Visit>, j: nat, a: Arg)
    requires j < |vs|
  {
    a.Name? && a.name in vs[j].argd ==>
      a.name in Expander(vs, j).argd && Expander(vs, j).argd[a.name] == vs[j].argd[a.name]
  }

  lemma ArgumentDecides(cs: Constants.Table, defs: map<string, Kind>, vs: seq<Visit>, j: nat, k: nat)
    requires AllProper(cs, defs, vs) && j < |vs| && k < |vs[j].literals|
    ensures Expander(vs, j).literals == vs[j].literals
    ensures Own(cs, Expander(vs, j))[k] == Own(cs, vs[j])[k] <==> SameArgument(vs, j, vs[j].literals[k])
  {
    var f := FirstVisit(vs, vs[j].def);
    assert Proper(cs, defs, vs[f]) && Proper(cs, defs, vs[j]);
    var a := vs[j].literals[k];
    assert Resolve(cs, a, vs[f].argd).Some? && Resolve(cs, a, vs[j].argd).Some?;
  }

  lemma OwnIffSame(cs: Constants.Table, defs: map<string, Kind>, vs: seq<Visit>)
    requires AllProper(cs, defs, vs)
    ensures Sized(After(cs, map[], vs), vs)
    ensures AllOwn(cs, After(cs, map[], vs), vs) <==> SameArguments(vs)
  {
    hide After, Own, SameArgument, AllProper;
    var t := After(cs, map[], vs);
    forall j | 0 <= j < |vs|
      ensures |DataOf(t, vs[j].def)| == |vs[j].literals|
      ensures DataOf(t, vs[j].def) == Own(cs, vs[j]) <==>
                forall k :: 0 <= k < |vs[j].literals| ==> SameArgument(vs, j, vs[j].literals[k])
    {
      VisitOwn(cs, defs, vs, j);
    }
  }

  lemma VisitOwn(cs: Constants.Table, defs: map<string, Kind>, vs: seq<Visit>, j: nat)
    requires AllProper(cs, defs, vs) && j < |vs|
    ensures var found := DataOf(After(cs, map[], vs), vs[j].def);
            && |found| == |vs[j].literals|
            && (found == Own(cs, vs[j]) <==>
                  forall k :: 0 <= k < |vs[j].literals| ==> SameArgument(vs, j, vs[j].literals[k]))
  {
    hide After, SameArgument, AllProper, Proper;
    FirstVisitCounts(cs, vs, FirstVisit(vs, vs[j].def));
    var found, own := Own(cs, Expander(vs, j)), Own(cs, vs[j]);
    assert DataOf(After(cs, map[], vs), vs[j].def) == found;
    assert |Expander(vs, j).literals| == |vs[j].literals| by { SameLiterals(cs, defs, vs, j); }
    forall k | 0 <= k < |vs[j].literals|
      ensures found[k] == own[k] <==> SameArgument(vs, j, vs[j].literals[k])
    {
      ArgumentDecides(cs, defs, vs, j, k);
    }
  }

  lemma SameLiterals(cs: Constants.Table, defs: map<string, Kind>, vs: seq<Visit>, j: nat)
    requires AllProper(cs, defs, vs) && j < |vs|
    ensures Expander(vs, j).literals == vs[j].literals
  {
    assert Proper(cs, defs, vs[FirstVisit(vs, vs[j].def)]) && Proper(cs, defs, vs[j]);
  }

  /** What the analyzer makes of a script with shared definitions is what every instance is entitled to
      exactly when, wherever a port literal of a component names a parameter, all instances of the
      component agree with its first one on that parameter. */
  lemma SharedIsGivenIff(cs: Constants.Table, defs: map<string, Kind>, s: Script, path: seq<string>)
    requires ConstantsAccepted(cs) && Accepted(cs, s, {}) && LiteralsKnown(cs, s, {})
    requires FromTable(defs, s) && ROOT in defs && defs[ROOT] == Component(ROOT, {}, s)
    ensures Given(cs, s, path, map[]).Some?
    ensures var vs := Visits(cs, ROOT, s, map[]);
            Shared(cs, After(cs, map[], vs), ROOT, s, path, map[]) == Given(cs, s, path, map[]).value <==>
              SameArguments(vs)
  {
    hide Given, Shared, Visits, After, FromTable, Accepted, LiteralsKnown;
    var argd: Values := map[];
    assert argd.Keys == {};
    AcceptedIsGivenIff(cs, s, path, argd);
    VisitsProper(cs, defs, ROOT, s, path, argd);
    var vs := Visits(cs, ROOT, s, argd);
    OwnIffSame(cs, defs, vs);
    SharedIff(cs, After(cs, map[], vs), ROOT, s, path, argd);
  }

  /** A component whose one port literal names its parameter. */
  const C: Kind := Component("C", {"x"}, Script([Inst("sink", map[], Primitive({}, {}))], [Name("x")]))

  /** Two instances of it, with different arguments. */
  const TWICE: Script := Script([Inst("a", map["x" := Val("1")], C), Inst("b", map["x" := Val("2")], C)], [])

  /** The second instance's constant gets the first one's argument. */
  lemma SecondGetsFirst(path: seq<string>)
    ensures Accepted(map[], TWICE, {}) && LiteralsKnown(map[], TWICE, {}) && ConstantsAccepted(map[])
    ensures var t := After(map[], map[], Visits(map[], ROOT, TWICE, map[]));
            && Given(map[], TWICE, path, map[]).Some?
            && Shared(map[], t, ROOT, TWICE, path, map[]) != Given(map[], TWICE, path, map[]).value
  {
    hide Given, Shared, After;
    var defs := map["C" := C, ROOT := Component(ROOT, {}, TWICE)];
    TwiceAccepted(defs);
    TwiceVisits();
    SharedIsGivenIff(map[], defs, TWICE, path);
  }

  lemma TwiceAccepted(defs: map<string, Kind>)
    requires defs == map["C" := C, ROOT := Component(ROOT, {}, TWICE)]
    ensures Accepted(map[], TWICE, {}) && LiteralsKnown(map[], TWICE, {}) && FromTable(defs, TWICE)
  {
    assert C.body.insts[0].args.Keys == {};
    assert Accepted(map[], C.body, {"x"}) && LiteralsKnown(map[], C.body, {"x"}) && FromTable(defs, C.body);
    assert {"x"} + {} == {"x"};
  }

  lemma TwiceVisits()
    ensures !SameArguments(Visits(map[], ROOT, TWICE, map[]))
  {
    var vs := Visits(map[], ROOT, TWICE, map[]);
    var one := Visit("C", [Name("x")], map["x" := "1"]);
    var two := Visit("C", [Name("x")], map["x" := "2"]);
    assert AllResolved(map[], map["x" := Val("1")], map[]) == map["x" := "1"];
    assert AllResolved(map[], map["x" := Val("2")], map[]) == map["x" := "2"];
    assert VisitsUpTo(map[], C.body, 1, one.argd) == VisitsUpTo(map[], C.body, 0, one.argd) == [];
    assert VisitsUpTo(map[], C.body, 1, two.argd) == VisitsUpTo(map[], C.body, 0, two.argd) == [];
    assert Visits(map[], "C", C.body, one.argd) == [one];
    assert Visits(map[], "C", C.body, two.argd) == [two];
    assert VisitsUpTo(map[], TWICE, 1, map[]) == [one];
    assert VisitsUpTo(map[], TWICE, 2, map[]) == [one, two];
    assert vs == [Visit(ROOT, [], map[]), one, two];
    assert vs[1].def == "C";
    assert FirstVisit(vs, "C") == 1;
    assert !SameArgument(vs, 2, vs[2].literals[0]);
  }
}
