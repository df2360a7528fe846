/** Arguments handed down through component instances: resolve_arguments and the literals on ports in the
    analyzer (analyzer.py:128-165, 204-240), check_arguments in the checker (checker.py:246-279). Here every
    instance has its own copy of its component's literals; see SharedLiterals for what the analyzer does. */
module Arguments {
  import opened Wrappers
  import Constants
  import Literals

  /** An argument as written: a value, or a name. */
  datatype Arg = Name(name: string) | Val(value: string)

  datatype Kind =
    | Primitive(mandatory: set<string>, optional: set<string>)
    | Component(def: string, params: set<string>, body: Script)

  datatype Inst = Inst(name: string, args: map<string, Arg>, kind: Kind)

  /** `literals` are those on inports, in the order of the links. */
  datatype Script = Script(insts: seq<Inst>, literals: seq<Arg>)

  type Values = map<string, string>

  /** The value of a constant, where it has one: what both lookups find. */
  function Constant(cs: Constants.Table, x: string): Option<string> {
    match Constants.Check(cs, x, [])
    case Found(v) => Some(v)
    case Failed(_) => None
  }

  /** An argument in a structure that was given the values argd. */
  function Resolve(cs: Constants.Table, a: Arg, argd: Values): Option<string> {
    match a
    case Val(v) => Some(v)
    case Name(x) => if x in argd then Some(argd[x]) else Constant(cs, x)
  }

  predicate Resolvable(cs: Constants.Table, args: map<string, Arg>, argd: Values) {
    forall k :: k in args ==> Resolve(cs, args[k], argd).Some?
  }

  /** The arguments that have a value. */
  function AllResolved(cs: Constants.Table, args: map<string, Arg>, argd: Values): (r: Values)
    ensures r.Keys <= args.Keys && forall k :: k in r ==> Some(r[k]) == Resolve(cs, args[k], argd)
    ensures Resolvable(cs, args, argd) ==> r.Keys == args.Keys
  {
    map k | k in args && Resolve(cs, args[k], argd).Some? :: Resolve(cs, args[k], argd).value
  }

  method ResolveArguments(cs: Constants.Table, args: map<string, Arg>, argd: Values) returns (r: Result<Values>)
    ensures r.Ok? <==> Resolvable(cs, args, argd)
    ensures r.Ok? ==> r.value == AllResolved(cs, args, argd)
  {
    var todo := args.Keys;
    var values: Values := map[];
    while todo != {}
      invariant todo <= args.Keys && values.Keys == args.Keys - todo
      invariant forall k :: k in values ==> Some(values[k]) == Resolve(cs, args[k], argd)
    {
      var k :| k in todo;
      var v := Resolve(cs, args[k], argd);
      if v.None? { return Raised("undefined"); }
      values := values[k := v.value];
      todo := todo - {k};
    }
    assert forall k :: k in args ==> k in values;
    r := Ok(values);
  }

  // ------------------------------------------------------------ handing down

  predicate LiteralsResolvable(cs: Constants.Table, literals: seq<Arg>, argd: Values) {
    forall k :: 0 <= k < |literals| ==> Resolve(cs, literals[k], argd).Some?
  }

  function LiteralValues(cs: Constants.Table, literals: seq<Arg>, argd: Values): (r: seq<string>)
    ensures |r| == |literals|
    ensures forall k :: 0 <= k < |r| && Resolve(cs, literals[k], argd).Some? ==>
              Some(r[k]) == Resolve(cs, literals[k], argd)
  {
    seq(|literals|, k requires 0 <= k < |literals| =>
      if Resolve(cs, literals[k], argd).Some? then Resolve(cs, literals[k], argd).value else "")
  }

  /** The arguments of the constant actor that stands for a literal. */
  function Data(v: string): Values { map["data" := v, "n" := "-1"] }

  type Actors = seq<(seq<string>, Values)>

  /** The constant actors that stand for the literals of the structure at `path`. */
  function ConstantActors(data: seq<string>, path: seq<string>): (r: Actors)
    ensures |r| == |data|
    ensures forall k :: 0 <= k < |r| ==> r[k] == (path + [Literals.LiteralName(k + 1)], Data(data[k]))
  {
    seq(|data|, k requires 0 <= k < |data| => (path + [Literals.LiteralName(k + 1)], Data(data[k])))
  }

  /** The leaf actors under the first i declarations of a structure with the values of their arguments; none
      if some name has no value. */
  function GivenUpTo(cs: Constants.Table, s: Script, i: nat, path: seq<string>, argd: Values): Option<Actors>
    requires i <= |s.insts|
    decreases s, i
  {
    if i == 0 then Some([])
    else
      var before, d := GivenUpTo(cs, s, i - 1, path, argd), s.insts[i - 1];
      if before.None? || !Resolvable(cs, d.args, argd) then None
      else
        var values := AllResolved(cs, d.args, argd);
        match d.kind
        case Primitive(_, _) => Some(before.value + [(path + [d.name], values)])
        case Component(_, _, body) =>
          var inner := Given(cs, body, path + [d.name], values);
          if inner.None? then None else Some(before.value + inner.value)
  }

  /** All leaf actors under a structure, those made for its literals included. */
  function Given(cs: Constants.Table, s: Script, path: seq<string>, argd: Values): Option<Actors>
    decreases s, |s.insts| + 1
  {
    var actors := GivenUpTo(cs, s, |s.insts|, path, argd);
    if actors.None? || !LiteralsResolvable(cs, s.literals, argd) then None
    else Some(actors.value + ConstantActors(LiteralValues(cs, s.literals, argd), path))
  }

  // ------------------------------------------------------------ looking up

  /** A name means what it means in the closest enclosing component instance that has it as an argument,
      seen from where that instance is written; a constant otherwise. `chain` holds the arguments of the
      enclosing instances, outermost first. Only the innermost is consulted for a name. */
  function Meaning(cs: Constants.Table, chain: seq<map<string, Arg>>, a: Arg): Option<string>
    decreases |chain|
  {
    match a
    case Val(v) => Some(v)
    case Name(x) =>
      if chain != [] && x in chain[|chain| - 1] then Meaning(cs, chain[..|chain| - 1], chain[|chain| - 1][x])
      else Constant(cs, x)
  }

  /** argd holds the meanings of the innermost instance's arguments. */
  predicate Stands(cs: Constants.Table, chain: seq<map<string, Arg>>, argd: Values) {
    if chain == [] then argd == map[]
    else
      var inner := chain[|chain| - 1];
      argd.Keys == inner.Keys && forall k :: k in inner ==> Some(argd[k]) == Meaning(cs, chain[..|chain| - 1], inner[k])
  }

  lemma ResolveIsMeaning(cs: Constants.Table, chain: seq<map<string, Arg>>, argd: Values, a: Arg)
    requires Stands(cs, chain, argd)
    ensures Resolve(cs, a, argd) == Meaning(cs, chain, a)
  {
  }

  lemma InstanceStands(cs: Constants.Table, chain: seq<map<string, Arg>>, argd: Values, args: map<string, Arg>)
    requires Stands(cs, chain, argd) && Resolvable(cs, args, argd)
    ensures Stands(cs, chain + [args], AllResolved(cs, args, argd))
  {
    assert (chain + [args])[..|chain|] == chain;
    forall k | k in args ensures Some(AllResolved(cs, args, argd)[k]) == Meaning(cs, chain, args[k]) {
      ResolveIsMeaning(cs, chain, argd, args[k]);
    }
  }

  /** What the analyzer writes as the arguments of a literal's constant actor. */
  function LiteralArgs(a: Arg): map<string, Arg> { map["data" := a, "n" := Val("-1")] }

  /** A leaf actor of the script, by its path, with its written arguments and those around it. */
  predicate Holds(s: Script, path: seq<string>, chain: seq<map<string, Arg>>, args: map<string, Arg>)
    decreases s
  {
    && path != []
    && ((exists i :: 0 <= i < |s.insts| && HoldsAt(s, i, path, chain, args))
        || (exists k :: 0 <= k < |s.literals| && HoldsLiteral(s, k, path, chain, args)))
  }

  predicate HoldsAt(s: Script, i: nat, path: seq<string>, chain: seq<map<string, Arg>>, args: map<string, Arg>)
    requires i < |s.insts| && path != []
    decreases s, 0
  {
    var d := s.insts[i];
    && path[0] == d.name
    && match d.kind
       case Primitive(_, _) => |path| == 1 && chain == [] && args == d.args
       case Component(_, _, body) => chain != [] && chain[0] == d.args && Holds(body, path[1..], chain[1..], args)
  }

  predicate HoldsLiteral(s: Script, k: nat, path: seq<string>, chain: seq<map<string, Arg>>, args: map<string, Arg>)
    requires k < |s.literals|
  {
    path == [Literals.LiteralName(k + 1)] && chain == [] && args == LiteralArgs(s.literals[k])
  }

  /** Each leaf actor gets exactly the meanings of its arguments. */
  predicate Meant(cs: Constants.Table, chain: seq<map<string, Arg>>, args: map<string, Arg>, values: Values) {
    values.Keys == args.Keys && forall k :: k in args ==> Some(values[k]) == Meaning(cs, chain, args[k])
  }

  lemma {:induction false} GivenIsMeant(cs: Constants.Table, s: Script, path: seq<string>,
                                        outer: seq<map<string, Arg>>, argd: Values, g: nat)
    returns (rel: seq<string>, chain: seq<map<string, Arg>>, args: map<string, Arg>)
    requires Stands(cs, outer, argd) && Given(cs, s, path, argd).Some?
    requires g < |Given(cs, s, path, argd).value|
    ensures var (p, values) := Given(cs, s, path, argd).value[g];
            p == path + rel && Holds(s, rel, chain, args) && Meant(cs, outer + chain, args, values)
    decreases s, |s.insts| + 1
  {
    hide Stands, Meant, Resolvable;
    var actors := GivenUpTo(cs, s, |s.insts|, path, argd).value;
    if g < |actors| {
      rel, chain, args := GivenUpToMeant(cs, s, |s.insts|, path, outer, argd, g);
    } else {
      var k := g - |actors|;
      rel, chain, args := [Literals.LiteralName(k + 1)], [], LiteralArgs(s.literals[k]);
      assert HoldsLiteral(s, k, rel, chain, args);
      LiteralMeant(cs, outer, argd, s.literals, k);
      assert outer + [] == outer;
    }
  }

  lemma {:induction false} GivenUpToMeant(cs: Constants.Table, s: Script, i: nat, path: seq<string>,
                                          outer: seq<map<string, Arg>>, argd: Values, g: nat)
    returns (rel: seq<string>, chain: seq<map<string, Arg>>, args: map<string, Arg>)
    requires i <= |s.insts| && Stands(cs, outer, argd) && GivenUpTo(cs, s, i, path, argd).Some?
    requires g < |GivenUpTo(cs, s, i, path, argd).value|
    ensures var (p, values) := GivenUpTo(cs, s, i, path, argd).value[g];
            p == path + rel && Holds(s, rel, chain, args) && Meant(cs, outer + chain, args, values)
    decreases s, i
  {
    hide Stands, Meant, Resolvable, Given;
    var before, d := GivenUpTo(cs, s, i - 1, path, argd).value, s.insts[i - 1];
    if g < |before| {
      rel, chain, args := GivenUpToMeant(cs, s, i - 1, path, outer, argd, g);
    } else {
      var values := AllResolved(cs, d.args, argd);
      if d.kind.Primitive? {
        rel, chain, args := [d.name], [], d.args;
        assert HoldsAt(s, i - 1, rel, chain, args);
        ValuesMeant(cs, outer, argd, d.args);
        assert outer + [] == outer;
      } else {
        InstanceStands(cs, outer, argd, d.args);
        rel, chain, args :=
          GivenIsMeant(cs, d.kind.body, path + [d.name], outer + [d.args], values, g - |before|);
        assert path + [d.name] + rel == path + ([d.name] + rel);
        assert outer + [d.args] + chain == outer + ([d.args] + chain);
        rel, chain := [d.name] + rel, [d.args] + chain;
        assert rel[1..] == [] + rel[1..] && HoldsAt(s, i - 1, rel, chain, args);
      }
    }
  }

  /** And each leaf actor gets them. */
  lemma {:induction false} MeantIsGiven(cs: Constants.Table, s: Script, path: seq<string>,
                                        outer: seq<map<string, Arg>>, argd: Values,
                                        rel: seq<string>, chain: seq<map<string, Arg>>, args: map<string, Arg>)
    returns (g: nat)
    requires Stands(cs, outer, argd) && Given(cs, s, path, argd).Some? && Holds(s, rel, chain, args)
    ensures g < |Given(cs, s, path, argd).value|
    ensures var (p, values) := Given(cs, s, path, argd).value[g];
            p == path + rel && Meant(cs, outer + chain, args, values)
    decreases s, |s.insts| + 1
  {
    hide Stands, Meant, Resolvable, HoldsAt;
    var actors := GivenUpTo(cs, s, |s.insts|, path, argd).value;
    if i :| 0 <= i < |s.insts| && HoldsAt(s, i, rel, chain, args) {
      g := MeantUpTo(cs, s, |s.insts|, i, path, outer, argd, rel, chain, args);
    } else {
      var k :| 0 <= k < |s.literals| && HoldsLiteral(s, k, rel, chain, args);
      g := |actors| + k;
      LiteralMeant(cs, outer, argd, s.literals, k);
      assert outer + [] == outer;
    }
  }

  lemma {:induction false} MeantUpTo(cs: Constants.Table, s: Script, n: nat, i: nat, path: seq<string>,
                                     outer: seq<map<string, Arg>>, argd: Values,
                                     rel: seq<string>, chain: seq<map<string, Arg>>, args: map<string, Arg>)
    returns (g: nat)
    requires i < n <= |s.insts| && rel != [] && HoldsAt(s, i, rel, chain, args)
    requires Stands(cs, outer, argd) && GivenUpTo(cs, s, n, path, argd).Some?
    ensures g < |GivenUpTo(cs, s, n, path, argd).value|
    ensures var (p, values) := GivenUpTo(cs, s, n, path, argd).value[g];
            p == path + rel && Meant(cs, outer + chain, args, values)
    decreases s, n
  {
    hide Stands, Meant, Resolvable, Given, Holds;
    var before, d := GivenUpTo(cs, s, n - 1, path, argd).value, s.insts[n - 1];
    if i < n - 1 {
      g := MeantUpTo(cs, s, n - 1, i, path, outer, argd, rel, chain, args);
    } else if d.kind.Primitive? {
      g := |before|;
      ValuesMeant(cs, outer, argd, d.args);
      assert outer + [] == outer && rel == [d.name];
    } else {
      var values := AllResolved(cs, d.args, argd);
      InstanceStands(cs, outer, argd, d.args);
      var inner := MeantIsGiven(cs, d.kind.body, path + [d.name], outer + [d.args], values, rel[1..], chain[1..], args);
      g := |before| + inner;
      assert path + [d.name] + rel[1..] == path + rel;
      assert outer + [d.args] + chain[1..] == outer + chain;
    }
  }

  /** How many leaf actors there are under the first i declarations, and in all. */
  function LeavesUpTo(s: Script, i: nat): nat
    requires i <= |s.insts|
    decreases s, i
  {
    if i == 0 then 0
    else
      LeavesUpTo(s, i - 1)
      + match s.insts[i - 1].kind
        case Primitive(_, _) => 1
        case Component(_, _, body) => LeavesUpTo(body, |body.insts|) + |body.literals|
  }

  /** None gets them twice: there are as many entries as leaf actors. */
  lemma {:induction false} GivenCount(cs: Constants.Table, s: Script, i: nat, path: seq<string>, argd: Values)
    requires i <= |s.insts|
    ensures GivenUpTo(cs, s, i, path, argd).Some? ==> |GivenUpTo(cs, s, i, path, argd).value| == LeavesUpTo(s, i)
    ensures Given(cs, s, path, argd).Some? && i == |s.insts| ==>
              |Given(cs, s, path, argd).value| == LeavesUpTo(s, i) + |s.literals|
    decreases s, i
  {
    hide Resolvable;
    if i > 0 && GivenUpTo(cs, s, i, path, argd).Some? {
      var d := s.insts[i - 1];
      GivenCount(cs, s, i - 1, path, argd);
      if d.kind.Component? {
        GivenCount(cs, d.kind.body, |d.kind.body.insts|, path + [d.name], AllResolved(cs, d.args, argd));
      }
    }
  }

  lemma LiteralMeant(cs: Constants.Table, chain: seq<map<string, Arg>>, argd: Values, literals: seq<Arg>, k: nat)
    requires Stands(cs, chain, argd) && k < |literals| && LiteralsResolvable(cs, literals, argd)
    ensures Meant(cs, chain, LiteralArgs(literals[k]), Data(LiteralValues(cs, literals, argd)[k]))
  {
    ResolveIsMeaning(cs, chain, argd, literals[k]);
  }

  lemma ValuesMeant(cs: Constants.Table, chain: seq<map<string, Arg>>, argd: Values, args: map<string, Arg>)
    requires Stands(cs, chain, argd) && Resolvable(cs, args, argd)
    ensures Meant(cs, chain, args, AllResolved(cs, args, argd))
  {
    forall k | k in args ensures Some(AllResolved(cs, args, argd)[k]) == Meaning(cs, chain, args[k]) {
      ResolveIsMeaning(cs, chain, argd, args[k]);
    }
  }

  // ------------------------------------------------------------ what the checker accepts

  /** check_arguments for one instance, in a structure whose component has these parameters. */
  predicate ArgumentsAccepted(cs: Constants.Table, d: Inst, params: set<string>) {
    var mandatory := if d.kind.Primitive? then d.kind.mandatory else d.kind.params;
    var optional := if d.kind.Primitive? then d.kind.optional else {};
    && mandatory <= d.args.Keys <= mandatory + optional
    && forall k :: k in d.args && d.args[k].Name? ==> d.args[k].name in params || d.args[k].name in cs
  }

  /** An optional argument of a leaf actor may be given or not. */
  lemma OptionalArgument(cs: Constants.Table, d: Inst, params: set<string>, k: string, v: string)
    requires d.kind.Primitive? && k in d.kind.optional && k !in d.kind.mandatory
    requires ArgumentsAccepted(cs, d, params)
    ensures ArgumentsAccepted(cs, d.(args := d.args[k := Val(v)]), params)
    ensures ArgumentsAccepted(cs, d.(args := d.args - {k}), params)
  {
  }

  predicate Accepted(cs: Constants.Table, s: Script, params: set<string>)
    decreases s
  {
    forall i :: 0 <= i < |s.insts| ==>
      && ArgumentsAccepted(cs, s.insts[i], params)
      && (s.insts[i].kind.Component? ==> Accepted(cs, s.insts[i].kind.body, s.insts[i].kind.params))
  }

  /** check_constants finds nothing. */
  predicate ConstantsAccepted(cs: Constants.Table) { forall x :: x in cs ==> Constants.Check(cs, x, []).Found? }

  /** Names written as literals on inports: parameters of the component or constants, at every level. The
      checker does not ask for this. */
  predicate LiteralsKnown(cs: Constants.Table, s: Script, params: set<string>)
    decreases s
  {
    && (forall k :: 0 <= k < |s.literals| && s.literals[k].Name? ==>
          s.literals[k].name in params || s.literals[k].name in cs)
    && forall i :: 0 <= i < |s.insts| && s.insts[i].kind.Component? ==>
         LiteralsKnown(cs, s.insts[i].kind.body, s.insts[i].kind.params)
  }

  predicate LiteralsKnownUpTo(cs: Constants.Table, s: Script, i: nat)
    requires i <= |s.insts|
  {
    forall j :: 0 <= j < i && s.insts[j].kind.Component? ==>
      LiteralsKnown(cs, s.insts[j].kind.body, s.insts[j].kind.params)
  }

  /** A script the checker accepts can be analyzed, every argument of every leaf actor getting a value,
      exactly if the names on its inports are known. */
  lemma {:induction false} AcceptedIsGivenIff(cs: Constants.Table, s: Script, path: seq<string>, argd: Values)
    requires ConstantsAccepted(cs) && Accepted(cs, s, argd.Keys)
    ensures Given(cs, s, path, argd).Some? <==> LiteralsKnown(cs, s, argd.Keys)
    decreases s, |s.insts| + 1
  {
    hide Accepted;
    AcceptedUpTo(cs, s, |s.insts|, path, argd);
    forall k | 0 <= k < |s.literals|
      ensures Resolve(cs, s.literals[k], argd).Some? <==>
              (s.literals[k].Name? ==> s.literals[k].name in argd || s.literals[k].name in cs)
    {
      if s.literals[k].Name? && s.literals[k].name !in cs { Undefined(cs, s.literals[k].name); }
    }
  }

  /** A port literal with a name nobody defines passes the checker and stops the analyzer. */
  lemma UnknownLiteralPasses(path: seq<string>)
    ensures var s := Script([Inst("sink", map[], Primitive({}, {}))], [Name("x")]);
            Accepted(map[], s, {}) && ConstantsAccepted(map[]) && Given(map[], s, path, map[]).None?
  {
    var s := Script([Inst("sink", map[], Primitive({}, {}))], [Name("x")]);
    var argd: Values := map[];
    assert argd.Keys == {} && s.insts[0].args.Keys == {};
    assert Accepted(map[], s, {});
    AcceptedIsGivenIff(map[], s, path, argd);
    assert s.literals[0].Name?;
  }

  /** A name that is no constant has no value as one. */
  lemma Undefined(cs: Constants.Table, x: string)
    requires x !in cs
    ensures Constant(cs, x).None?
  {
  }

  lemma {:induction false} AcceptedUpTo(cs: Constants.Table, s: Script, i: nat, path: seq<string>, argd: Values)
    requires i <= |s.insts| && ConstantsAccepted(cs) && Accepted(cs, s, argd.Keys)
    ensures GivenUpTo(cs, s, i, path, argd).Some? <==> LiteralsKnownUpTo(cs, s, i)
    decreases s, i
  {
    hide Accepted, Given, LiteralsKnown;
    if i > 0 {
      AcceptedUpTo(cs, s, i - 1, path, argd);
      var d := s.insts[i - 1];
      AcceptedAt(cs, s, i - 1, argd);
      if d.kind.Component? {
        assert AllResolved(cs, d.args, argd).Keys == d.kind.params;
        AcceptedIsGivenIff(cs, d.kind.body, path + [d.name], AllResolved(cs, d.args, argd));
      }
    }
  }

  lemma AcceptedAt(cs: Constants.Table, s: Script, i: nat, argd: Values)
    requires i < |s.insts| && ConstantsAccepted(cs) && Accepted(cs, s, argd.Keys)
    ensures var d := s.insts[i];
            && Resolvable(cs, d.args, argd)
            && (d.kind.Component? ==> d.args.Keys == d.kind.params && Accepted(cs, d.kind.body, d.kind.params))
  {
    var d := s.insts[i];
    assert ArgumentsAccepted(cs, d, argd.Keys);
    assert {} + d.args.Keys == d.args.Keys;
  }
}
