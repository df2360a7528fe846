/** Looking up a named constant: the checker's guarded lookup (checker.py:205-230) and the analyzer's
    unguarded one (analyzer.py:92-100). */
module Constants {
  import opened Wrappers

  /** A constant is a value of some kind, or another name for one. */
  datatype Const = Identifier(name: string) | Value(kind: string, value: string)

  type Table = map<string, Const>

  datatype Error = Undefined(name: string) | Circular

  datatype Answer = Found(value: string) | Failed(error: Error)

  /** Checker.lookup_constant; `seen` holds the names followed so far. */
  function Check(cs: Table, id: string, seen: seq<string>): Answer
    decreases |cs.Keys - (set x | x in seen)|, if id in cs then 1 else 0
  {
    if id !in cs then Failed(Undefined(id))
    else if cs[id].Value? then Found(cs[id].value)
    else if cs[id].name in seen then Failed(Circular)
    else
      FewerLeft(cs, seen, cs[id].name);
      Check(cs, cs[id].name, seen + [cs[id].name])
  }

  lemma FewerLeft(cs: Table, seen: seq<string>, name: string)
    requires name !in seen
    ensures var left, next := cs.Keys - (set x | x in seen), cs.Keys - (set x | x in seen + [name]);
            if name in cs then |next| < |left| else |next| == |left|
  {
    var left, next := cs.Keys - (set x | x in seen), cs.Keys - (set x | x in seen + [name]);
    assert next == left - {name};
  }

  datatype Progress = Running | Done(kind: string, value: string) | Missing(name: string)

  /** Analyzer.lookup_constant after at most n calls of itself. */
  function Chase(cs: Table, id: string, n: nat): Progress
    decreases n
  {
    if id !in cs then Missing(id)
    else if cs[id].Value? then Done(cs[id].kind, cs[id].value)
    else if n == 0 then Running
    else Chase(cs, cs[id].name, n - 1)
  }

  /** The name reached after n steps, if they are all from name to name. */
  function Follow(cs: Table, x: string, n: nat): Option<string>
    decreases n
  {
    if n == 0 then Some(x)
    else if x in cs && cs[x].Identifier? then Follow(cs, cs[x].name, n - 1)
    else None
  }

  lemma {:induction false} ChaseSettled(cs: Table, id: string, n: nat, m: nat)
    requires Chase(cs, id, n) != Running && n <= m
    ensures Chase(cs, id, m) == Chase(cs, id, n)
    decreases n
  {
    if id in cs && cs[id].Identifier? { ChaseSettled(cs, cs[id].name, n - 1, m - 1); }
  }

  lemma {:induction false} ChaseAlong(cs: Table, x: string, y: string, n: nat, m: nat)
    requires Follow(cs, x, n) == Some(y)
    ensures Chase(cs, x, n + m) == Chase(cs, y, m)
    decreases n
  {
    if n > 0 { ChaseAlong(cs, cs[x].name, y, n - 1, m); }
  }

  lemma {:induction false} StillRunning(cs: Table, x: string, n: nat, m: nat)
    requires Follow(cs, x, n).Some? && m < n
    ensures Chase(cs, x, m) == Running
    decreases m
  {
    if m > 0 { StillRunning(cs, cs[x].name, n - 1, m - 1); }
  }

  lemma {:induction false} LoopsForever(cs: Table, x: string, n: nat, m: nat)
    requires n > 0 && Follow(cs, x, n) == Some(x)
    ensures Chase(cs, x, m) == Running
    decreases m
  {
    if m < n {
      StillRunning(cs, x, n, m);
    } else {
      ChaseAlong(cs, x, x, n, m - n);
      LoopsForever(cs, x, n, m - n);
    }
  }

  lemma {:induction false} FollowOn(cs: Table, x: string, y: string, n: nat)
    requires Follow(cs, x, n) == Some(y) && y in cs && cs[y].Identifier?
    ensures Follow(cs, x, n + 1) == Some(cs[y].name)
    decreases n
  {
    if n > 0 { FollowOn(cs, cs[x].name, y, n - 1); }
  }

  ghost predicate LeadsTo(cs: Table, x: string, y: string) { exists n: nat :: Follow(cs, x, n) == Some(y) }

  ghost predicate EndsWith(cs: Table, id: string, v: string) { exists n: nat, kind :: Chase(cs, id, n) == Done(kind, v) }

  ghost predicate EndsMissing(cs: Table, id: string, x: string) { exists n: nat :: Chase(cs, id, n) == Missing(x) }

  ghost predicate Endless(cs: Table, id: string) { forall n: nat :: Chase(cs, id, n) == Running }

  lemma Ends(cs: Table, id: string, n: nat)
    requires Chase(cs, id, n) != Running
    ensures !Endless(cs, id)
  {
  }

  /** What the checker's answer says about the analyzer's lookup. */
  ghost predicate Matches(cs: Table, id: string, r: Answer) {
    match r
    case Found(v) => EndsWith(cs, id, v)
    case Failed(Undefined(x)) => EndsMissing(cs, id, x)
    case Failed(Circular) => Endless(cs, id)
  }

  lemma {:induction false} CheckMatches(cs: Table, id: string, seen: seq<string>)
    requires forall x :: x in seen ==> LeadsTo(cs, x, id)
    ensures Matches(cs, id, Check(cs, id, seen))
    decreases |cs.Keys - (set x | x in seen)|, if id in cs then 1 else 0
  {
    if id !in cs {
      assert Chase(cs, id, 0) == Missing(id);
    } else if cs[id].Value? {
      assert Chase(cs, id, 0) == Done(cs[id].kind, cs[id].value);
    } else {
      var next := cs[id].name;
      if next in seen {
        var n: nat :| Follow(cs, next, n) == Some(id);
        FollowOn(cs, next, id, n);
        forall m: nat ensures Chase(cs, id, m) == Running {
          if m > 0 { LoopsForever(cs, next, n + 1, m - 1); }
        }
      } else {
        FewerLeft(cs, seen, next);
        forall x | x in seen + [next] ensures LeadsTo(cs, x, next) {
          if x == next {
            assert Follow(cs, next, 0) == Some(next);
          } else {
            var n: nat :| Follow(cs, x, n) == Some(id);
            FollowOn(cs, x, id, n);
          }
        }
        CheckMatches(cs, next, seen + [next]);
        MatchesStep(cs, id, Check(cs, next, seen + [next]));
      }
    }
  }

  lemma MatchesStep(cs: Table, id: string, r: Answer)
    requires id in cs && cs[id].Identifier? && Matches(cs, cs[id].name, r)
    ensures Matches(cs, id, r)
  {
    var next := cs[id].name;
    match r
    case Found(v) =>
      var n: nat, kind :| Chase(cs, next, n) == Done(kind, v);
      assert Chase(cs, id, n + 1) == Done(kind, v);
    case Failed(Undefined(x)) =>
      var n: nat :| Chase(cs, next, n) == Missing(x);
      assert Chase(cs, id, n + 1) == Missing(x);
    case Failed(Circular) =>
      forall n: nat ensures Chase(cs, id, n) == Running {
        if n > 0 { assert Chase(cs, next, n - 1) == Running; }
      }
  }

  /** The checker's lookup always ends. It finds a value exactly when the analyzer's lookup ends with that
      value, reports a name as undefined exactly when the analyzer's ends by missing that name, and a
      circle exactly when the analyzer's would never end. */
  lemma LookupsAgree(cs: Table, id: string)
    ensures forall v :: Check(cs, id, []) == Found(v) <==> EndsWith(cs, id, v)
    ensures forall x :: Check(cs, id, []) == Failed(Undefined(x)) <==> EndsMissing(cs, id, x)
    ensures Check(cs, id, []) == Failed(Circular) <==> Endless(cs, id)
  {
    var r := Check(cs, id, []);
    CheckMatches(cs, id, []);
    forall n: nat | Chase(cs, id, n) != Running
      ensures match Chase(cs, id, n)
              case Done(_, v) => r == Found(v)
              case Missing(x) => r == Failed(Undefined(x))
              case Running => false
    {
      AnswerOf(cs, id, r, n);
    }
    CircularIff(cs, id, r);
  }

  lemma CircularIff(cs: Table, id: string, r: Answer)
    requires Matches(cs, id, r)
    ensures r == Failed(Circular) <==> Endless(cs, id)
  {
    if r.Found? {
      var n: nat, kind :| Chase(cs, id, n) == Done(kind, r.value);
      Ends(cs, id, n);
    } else if r.error.Undefined? {
      var n: nat :| Chase(cs, id, n) == Missing(r.error.name);
      Ends(cs, id, n);
    }
  }

  lemma AnswerOf(cs: Table, id: string, r: Answer, n: nat)
    requires Matches(cs, id, r) && Chase(cs, id, n) != Running
    ensures match Chase(cs, id, n)
            case Done(_, v) => r == Found(v)
            case Missing(x) => r == Failed(Undefined(x))
            case Running => false
  {
    if r != Failed(Circular) {
      var m: nat :| Chase(cs, id, m) != Running && match r
                      case Found(v) => exists kind :: Chase(cs, id, m) == Done(kind, v)
                      case Failed(Undefined(x)) => Chase(cs, id, m) == Missing(x)
                      case Failed(Circular) => false;
      if n <= m { ChaseSettled(cs, id, n, m); } else { ChaseSettled(cs, id, m, n); }
    }
  }
}
