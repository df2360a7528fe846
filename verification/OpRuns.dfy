/** Whole runs of an operator tree: any interleaving of list growth and calls of next. */
module OpRuns {
  import opened SetOps
  import opened DynOps

  datatype Command<T> = Grow(leaf: nat, elems: seq<T>) | Finish(leaf: nat) | Ask

  function Values<T>(answers: seq<Outcome<T>>): set<T> {
    if answers == [] then {} else Values(answers[..|answers| - 1]) + Fresh(answers[|answers| - 1])
  }

  lemma {:induction false} InValues<T>(answers: seq<Outcome<T>>, i: nat)
    requires i < |answers| && answers[i].Yield?
    ensures answers[i].value in Values(answers)
    decreases |answers|
  {
    if i < |answers| - 1 { InValues(answers[..|answers| - 1], i); }
  }

  predicate NoRepeats<T(==)>(answers: seq<Outcome<T>>) {
    forall i, j :: 0 <= i < j < |answers| && answers[i].Yield? && answers[j].Yield? ==> answers[i].value != answers[j].value
  }

  /** After a Stop there is nothing but Stops, and what was delivered before it is all there is. */
  predicate StopsForGood<T>(answers: seq<Outcome<T>>, all: set<T>) {
    forall i :: 0 <= i < |answers| && answers[i].Stop? ==>
      Values(answers[..i]) == all && forall j :: i <= j < |answers| ==> answers[j].Stop?
  }

  predicate SomeStop<T>(answers: seq<Outcome<T>>) { exists i :: 0 <= i < |answers| && answers[i].Stop? }

  /** The answers given so far, against what is known of the root. */
  predicate Tells<T(!new)>(answers: seq<Outcome<T>>, s: Summary<T>) {
    && Good(s) && Values(answers) == s.out && NoRepeats(answers) && StopsForGood(answers, s.out)
    && (SomeStop(answers) ==> s.ended)
  }

  lemma TellsGrown<T(!new)>(answers: seq<Outcome<T>>, s: Summary<T>, s': Summary<T>)
    requires Tells(answers, s) && Grown(s, s')
    ensures Tells(answers, s')
  {
  }

  lemma TellsNext<T(!new)>(answers: seq<Outcome<T>>, kind: Kind, s: Summary<T>, r: Outcome<T>, s': Summary<T>)
    requires Tells(answers, s) && !kind.ListOp? && Answered(kind, s, r, s')
    ensures Tells(answers + [r], s')
  {
    hide Good;
    var more := answers + [r];
    assert more[..|answers|] == answers;
    OutGrows(kind, s, r, s');
    forall i | 0 <= i < |answers| && answers[i].Yield? ensures answers[i].value in s.out { InValues(answers, i); }
    forall i | 0 <= i < |more| && more[i].Stop?
      ensures Values(more[..i]) == s'.out && forall j :: i <= j < |more| ==> more[j].Stop?
    {
      if i < |answers| {
        assert more[..i] == answers[..i];
        assert SomeStop(answers);
      }
    }
    if SomeStop(answers) { StillEnded(kind, s, r, s'); }
  }

  /** The last thing that happened is that a call of next paused. */
  predicate PausedLast<T>(commands: seq<Command<T>>, answers: seq<Outcome<T>>) {
    && commands != [] && commands[|commands| - 1].Ask?
    && answers != [] && answers[|answers| - 1].Pause?
  }

  /** How often next is called. */
  function Asks<T>(commands: seq<Command<T>>): nat {
    if commands == [] then 0
    else Asks(commands[..|commands| - 1]) + if commands[|commands| - 1].Ask? then 1 else 0
  }

  /** What a list, with these elements and final or not, is after the command. */
  ghost function Given<T(!new)>(c: Command<T>, leaves: seq<Iter<T>>, x: Iter<T>, held: (seq<T>, bool)): (seq<T>, bool) {
    if c.Ask? || c.leaf >= |leaves| || leaves[c.leaf] != x then held
    else if c.Grow? then (if held.1 then held.0 else held.0 + c.elems, held.1)
    else (held.0, true)
  }

  ghost function Holding<T(!new)>(commands: seq<Command<T>>, leaves: seq<Iter<T>>, x: Iter<T>, held: (seq<T>, bool)):
    (seq<T>, bool)
  {
    if commands == [] then held
    else Given(commands[|commands| - 1], leaves, x, Holding(commands[..|commands| - 1], leaves, x, held))
  }

  /** A list of the tree grows, or is made final. */
  method Give<T(==, !new)>(root: Iter<T>, leaves: seq<Iter<T>>, c: Command<T>)
    requires root.Shape() && Good(root.Sum()) && !c.Ask?
    requires forall i :: 0 <= i < |leaves| ==> leaves[i] in root.repr && leaves[i].kind.ListOp?
    modifies root.repr
    ensures Grown(old(root.Sum()), root.Sum())
    ensures forall i :: 0 <= i < |leaves| ==>
              leaves[i].Held() == Given(c, leaves, leaves[i], old(leaves[i].Held()))
    ensures forall i :: 0 <= i < |leaves| && !(c.leaf < |leaves| && leaves[c.leaf] == leaves[i]) ==>
              leaves[i].list == old(leaves[i].list) && leaves[i].closed == old(leaves[i].closed)
    ensures c.leaf < |leaves| && c.Grow? ==>
              var x := leaves[c.leaf];
              x.closed == old(x.closed) && x.list == if x.closed then old(x.list) else old(x.list) + c.elems
    ensures c.leaf < |leaves| && c.Finish? ==>
              leaves[c.leaf].closed && leaves[c.leaf].list == old(leaves[c.leaf].list)
  {
    hide Good, Grown, Combine, Iter.Shape, Iter.Sum;
    if c.leaf < |leaves| {
      if c.Grow? { leaves[c.leaf].Extend(c.elems); } else { leaves[c.leaf].Final(); }
    }
    root.GrowthIsHarmless();
  }

  /** Any run: every list takes what it is given until it is final; elements delivered are members of the final
      set, none comes twice, a Stop means that all of them were delivered, and a Pause that all that is ready
      was. */
  method Drive<T(==, !new)>(root: Iter<T>, leaves: seq<Iter<T>>, commands: seq<Command<T>>)
    returns (answers: seq<Outcome<T>>)
    requires root.Shape() && Good(root.Sum()) && root.Sum().out == {} && !root.kind.ListOp?
    requires forall i :: 0 <= i < |leaves| ==> leaves[i] in root.repr && leaves[i].kind.ListOp?
    modifies root.repr
    ensures |answers| == Asks(commands)
    ensures forall i :: 0 <= i < |leaves| ==>
              leaves[i].Held() == Holding(commands, leaves, leaves[i], old(leaves[i].Held()))
    ensures NoRepeats(answers) && Values(answers) <= root.Sum().den
    ensures StopsForGood(answers, root.Sum().den)
    ensures old(root.Sum().closed) ==> root.Sum().den == old(root.Sum().den) && Pause !in answers
    ensures PausedLast(commands, answers) ==> Values(answers) == root.Sum().ready
  {
    hide Good, Answered, Grown, Tells, Combine, NoRepeats, StopsForGood, Values, Asks, Holding, Given, PausedLast;
    hide Iter.Shape, Iter.Sum;
    answers := [];
    NothingYet(commands, leaves);
    TellsNothing(root.Sum());
    ghost var closed, den := root.Sum().closed, root.Sum().den;
    var k := 0;
    while k < |commands|
      invariant 0 <= k <= |commands| && Tells(answers, root.Sum()) && |answers| == Asks(commands[..k])
      invariant forall i :: 0 <= i < |leaves| ==>
                  leaves[i].Held() == Holding(commands[..k], leaves, leaves[i], old(leaves[i].Held()))
      invariant closed ==> root.Sum().closed && root.Sum().den == den && Pause !in answers
      invariant PausedLast(commands[..k], answers) ==> Values(answers) == root.Sum().ready
    {
      TellsGood(answers, root.Sum());
      ghost var s := root.Sum();
      var c := commands[k];
      if c.Ask? {
        var r := root.Next();
        TellsNext(answers, root.kind, s, r, root.Sum());
        AnsweredClosed(root.kind, s, r, root.Sum());
        TellsPause(answers, root.kind, s, r, root.Sum());
        answers := answers + [r];
      } else {
        Give(root, leaves, c);
        TellsGrown(answers, s, root.Sum());
        GrownClosed(s, root.Sum());
      }
      AsksNext(commands, k);
      PausedNext(commands, k, answers);
      forall i | 0 <= i < |leaves|
        ensures leaves[i].Held() == Holding(commands[..k + 1], leaves, leaves[i], old(leaves[i].Held()))
      {
        HoldingNext(commands, k, leaves, leaves[i], old(leaves[i].Held()));
      }
      k := k + 1;
    }
    assert commands[..k] == commands;
    TellsAll(answers, root.Sum());
  }

  lemma NothingYet<T(!new)>(commands: seq<Command<T>>, leaves: seq<Iter<T>>)
    ensures Asks(commands[..0]) == 0 && !PausedLast(commands[..0], [])
    ensures forall x, held :: Holding(commands[..0], leaves, x, held) == held
  {
  }

  lemma PausedNext<T>(commands: seq<Command<T>>, k: nat, answers: seq<Outcome<T>>)
    requires k < |commands|
    ensures PausedLast(commands[..k + 1], answers) <==>
              commands[k].Ask? && answers != [] && answers[|answers| - 1].Pause?
  {
  }

  lemma TellsPause<T(!new)>(answers: seq<Outcome<T>>, kind: Kind, s: Summary<T>, r: Outcome<T>, s': Summary<T>)
    requires Answered(kind, s, r, s') && Tells(answers + [r], s')
    ensures r.Pause? ==> Values(answers + [r]) == s'.ready
  {
  }

  lemma AsksNext<T>(commands: seq<Command<T>>, k: nat)
    requires k < |commands|
    ensures Asks(commands[..k + 1]) == Asks(commands[..k]) + if commands[k].Ask? then 1 else 0
  {
    assert commands[..k + 1][..k] == commands[..k];
  }

  lemma HoldingNext<T(!new)>(commands: seq<Command<T>>, k: nat, leaves: seq<Iter<T>>, x: Iter<T>, held: (seq<T>, bool))
    requires k < |commands|
    ensures Holding(commands[..k + 1], leaves, x, held)
         == Given(commands[k], leaves, x, Holding(commands[..k], leaves, x, held))
    ensures commands[k].Ask? ==> Holding(commands[..k + 1], leaves, x, held) == Holding(commands[..k], leaves, x, held)
  {
    assert commands[..k + 1][..k] == commands[..k];
  }

  lemma TellsNothing<T(!new)>(s: Summary<T>)
    requires Good(s) && s.out == {}
    ensures Tells([], s)
  {
  }

  lemma TellsGood<T(!new)>(answers: seq<Outcome<T>>, s: Summary<T>)
    requires Tells(answers, s)
    ensures Good(s)
  {
  }

  lemma TellsAll<T(!new)>(answers: seq<Outcome<T>>, s: Summary<T>)
    requires Tells(answers, s)
    ensures NoRepeats(answers) && Values(answers) <= s.den && StopsForGood(answers, s.den)
  {
    if s.ended { assert s.out == s.den; } else { assert !SomeStop(answers); }
  }

  lemma AnsweredClosed<T(!new)>(kind: Kind, s: Summary<T>, r: Outcome<T>, s': Summary<T>)
    requires Answered(kind, s, r, s')
    ensures s'.closed == s.closed && s'.den == s.den && (s.closed ==> !r.Pause?)
  {
  }

  lemma GrownClosed<T(!new)>(s: Summary<T>, s': Summary<T>)
    requires Grown(s, s')
    ensures s.closed ==> s'.closed && s'.den == s.den
  {
  }

  predicate HasRead<T(!new)>(elems: seq<T>, s: Summary<T>) {
    Good(s) && s.closed && (set e | e in elems) == s.out && |elems| == |s.out|
  }

  lemma ReadNext<T(!new)>(elems: seq<T>, kind: Kind, s: Summary<T>, r: Outcome<T>, s': Summary<T>)
    requires HasRead(elems, s) && !kind.ListOp? && Answered(kind, s, r, s')
    ensures s'.den == s.den && !r.Pause?
    ensures r.Yield? ==> HasRead(elems + [r.value], s') && s'.fuel < s.fuel
    ensures r.Stop? ==> (set e | e in elems) == s.den && |elems| == |s.den|
  {
    if r.Yield? {
      assert (set e | e in elems + [r.value]) == (set e | e in elems) + {r.value};
    }
  }

  lemma ReadNothing<T(!new)>(s: Summary<T>)
    requires Good(s) && s.closed && s.out == {}
    ensures HasRead([], s)
  {
  }

  lemma ReadGood<T(!new)>(elems: seq<T>, s: Summary<T>)
    requires HasRead(elems, s)
    ensures Good(s)
  {
  }

  /** With every list final, asking until Stop delivers the whole set, each element once. */
  method ReadAll<T(==, !new)>(root: Iter<T>) returns (elems: seq<T>)
    requires root.Shape() && Good(root.Sum()) && root.Sum().out == {} && !root.kind.ListOp? && root.Sum().closed
    modifies root.repr
    ensures (set e | e in elems) == old(root.Sum().den) && |elems| == |old(root.Sum().den)|
  {
    hide Good, Answered, Combine, HasRead;
    elems := [];
    ReadNothing(root.Sum());
    while true
      invariant HasRead(elems, root.Sum()) && root.Sum().den == old(root.Sum().den)
      decreases root.Sum().fuel
    {
      ghost var s := root.Sum();
      ReadGood(elems, s);
      var r := root.Next();
      ReadNext(elems, root.kind, s, r, root.Sum());
      if r.Stop? { return; }
      elems := elems + [r.value];
    }
  }
}
