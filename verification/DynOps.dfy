/** The operators as objects: a tree of Unions, Intersections and Differences over Lists that grow
    while the tree is being asked for elements (dynops.py:53-99, 101-319, 590-655). */
module DynOps {
  import opened SetOps

  ghost function ReprOf<T(!new)>(operands: seq<Iter<T>>): set<Iter<T>> {
    set i, n | 0 <= i < |operands| && n in operands[i].repr :: n
  }

  lemma ReprAllocated<T(!new)>(operands: seq<Iter<T>>)
    ensures forall n :: n in ReprOf(operands) ==> allocated(n)
  {
  }

  ghost function HeightAbove<T(!new)>(operands: seq<Iter<T>>): (h: nat)
    ensures forall i :: 0 <= i < |operands| ==> operands[i].height < h
  {
    if operands == [] then 1
    else
      var h := HeightAbove(operands[..|operands| - 1]);
      if operands[|operands| - 1].height < h then h else operands[|operands| - 1].height + 1
  }

  /** Separate operators that nothing has been drawn from. */
  ghost predicate Forest<T(!new)>(operands: seq<Iter<T>>)
    reads ReprOf(operands)
  {
    && (forall i :: 0 <= i < |operands| ==> operands[i].Shape() && operands[i].repr <= ReprOf(operands))
    && (forall i :: 0 <= i < |operands| ==> Good(operands[i].Sum()) && operands[i].Sum().out == {})
    && (forall i, j :: 0 <= i < j < |operands| ==> operands[i].repr !! operands[j].repr)
  }

  ghost function Summaries<T(!new)>(operands: seq<Iter<T>>): (r: seq<Summary<T>>)
    requires forall i :: 0 <= i < |operands| ==> operands[i].Shape()
    reads ReprOf(operands)
    ensures |r| == |operands| && forall i :: 0 <= i < |operands| ==> r[i] == operands[i].Sum()
  {
    seq(|operands|, i requires 0 <= i < |operands| reads ReprOf(operands) => operands[i].Sum())
  }

  class Iter<T(==, !new)> {
    const kind: Kind
    /** The operands; a Difference's first operand is the set it subtracts the others from. */
    const iters: seq<Iter<T>>
    ghost const repr: set<Iter<T>>
    ghost const height: nat

    var list: seq<T>
    var closed: bool
    var index: nat
    /** Union.set, Intersection.set or Difference.remove. */
    var out: set<T>
    var candidates: set<T>
    var drawn: seq<set<T>>
    /** Operands marked final. */
    var done: seq<bool>

    /** The operands form a tree. */
    ghost predicate Shape()
      decreases height
    {
      && this in repr
      && (kind.ListOp? ==> iters == [])
      && (forall i :: 0 <= i < |iters| ==>
            && iters[i] in repr && iters[i].repr <= repr && this !in iters[i].repr
            && iters[i].height < height && iters[i].Shape())
      && (forall i, j :: 0 <= i < j < |iters| ==> iters[i].repr !! iters[j].repr)
    }

    ghost function State(): Fields<T>
      reads this
    {
      Fields(list, index, closed, out, candidates, drawn, done)
    }

    /** The elements of a list, and whether it is final. */
    ghost function Held(): (seq<T>, bool)
      reads this
    {
      (list, closed)
    }

    ghost function Sum(): Summary<T>
      requires Shape()
      reads repr
      decreases height, 1
    {
      Combine(kind, State(), Kids())
    }

    ghost function Kids(): (r: seq<Summary<T>>)
      requires Shape()
      reads repr - {this}
      ensures |r| == |iters| && forall i :: 0 <= i < |iters| ==> r[i] == iters[i].Sum()
      decreases height, 0
    {
      seq(|iters|, i requires 0 <= i < |iters| reads repr - {this} => iters[i].Sum())
    }

    constructor List(elems: seq<T>)
      ensures Shape() && kind.ListOp? && repr == {this} && fresh(this)
      ensures list == elems && !closed && Good(Sum()) && Sum().out == {}
    {
      kind, iters, repr, height := ListOp, [], {this}, 0;
      list, closed, index := elems, false, 0;
      out, candidates, drawn, done := {}, {}, [], [];
    }

    constructor Union(operands: seq<Iter<T>>)
      requires Forest(operands)
      ensures Shape() && kind.UnionOp? && iters == operands && repr == {this} + ReprOf(operands) && fresh(this)
      ensures Good(Sum()) && Sum().out == {} && Kids() == Summaries(operands)
    {
      hide ReprOf, HeightAbove, Forest, Good, Combine, Shape;
      ghost var below := ReprOf(operands);
      ReprAllocated(operands);
      kind, iters, repr, height := UnionOp, operands, {this} + below, HeightAbove(operands);
      list, closed, index := [], false, 0;
      out, candidates, drawn, done := {}, {}, [], [];
      new;
      Built(operands);
    }

    constructor Intersection(operands: seq<Iter<T>>)
      requires Forest(operands) && operands != []
      ensures Shape() && kind.IntersectionOp? && iters == operands && repr == {this} + ReprOf(operands) && fresh(this)
      ensures Good(Sum()) && Sum().out == {} && Kids() == Summaries(operands)
    {
      hide ReprOf, HeightAbove, Forest, Good, Combine, Shape;
      ghost var below := ReprOf(operands);
      ReprAllocated(operands);
      kind, iters, repr, height := IntersectionOp, operands, {this} + below, HeightAbove(operands);
      list, closed, index := [], false, 0;
      out, candidates := {}, {};
      drawn := seq(|operands|, i => {});
      done := seq(|operands|, i => false);
      new;
      Built(operands);
    }

    constructor Difference(first: Iter<T>, rest: seq<Iter<T>>)
      requires Forest([first] + rest)
      ensures Shape() && kind.DifferenceOp? && iters == [first] + rest && repr == {this} + ReprOf([first] + rest)
      ensures fresh(this) && Good(Sum()) && Sum().out == {} && Kids() == Summaries([first] + rest)
    {
      hide ReprOf, HeightAbove, Forest, Good, Combine, Shape;
      ghost var below := ReprOf([first] + rest);
      ReprAllocated([first] + rest);
      kind, iters, repr, height := DifferenceOp, [first] + rest, {this} + below, HeightAbove([first] + rest);
      list, closed, index := [], false, 0;
      out, candidates, drawn := {}, {}, [];
      done := seq(1 + |rest|, i => false);
      new;
      Built([first] + rest);
    }

    lemma Built(operands: seq<Iter<T>>)
      requires Forest(operands) && this !in ReprOf(operands)
      requires iters == operands && repr == {this} + ReprOf(operands) && height == HeightAbove(operands)
      requires out == {} && candidates == {} && !kind.ListOp?
      requires !kind.UnionOp? ==> operands != [] && done == seq(|operands|, i => false)
      requires kind.IntersectionOp? ==> drawn == seq(|operands|, i => {})
      ensures Shape() && Good(Sum()) && Sum().out == {} && Kids() == Summaries(operands)
    {
      hide Combine, Good;
      BuiltShape(operands);
      StartGood(kind, State(), Kids());
    }

    lemma BuiltShape(operands: seq<Iter<T>>)
      requires Forest(operands) && this !in ReprOf(operands) && !kind.ListOp?
      requires iters == operands && repr == {this} + ReprOf(operands) && height == HeightAbove(operands)
      ensures Shape() && Kids() == Summaries(operands)
      ensures AllGood(Kids()) && forall i :: 0 <= i < |operands| ==> Kids()[i].out == {}
    {
      hide Combine, Good;
    }

    /** Whatever is subtracted anywhere in the tree comes from final lists. */
    ghost predicate SubtractedFinal()
      requires Shape()
      reads repr
      decreases height
    {
      && (kind.DifferenceOp? && iters != [] ==> AllClosed(Kids()[1..]))
      && forall i :: 0 <= i < |iters| ==> iters[i].SubtractedFinal()
    }

    /** Then all that the tree stands for is ready: it pauses only with nothing left to deliver. */
    lemma ReadyIsAll()
      requires Shape() && SubtractedFinal()
      ensures Sum().ready == Sum().den
      decreases height
    {
      hide Shape, UnionOf, IntersectionOf;
      var kids := Kids();
      AllReady();
      if kind.DifferenceOp? && kids != [] {
        assert kids[0].ready == kids[0].den;
      } else {
        UnionEqual(Readies(kids), Dens(kids));
      }
    }

    lemma AllReady()
      requires Shape() && SubtractedFinal()
      ensures forall i :: 0 <= i < |iters| ==> Kids()[i].ready == Kids()[i].den
      decreases height, 0
    {
      forall i | 0 <= i < |iters| ensures Kids()[i].ready == Kids()[i].den { iters[i].ReadyIsAll(); }
    }

    /** What an append, an extend or a final may have done to an object: nothing unless it is a list. */
    twostate predicate GrewAtMost()
      reads this
    {
      || State() == old(State())
      || (kind.ListOp? && State() == old(State()).(list := list, closed := closed) && old(list) <= list
          && (old(closed) ==> closed && list == old(list)))
    }

    twostate lemma GrowthIsHarmless()
      requires Shape() && Good(old(Sum()))
      requires forall n :: n in repr ==> n.GrewAtMost()
      ensures Grown(old(Sum()), Sum())
      decreases height
    {
      hide Grown, Good, Combine;
      GoodParts(kind, old(State()), old(Kids()));
      if kind.ListOp? {
        assert this.GrewAtMost();
        if State() == old(State()) { GrownNothing(kind, State(), Kids()); } else { GrownList(old(State()), State()); }
      } else {
        assert this.GrewAtMost();
        forall i | 0 <= i < |iters| ensures Grown(old(iters[i].Sum()), iters[i].Sum()) {
          iters[i].GrowthIsHarmless();
        }
        GrownAbove(kind, old(State()), old(Kids()), Kids());
      }
    }

    method Append(e: T)
      requires kind.ListOp?
      modifies this
      ensures State() == old(State()).(list := if closed then old(list) else old(list) + [e])
    {
      if !closed { list := list + [e]; }
    }

    method Extend(es: seq<T>)
      requires kind.ListOp?
      modifies this
      ensures State() == old(State()).(list := if closed then old(list) else old(list) + es)
    {
      if !closed { list := list + es; }
    }

    method Final()
      requires kind.ListOp?
      modifies this
      ensures State() == old(State()).(closed := true)
    {
      closed := true;
    }

    /** next(): an element, or Pause, or Stop. */
    method Next() returns (r: Outcome<T>)
      requires Shape() && Good(Sum())
      modifies repr`index, repr`out, repr`candidates, repr`drawn, repr`done
      ensures Answered(kind, old(Sum()), r, Sum())
      decreases height, 5
    {
      match kind
      case ListOp => r := NextList();
      case UnionOp => r := NextUnion();
      case IntersectionOp => r := NextIntersection();
      case DifferenceOp => r := NextDifference();
    }

    method NextList() returns (r: Outcome<T>)
      requires Shape() && kind.ListOp? && Good(Sum())
      modifies repr`index, repr`out, repr`candidates, repr`drawn, repr`done
      ensures Answered(kind, old(Sum()), r, Sum())
      decreases height, 0
    {
      if index < |list| {
        r := Yield(list[index]);
        index := index + 1;
      } else {
        r := if closed then Stop else Pause;
      }
    }

    /** One call of next on operand i. */
    method Poll(i: nat) returns (r: Outcome<T>)
      requires Shape() && i < |iters| && Good(iters[i].Sum())
      modifies iters[i].repr`index, iters[i].repr`out, iters[i].repr`candidates, iters[i].repr`drawn, iters[i].repr`done
      ensures Answered(iters[i].kind, old(iters[i].Sum()), r, iters[i].Sum())
      ensures Kids() == old(Kids())[i := iters[i].Sum()]
      ensures State() == old(State())
      decreases height, 0
    {
      hide Answered, Ready, Caught, AllCaught, Combine, Good;
      r := iters[i].Next();
    }

    method NextUnion() returns (r: Outcome<T>)
      requires Shape() && kind.UnionOp? && Good(Sum())
      modifies repr`index, repr`out, repr`candidates, repr`drawn, repr`done
      ensures Answered(kind, old(Sum()), r, Sum())
      decreases height, 4
    {
      hide Answered, Ready, Caught, AllCaught, Combine, UnionInv, Later;
      var paused := false;
      var i := 0;
      ghost var f, kids := State(), Kids();
      GoodParts(kind, f, kids);
      LaterStart(kids);
      while i < |iters|
        invariant 0 <= i <= |iters|
        invariant State() == f && Later(kids, Kids()) && UnionInv(f, Kids())
        invariant paused ==> exists j :: 0 <= j < |kids| && !kids[j].closed && !kids[j].ended
        invariant !paused ==> forall j :: 0 <= j < i ==> Kids()[j].ended
        invariant forall j :: 0 <= j < i ==> Caught(Kids()[j])
      {
        r := Draw(i, f, kids);
        if r.Yield? { return; }
        paused := paused || r.Pause?;
        i := i + 1;
      }
      r := if paused then Pause else Stop;
      UnionCaught(State(), Kids());
      AnswersQuiet(kind, f, kids, r, State(), Kids());
    }

    /** Union's inner loop: skip what was delivered before. */
    method Draw(i: nat, ghost f: Fields<T>, ghost kids: seq<Summary<T>>) returns (r: Outcome<T>)
      requires Shape() && kind.UnionOp? && i < |iters| && State() == f
      requires Later(kids, Kids()) && UnionInv(f, Kids()) && UnionInv(f, kids)
      modifies repr`index, repr`out, repr`candidates, repr`drawn, repr`done
      ensures r.Yield? ==> Answered(kind, Combine(kind, f, kids), r, Sum())
      ensures !r.Yield? ==> State() == f && Later(kids, Kids()) && UnionInv(f, Kids())
      ensures r.Stop? ==> Kids()[i].ended
      ensures !r.Yield? ==> Caught(Kids()[i])
      ensures r.Pause? ==> !kids[i].closed && !kids[i].ended
      ensures !r.Yield? ==> forall j :: 0 <= j < |iters| && j != i ==> Kids()[j] == old(Kids()[j])
      decreases height, 1
    {
      hide Combine, UnionInv, Later, AllGood;
      while true
        invariant State() == f && Later(kids, Kids()) && UnionInv(f, Kids())
        invariant forall j :: 0 <= j < |iters| && j != i ==> Kids()[j] == old(Kids()[j])
        decreases iters[i].Sum().fuel
      {
        ghost var before := Kids();
        LaterGood(kids, before);
        r := Poll(i);
        LaterNext(kids, before, i, iters[i].kind, r, iters[i].Sum());
        UnionDrawn(f, before, i, iters[i].kind, r, iters[i].Sum());
        if r.Yield? {
          if r.value !in out {
            out := out + {r.value};
            AnswersYield(kind, f, kids, r.value, State(), Kids());
            return;
          }
          assert f.out + {r.value} == f.out;
        } else {
          assert f.out + {} == f.out;
          QuietCaught(iters[i].kind, before[i], r, Kids()[i]);
          return;
        }
      }
    }

    method NextIntersection() returns (r: Outcome<T>)
      requires Shape() && kind.IntersectionOp? && Good(Sum())
      modifies repr`index, repr`out, repr`candidates, repr`drawn, repr`done
      ensures Answered(kind, old(Sum()), r, Sum())
      decreases height, 4
    {
      hide Answered, Ready, Caught, AllCaught, Combine, Later, Round, IntersectionInv, AllGood;
      ghost var f, kids := State(), Kids();
      GoodParts(kind, f, kids);
      LaterStart(kids);
      if candidates != {} {
        r := Pop(f, kids);
        return;
      }
      while true
        invariant candidates == {} && out == f.out && IntersectionInv(State(), Kids()) && Later(kids, Kids())
        decreases Fuel(Fuels(Kids()))
      {
        var active := Collect(f, kids);
        if candidates != {} {
          r := Pop(f, kids);
          return;
        }
        if !active || AllDone(done, 0) {
          if AllDone(done, 0) {
            IntersectionDone(State(), Kids());
            r := Stop;
          } else {
            IntersectionCaught(State(), Kids());
            r := Pause;
          }
          AnswersQuiet(kind, f, kids, r, State(), Kids());
          return;
        }
      }
    }

    /** One round: what all operands have delivered by now, and was not delivered before. */
    method Collect(ghost f: Fields<T>, ghost kids: seq<Summary<T>>) returns (active: bool)
      requires Shape() && kind.IntersectionOp? && candidates == {} && out == f.out
      requires IntersectionInv(State(), Kids()) && Later(kids, Kids())
      modifies repr`index, repr`out, repr`candidates, repr`drawn, repr`done
      ensures out == f.out && IntersectionInv(State(), Kids()) && Later(kids, Kids())
      ensures active ==> Fuel(Fuels(Kids())) < old(Fuel(Fuels(Kids())))
      ensures !active && !AllDone(done, 0) ==> !AllClosed(kids) && !AllEnded(kids)
      ensures !active ==> AllCaught(Kids())
      decreases height, 3
    {
      hide Answered, Ready, Caught, AllCaught, Combine, Later, Round, IntersectionInv, AllGood, Fuel, AllClosed, AllEnded, Outs;
      ghost var g, before := State(), Kids();
      LaterGood(kids, before);
      IntersectionDrawn(g, before);
      active := PollAll();
      IntersectionRound(g, before, State(), Kids());
      RoundSizes(g, before, State(), Kids());
      LaterTrans(kids, before, Kids());
      if !active && !AllDone(done, 0) {
        ghost var j: nat :| j < |iters| && !before[j].closed && !before[j].ended;
        StillOpen(kids, before, j);
      }
      TakeCommon();
    }

    /** The currently seen intersection leaves drawn; what of it is new becomes a candidate. */
    method TakeCommon()
      requires Shape() && drawn != []
      modifies `drawn, `candidates
      ensures Kids() == old(Kids())
      ensures var found := IntersectionOf(old(drawn));
              State() == old(State()).(candidates := found - out, drawn := Without(old(drawn), found))
    {
      var found := IntersectionOf(drawn);
      drawn := Without(drawn, found);
      candidates := found - out;
    }

    /** candidates.pop(): any of them. */
    method Pop(ghost f: Fields<T>, ghost kids: seq<Summary<T>>) returns (r: Outcome<T>)
      requires Shape() && kind.IntersectionOp? && candidates != {} && out == f.out
      requires IntersectionInv(f, kids) && IntersectionInv(State(), Kids()) && AllGood(kids) && Later(kids, Kids())
      modifies `out, `candidates
      ensures Answered(kind, Combine(kind, f, kids), r, Sum())
      ensures r.Yield?
      decreases height, 0
    {
      hide Answered, Ready, Caught, AllCaught, Combine, Later, AllGood;
      ghost var g := State();
      if Ended(kind, f, kids) { NoMoreCandidates(f, kids, g, Kids()); }
      var e :| e in candidates;
      candidates := candidates - {e};
      out := out + {e};
      PopKeeps(g, Kids(), e);
      AnswersYield(kind, f, kids, e, State(), Kids());
      r := Yield(e);
    }

    /** Ask each operand that is not final for one element. */
    method PollAll() returns (active: bool)
      requires Shape() && kind.IntersectionOp? && |drawn| == |iters| == |done| && AllGood(Kids()) && AllDrawn(State(), Kids())
      modifies repr`index, repr`out, repr`candidates, repr`drawn, repr`done
      ensures Round(old(State()), old(Kids()), State(), Kids())
      ensures active ==> Fuel(Fuels(Kids())) < Fuel(Fuels(old(Kids())))
      ensures !active && !AllDone(done, 0) ==>
                exists j :: 0 <= j < |iters| && !old(Kids())[j].closed && !old(Kids())[j].ended
      ensures !active ==> AllCaught(Kids())
      decreases height, 2
    {
      hide Answered, Ready, Caught, Combine, Polled, Good, Progress, AllDrawn, Fuel;
      active := false;
      ghost var w: nat := |iters|;
      ghost var f, kids := State(), Kids();
      ProgressStart(f, kids);
      var i := 0;
      while i < |iters|
        invariant 0 <= i <= |iters| == |kids| == |done| == |drawn| && Progress(f, kids, State(), Kids(), i)
        invariant active ==> w < |iters| && Kids()[w].fuel < kids[w].fuel
        invariant !active ==> forall j :: 0 <= j < i ==> done[j] || (!kids[j].closed && !kids[j].ended)
        invariant !active ==> forall j :: 0 <= j < i ==> Caught(Kids()[j])
      {
        DrawnAt(f, kids, i);
        ProgressAt(f, kids, State(), Kids(), i);
        var yielded := PollOne(i, f, kids);
        if yielded {
          active := true;
          w := i;
        }
        i := i + 1;
      }
      ProgressAt(f, kids, State(), Kids(), i);
      FuelDrops(Fuels(kids), Fuels(Kids()), w);
    }

    method PollOne(i: nat, ghost f: Fields<T>, ghost kids: seq<Summary<T>>) returns (yielded: bool)
      requires Shape() && kind.IntersectionOp? && i < |iters| == |done| == |drawn| == |kids| == |f.drawn| == |f.done|
      requires Progress(f, kids, State(), Kids(), i)
      requires Good(kids[i]) && f.drawn[i] <= kids[i].out && (f.done[i] ==> kids[i].ended)
      requires Kids()[i] == kids[i] && drawn[i] == f.drawn[i] && done[i] == f.done[i]
      modifies repr`index, repr`out, repr`candidates, repr`drawn, repr`done
      ensures |drawn| == |done| == |iters|
      ensures forall j :: 0 <= j < |iters| && j != i ==> done[j] == old(done)[j]
      ensures Progress(f, kids, State(), Kids(), i + 1)
      ensures forall j :: 0 <= j < |iters| && j != i ==> Kids()[j] == old(Kids()[j])
      ensures yielded ==> Kids()[i].fuel < kids[i].fuel
      ensures !yielded ==> done[i] || (!kids[i].closed && !kids[i].ended)
      ensures !yielded ==> Caught(Kids()[i])
      decreases height, 1
    {
      hide Answered, Ready, Caught, AllCaught, Combine, Polled, Good, Progress;
      yielded := false;
      ghost var g, before := State(), Kids();
      if !done[i] {
        var n := Poll(i);
        PolledOnce(iters[i].kind, kids[i], f.drawn[i], n, Kids()[i]);
        match n {
          case Yield(e) =>
            drawn := drawn[i := drawn[i] + {e}];
            yielded := true;
          case Pause =>
            assert drawn[i] + Fresh(n) == drawn[i];
            QuietCaught(iters[i].kind, kids[i], n, Kids()[i]);
          case Stop =>
            assert drawn[i] + Fresh(n) == drawn[i];
            QuietCaught(iters[i].kind, kids[i], n, Kids()[i]);
            done := done[i := true];
        }
      } else {
        PolledNot(kids[i], f.drawn[i]);
        EndedCaught(kids[i]);
      }
      assert Kids() == before[i := Kids()[i]];
      assert drawn == g.drawn[i := drawn[i]] && done == g.done[i := done[i]];
      ProgressNext(f, kids, g, before, i, Kids()[i], drawn[i], done[i]);
    }

    method NextDifference() returns (r: Outcome<T>)
      requires Shape() && kind.DifferenceOp? && Good(Sum())
      modifies repr`index, repr`out, repr`candidates, repr`drawn, repr`done
      ensures Answered(kind, old(Sum()), r, Sum())
      decreases height, 4
    {
      hide Answered, Ready, Caught, AllCaught, Combine, Later, AllGood, DifferenceInv, Draining, Delivered;
      ghost var f, kids := State(), Kids();
      GoodParts(kind, f, kids);
      LaterStart(kids);
      DifferenceSizes(f, kids);
      if !AllDone(done, 1) {
        var paused := DrainAll();
        DrainingDelivers(f, kids);
        DrainingDelivers(State(), Kids());
        if paused {
          ghost var i: nat :| 1 <= i < |kids| && !kids[i].closed;
          OpenWaits(f, kids, State(), Kids(), i);
          r := Pause;
          AnswersQuiet(kind, f, kids, r, State(), Kids());
          return;
        }
      }
      r := Filter(f, kids);
    }

    /** Collect what is subtracted, from every operand but the first. */
    method DrainAll() returns (paused: bool)
      requires Shape() && kind.DifferenceOp? && Draining(State(), Kids()) && AllGood(Kids())
      modifies repr`index, repr`out, repr`candidates, repr`drawn, repr`done
      ensures Later(old(Kids()), Kids()) && Draining(State(), Kids())
      ensures paused ==> !AllClosed(old(Kids())) && !AllEnded(old(Kids()))
      ensures paused ==> exists i :: 1 <= i < |iters| && !old(Kids())[i].closed
      ensures !paused ==> AllDone(done, 1)
      decreases height, 2
    {
      hide Answered, Ready, Caught, AllCaught, Combine, Later, AllGood, Draining;
      ghost var kids := Kids();
      LaterStart(kids);
      paused := false;
      var i := 1;
      DrainingSizes(State(), kids);
      while i < |iters|
        invariant 1 <= i <= |iters| == |done|
        invariant Later(kids, Kids()) && Draining(State(), Kids())
        invariant paused ==> !AllClosed(kids) && !AllEnded(kids) && exists j :: 1 <= j < |iters| && !kids[j].closed
        invariant !paused ==> forall j :: 1 <= j < i ==> done[j]
      {
        var stopped := Drain(i, kids);
        if !stopped { paused := true; }
        i := i + 1;
      }
    }

    method Drain(i: nat, ghost kids: seq<Summary<T>>) returns (stopped: bool)
      requires Shape() && kind.DifferenceOp? && 1 <= i < |iters|
      requires Draining(State(), Kids()) && Later(kids, Kids())
      modifies repr`index, repr`out, repr`candidates, repr`drawn, repr`done
      ensures Later(kids, Kids()) && Draining(State(), Kids())
      ensures done == if stopped then old(done)[i := true] else old(done)
      ensures !stopped ==> !AllClosed(kids) && !AllEnded(kids) && !kids[i].closed
      decreases height, 1
    {
      hide Answered, Ready, Caught, AllCaught, Combine, Later, AllGood, Draining;
      while true
        invariant Later(kids, Kids()) && Draining(State(), Kids()) && done == old(done)
        decreases iters[i].Sum().fuel
      {
        ghost var f, before := State(), Kids();
        LaterGood(kids, before);
        DrainingSizes(f, before);
        var r := Poll(i);
        LaterNext(kids, before, i, iters[i].kind, r, Kids()[i]);
        Drained(f, before, i, iters[i].kind, r, Kids()[i]);
        match r
        case Yield(e) =>
          FuelSpent(iters[i].kind, before[i], r, Kids()[i]);
          out := out + {e};
        case Pause =>
          assert f.out + Fresh(r) == f.out;
          PausedOpen(iters[i].kind, before[i], r, Kids()[i]);
          StillOpen(kids, before, i);
          return false;
        case Stop =>
          assert f.out + Fresh(r) == f.out;
          done := done[i := true];
          return true;
      }
    }

    /** All that is subtracted is known: pass on the elements of the first operand. */
    method Filter(ghost f: Fields<T>, ghost kids: seq<Summary<T>>) returns (r: Outcome<T>)
      requires Shape() && kind.DifferenceOp? && iters != [] && AllDone(done, 1)
      requires DifferenceInv(State(), Kids()) && Later(kids, Kids()) && |kids| == |iters|
      requires Delivered(kind, State(), Kids()) == Delivered(kind, f, kids)
      modifies repr`index, repr`out, repr`candidates, repr`drawn, repr`done
      ensures Answered(kind, Combine(kind, f, kids), r, Sum())
      decreases height, 1
    {
      hide Answered, Ready, Caught, AllCaught, Combine, Later, AllGood, DifferenceInv, Delivered;
      while true
        invariant AllDone(done, 1) && DifferenceInv(State(), Kids()) && Later(kids, Kids())
        invariant Delivered(kind, State(), Kids()) == Delivered(kind, f, kids)
        decreases iters[0].Sum().fuel
      {
        ghost var g, before := State(), Kids();
        LaterGood(kids, before);
        DifferenceSizes(g, before);
        r := Poll(0);
        LaterNext(kids, before, 0, iters[0].kind, r, Kids()[0]);
        Filtered(g, before, iters[0].kind, r, Kids()[0]);
        match r
        case Yield(e) =>
          if e !in out {
            NotDelivered(g, before, e);
            out := out + {e};
            LaterGood(kids, Kids());
            SubtractedClosed(State(), Kids());
            LaterSame(kind, f, f, kids, Kids());
            AnswersYield(kind, f, kids, e, State(), Kids());
            return;
          }
          assert g.out + Fresh(r) == g.out;
          FuelSpent(iters[0].kind, before[0], r, Kids()[0]);
        case Pause =>
          assert g.out + Fresh(r) == g.out;
          PausedOpen(iters[0].kind, before[0], r, Kids()[0]);
          StillOpen(kids, before, 0);
          QuietCaught(iters[0].kind, before[0], r, Kids()[0]);
          LaterGood(kids, Kids());
          DifferenceCaught(State(), Kids());
          AnswersQuiet(kind, f, kids, r, State(), Kids());
          return;
        case Stop =>
          assert g.out + Fresh(r) == g.out;
          StillEnded(iters[0].kind, before[0], r, Kids()[0]);
          DifferenceDone(g, Kids());
          AnswersQuiet(kind, f, kids, r, State(), Kids());
          return;
      }
    }
  }
}
