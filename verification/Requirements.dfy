/** The nodes an actor may be deployed on: the operators put together by actor_requirements
    (appmanager.py:370-419). */
module Requirements {
  import opened SetOps
  import opened DynOps

  /** The nodes that meet every positive requirement and no negative one. */
  function Eligible<T(!new)>(positive: seq<Summary<T>>, negative: seq<Summary<T>>): set<T>
    requires positive != []
  {
    IntersectionOf(Dens(positive)) - UnionOf(Dens(negative))
  }

  lemma ForestParts<T(!new)>(a: seq<Iter<T>>, b: seq<Iter<T>>)
    requires Forest(a + b)
    ensures Forest(a) && Forest(b)
    ensures forall i, j :: 0 <= i < |a| && 0 <= j < |b| ==> a[i].repr !! b[j].repr
    ensures forall n :: n in ReprOf(a) ==> n !in ReprOf(b)
  {
    hide Good, Iter.Shape, Iter.Sum, Combine;
    var c := a + b;
    forall i | 0 <= i < |a|
      ensures a[i].Shape() && a[i].repr <= ReprOf(a) && Good(a[i].Sum()) && a[i].Sum().out == {}
    {
      assert a[i] == c[i];
    }
    forall j | 0 <= j < |b|
      ensures b[j].Shape() && b[j].repr <= ReprOf(b) && Good(b[j].Sum()) && b[j].Sum().out == {}
    {
      assert b[j] == c[|a| + j];
    }
    forall i, j | 0 <= i < |a| && 0 <= j < |b| ensures a[i].repr !! b[j].repr {
      assert a[i] == c[i] && b[j] == c[|a| + j];
    }
    forall i, j | 0 <= i < j < |a| ensures a[i].repr !! a[j].repr { assert a[i] == c[i] && a[j] == c[j]; }
    forall i, j | 0 <= i < j < |b| ensures b[i].repr !! b[j].repr { assert b[i] == c[|a| + i] && b[j] == c[|a| + j]; }
  }

  lemma ForestCons<T(!new)>(x: Iter<T>, b: seq<Iter<T>>)
    requires x.Shape() && Good(x.Sum()) && x.Sum().out == {} && Forest(b)
    requires forall n :: n in x.repr ==> n !in ReprOf(b)
    ensures Forest([x] + b)
  {
    hide Good, Iter.Shape, Iter.Sum, Combine;
    var c := [x] + b;
    forall i | 0 <= i < |c|
      ensures c[i].Shape() && c[i].repr <= ReprOf(c) && Good(c[i].Sum()) && c[i].Sum().out == {}
    {
      if i > 0 { assert c[i] == b[i - 1]; }
    }
    forall i, j | 0 <= i < j < |c| ensures c[i].repr !! c[j].repr {
      assert c[j] == b[j - 1];
      if i > 0 { assert c[i] == b[i - 1]; }
    }
  }

  /** Positive requirements, among them a Union for each group of alternatives, and negative ones. */
  method ActorRequirements<T(==, !new)>(positive: seq<Iter<T>>, negative: seq<Iter<T>>) returns (root: Iter<T>)
    requires positive != [] && Forest(positive + negative)
    ensures Forest(positive) && Forest(negative)
    ensures root.Shape() && !root.kind.ListOp? && Good(root.Sum()) && root.Sum().out == {}
    ensures root.Sum().den == Eligible(Summaries(positive), Summaries(negative))
    ensures root.Sum().closed <==> AllClosed(Summaries(positive)) && AllClosed(Summaries(negative))
  {
    hide Forest, Good, ReprOf, Iter.Shape, Combine, IntersectionOf, UnionOf, Dens;
    ForestParts(positive, negative);
    ReprAllocated(positive);
    ReprAllocated(negative);
    ShapesOf(positive);
    ShapesOf(negative);
    ghost var ps, ns := Summaries(positive), Summaries(negative);
    root := new Iter.Intersection(positive);
    InterDen(root.State(), ps);
    if negative != [] {
      var both := root;
      ForestCons(both, negative);
      root := new Iter.Difference(both, negative);
      ghost var kids := root.Kids();
      assert kids == [both.Sum()] + ns;
      DiffDen(root.State(), both.Sum(), ns);
    } else {
      assert ns == [];
    }
  }

  lemma ShapesOf<T(!new)>(operands: seq<Iter<T>>)
    requires Forest(operands)
    ensures forall i :: 0 <= i < |operands| ==> operands[i].Shape()
  {
  }

  lemma InterDen<T(!new)>(f: Fields<T>, kids: seq<Summary<T>>)
    requires kids != []
    ensures Combine(IntersectionOp, f, kids).den == IntersectionOf(Dens(kids))
    ensures Combine(IntersectionOp, f, kids).closed == AllClosed(kids)
    ensures IntersectionOf(Dens(kids)) - UnionOf(Dens<T>([])) == IntersectionOf(Dens(kids))
  {
  }

  lemma DiffDen<T(!new)>(f: Fields<T>, first: Summary<T>, rest: seq<Summary<T>>)
    ensures Combine(DifferenceOp, f, [first] + rest).den == first.den - UnionOf(Dens(rest))
    ensures Combine(DifferenceOp, f, [first] + rest).closed == (first.closed && AllClosed(rest))
  {
    hide UnionOf, Dens, Good, OwnInv, Delivered, Ended;
    var kids := [first] + rest;
    assert kids[1..] == rest;
    ClosedCons(first, rest);
  }

  lemma ClosedCons<T(!new)>(first: Summary<T>, rest: seq<Summary<T>>)
    ensures AllClosed([first] + rest) <==> first.closed && AllClosed(rest)
  {
    var kids := [first] + rest;
    assert kids[0] == first;
    assert forall i :: 0 <= i < |rest| ==> rest[i] == kids[i + 1];
    assert forall i :: 1 <= i < |kids| ==> kids[i] == rest[i - 1];
  }
}
