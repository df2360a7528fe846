/** Lazy set operators over growing lists: what one operator knows, as a function of its own fields and
    of what is known of its operands (dynops.py:101-319, 590-655). */
module SetOps {

  datatype Kind = ListOp | UnionOp | IntersectionOp | DifferenceOp

  /** What a call of next ends in: a value, or one of the two exceptions. */
  datatype Outcome<T> = Yield(value: T) | Pause | Stop

  /** An operator's own fields. A list uses the first three, the others the last four. */
  datatype Fields<T> = Fields(
    list: seq<T>, index: nat, closed: bool,
    out: set<T>, candidates: set<T>, drawn: seq<set<T>>, done: seq<bool>)

  /** What can be said of an operator: the elements it has delivered, the elements of the set
      expression it stands for, those among them that it can deliver before a list grows, whether it has
      nothing left, whether all lists below it are final, a bound on the calls still answered with a value,
      and whether its fields are consistent. */
  datatype Summary<T> = Summary(
    out: set<T>, den: set<T>, ready: set<T>, ended: bool, closed: bool, fuel: nat, valid: bool)

  function UnionOf<T(!new)>(ss: seq<set<T>>): (r: set<T>)
    ensures forall i :: 0 <= i < |ss| ==> ss[i] <= r
    ensures forall e :: e in r ==> exists i :: 0 <= i < |ss| && e in ss[i]
  {
    if ss == [] then {} else UnionOf(ss[..|ss| - 1]) + ss[|ss| - 1]
  }

  function IntersectionOf<T(!new)>(ss: seq<set<T>>): (r: set<T>)
    requires ss != []
    ensures forall e :: e in r <==> forall i :: 0 <= i < |ss| ==> e in ss[i]
  {
    set e | e in ss[0] && forall i :: 0 <= i < |ss| ==> e in ss[i]
  }

  function Outs<T(!new)>(kids: seq<Summary<T>>): (r: seq<set<T>>)
    ensures |r| == |kids| && forall i :: 0 <= i < |kids| ==> r[i] == kids[i].out
  {
    seq(|kids|, i requires 0 <= i < |kids| => kids[i].out)
  }

  function Dens<T(!new)>(kids: seq<Summary<T>>): (r: seq<set<T>>)
    ensures |r| == |kids| && forall i :: 0 <= i < |kids| ==> r[i] == kids[i].den
  {
    seq(|kids|, i requires 0 <= i < |kids| => kids[i].den)
  }

  function Readies<T(!new)>(kids: seq<Summary<T>>): (r: seq<set<T>>)
    ensures |r| == |kids| && forall i :: 0 <= i < |kids| ==> r[i] == kids[i].ready
  {
    seq(|kids|, i requires 0 <= i < |kids| => kids[i].ready)
  }

  predicate AllEnded<T(!new)>(kids: seq<Summary<T>>) { forall i :: 0 <= i < |kids| ==> kids[i].ended }

  predicate AllClosed<T(!new)>(kids: seq<Summary<T>>) { forall i :: 0 <= i < |kids| ==> kids[i].closed }

  /** Consistent; what is delivered was ready, what is ready belongs to the set, and is all of it once all lists
      are final; an operator that has ended delivered it all. */
  predicate Good<T(!new)>(s: Summary<T>) {
    && s.valid && s.out <= s.ready <= s.den
    && (s.closed ==> s.ready == s.den)
    && (s.ended ==> s.closed && s.out == s.den)
  }

  predicate AllGood<T(!new)>(kids: seq<Summary<T>>) { forall i :: 0 <= i < |kids| ==> Good(kids[i]) }

  /** Every operand from the k-th on is marked final. */
  predicate AllDone(done: seq<bool>, k: nat) { forall i :: k <= i < |done| ==> done[i] }

  function Fuel(kids: seq<nat>): nat {
    if kids == [] then 0 else Fuel(kids[..|kids| - 1]) + kids[|kids| - 1]
  }

  // ------------------------------------------------------------ the set expression

  /** The elements an operator stands for, its lists being what they are. */
  function Den<T(!new)>(kind: Kind, f: Fields<T>, kids: seq<Summary<T>>): set<T> {
    match kind
    case ListOp => set e | e in f.list
    case UnionOp => UnionOf(Dens(kids))
    case IntersectionOp => if kids == [] then {} else IntersectionOf(Dens(kids))
    case DifferenceOp => if kids == [] then {} else kids[0].den - UnionOf(Dens(kids[1..]))
  }

  // ------------------------------------------------------------ the operators' own state

  function Delivered<T(!new)>(kind: Kind, f: Fields<T>, kids: seq<Summary<T>>): set<T> {
    match kind
    case ListOp => if f.index <= |f.list| then set e | e in f.list[..f.index] else {}
    case UnionOp => f.out
    case IntersectionOp => f.out
    case DifferenceOp => if kids == [] then {} else f.out - Subtracted(kids)
  }

  /** A Difference delivers nothing before all it subtracts is known, and that takes all lists there to be final. */
  function Ready<T(!new)>(kind: Kind, f: Fields<T>, kids: seq<Summary<T>>): set<T> {
    match kind
    case ListOp => set e | e in f.list
    case UnionOp => UnionOf(Readies(kids))
    case IntersectionOp => if kids == [] then {} else IntersectionOf(Readies(kids))
    case DifferenceOp =>
      if kids == [] then {}
      else if AllClosed(kids[1..]) then kids[0].ready - UnionOf(Dens(kids[1..])) else Delivered(kind, f, kids)
  }

  function Ended<T(!new)>(kind: Kind, f: Fields<T>, kids: seq<Summary<T>>): bool {
    match kind
    case ListOp => f.closed && f.index == |f.list|
    case IntersectionOp => AllEnded(kids) && f.candidates == {}
    case _ => AllEnded(kids)
  }

  /** Union.set holds all that was drawn. */
  predicate UnionInv<T(!new)>(f: Fields<T>, kids: seq<Summary<T>>) { f.out == UnionOf(Outs(kids)) }

  /** Whatever every operand delivered is delivered or a candidate; the rest is in drawn. */
  predicate IntersectionInv<T(!new)>(f: Fields<T>, kids: seq<Summary<T>>) {
    && kids != [] && |f.drawn| == |kids| && |f.done| == |kids|
    && f.out !! f.candidates
    && IntersectionOf(Outs(kids)) == f.out + f.candidates
    && (forall i :: 0 <= i < |kids| ==> f.drawn[i] <= kids[i].out <= f.out + f.candidates + f.drawn[i])
    && (forall i :: 0 <= i < |kids| && f.done[i] ==> kids[i].ended)
  }

  /** Difference.remove holds what is subtracted and, once all of that is in, what was delivered. */
  predicate DifferenceInv<T(!new)>(f: Fields<T>, kids: seq<Summary<T>>) {
    && kids != [] && |f.done| == |kids|
    && (forall i :: 1 <= i < |kids| && f.done[i] ==> kids[i].ended)
    && (if AllDone(f.done, 1) then f.out == Subtracted(kids) + kids[0].out
        else f.out == Subtracted(kids) && kids[0].out == {})
  }

  predicate OwnInv<T(!new)>(kind: Kind, f: Fields<T>, kids: seq<Summary<T>>) {
    match kind
    case ListOp => kids == [] && f.index <= |f.list|
    case UnionOp => UnionInv(f, kids)
    case IntersectionOp => IntersectionInv(f, kids)
    case DifferenceOp => DifferenceInv(f, kids)
  }

  function Combine<T(!new)>(kind: Kind, f: Fields<T>, kids: seq<Summary<T>>): Summary<T> {
    var out, den := Delivered(kind, f, kids), Den(kind, f, kids);
    Summary(
      out, den, Ready(kind, f, kids), Ended(kind, f, kids),
      if kind.ListOp? then f.closed else AllClosed(kids),
      if !kind.ListOp? then |den - out| else if f.index <= |f.list| then |f.list| - f.index else 0,
      OwnInv(kind, f, kids) && AllGood(kids))
  }

  /** One call of next, as its caller sees it. A list may deliver an element twice. */
  predicate Answered<T(!new)>(kind: Kind, s: Summary<T>, r: Outcome<T>, s': Summary<T>) {
    && Good(s') && s'.den == s.den && s'.ready == s.ready && s'.closed == s.closed
    && (s.ended ==> r.Stop?)
    && match r
       case Yield(e) => s'.out == s.out + {e} && s'.fuel < s.fuel && (kind.ListOp? || e !in s.out)
       case Pause => s'.out == s.out == s.ready && s'.fuel == s.fuel && !s.closed
       case Stop => s'.out == s.out && s'.fuel == s.fuel && s'.ended
  }

  // ------------------------------------------------------------ what validity gives

  lemma UnionMonotone<T(!new)>(xs: seq<set<T>>, ys: seq<set<T>>)
    requires |xs| == |ys| && forall i :: 0 <= i < |xs| ==> xs[i] <= ys[i]
    ensures UnionOf(xs) <= UnionOf(ys)
  {
    forall e | e in UnionOf(xs) ensures e in UnionOf(ys) {
      var i :| 0 <= i < |xs| && e in xs[i];
      assert e in ys[i];
    }
  }

  lemma UnionEqual<T(!new)>(xs: seq<set<T>>, ys: seq<set<T>>)
    requires |xs| == |ys| && forall i :: 0 <= i < |xs| ==> xs[i] == ys[i]
    ensures xs == ys
  {
  }

  lemma UnionSound<T(!new)>(f: Fields<T>, kids: seq<Summary<T>>)
    requires UnionInv(f, kids) && AllGood(kids)
    ensures Good(Combine(UnionOp, f, kids))
  {
    hide UnionOf;
    UnionMonotone(Outs(kids), Readies(kids));
    UnionMonotone(Readies(kids), Dens(kids));
    if AllClosed(kids) { UnionEqual(Readies(kids), Dens(kids)); }
    if AllEnded(kids) { UnionEqual(Outs(kids), Dens(kids)); }
  }

  lemma IntersectionSound<T(!new)>(f: Fields<T>, kids: seq<Summary<T>>)
    requires IntersectionInv(f, kids) && AllGood(kids)
    ensures Good(Combine(IntersectionOp, f, kids))
  {
    IntersectionMonotone(Outs(kids), Readies(kids));
    IntersectionMonotone(Readies(kids), Dens(kids));
    hide IntersectionOf;
    if AllClosed(kids) { UnionEqual(Readies(kids), Dens(kids)); }
    if AllEnded(kids) { UnionEqual(Outs(kids), Dens(kids)); }
  }

  lemma IntersectionMonotone<T(!new)>(xs: seq<set<T>>, ys: seq<set<T>>)
    requires |xs| == |ys| && xs != [] && forall i :: 0 <= i < |xs| ==> xs[i] <= ys[i]
    ensures IntersectionOf(xs) <= IntersectionOf(ys)
  {
  }

  lemma DifferenceDelivers<T(!new)>(f: Fields<T>, kids: seq<Summary<T>>)
    requires DifferenceInv(f, kids) && AllGood(kids)
    ensures kids != []
    ensures AllDone(f.done, 1) ==>
              && AllClosed(kids[1..]) && Subtracted(kids) == UnionOf(Dens(kids[1..]))
              && Delivered(DifferenceOp, f, kids) == kids[0].out - Subtracted(kids)
    ensures !AllDone(f.done, 1) ==> Delivered(DifferenceOp, f, kids) == {} == kids[0].out
  {
    hide UnionOf, Dens, Outs;
    if AllDone(f.done, 1) { SubtractedClosed(f, kids); }
  }

  lemma ClosedTail<T(!new)>(kids: seq<Summary<T>>)
    requires kids != [] && AllGood(kids)
    ensures AllClosed(kids) <==> kids[0].closed && AllClosed(kids[1..])
    ensures AllEnded(kids) ==> AllClosed(kids) && kids[0].ended
    ensures Good(kids[0])
  {
    assert forall i :: 1 <= i < |kids| ==> kids[i] == kids[1..][i - 1];
  }

  lemma DifferenceSound<T(!new)>(f: Fields<T>, kids: seq<Summary<T>>)
    requires DifferenceInv(f, kids) && AllGood(kids)
    ensures Good(Combine(DifferenceOp, f, kids))
  {
    DifferenceDelivers(f, kids);
    ClosedTail(kids);
    hide UnionOf, Dens, Delivered, AllGood, AllClosed, AllEnded, Subtracted, DifferenceInv;
    DifferenceOwn(f, kids);
  }

  lemma DifferenceOwn<T(!new)>(f: Fields<T>, kids: seq<Summary<T>>)
    requires DifferenceInv(f, kids)
    ensures OwnInv(DifferenceOp, f, kids)
  {
  }

  /** Consistent fields and good operands make a good operator. */
  lemma CombineSound<T(!new)>(kind: Kind, f: Fields<T>, kids: seq<Summary<T>>)
    requires OwnInv(kind, f, kids) && AllGood(kids)
    ensures Good(Combine(kind, f, kids))
  {
    match kind
    case ListOp =>
      assert f.list[..|f.list|] == f.list;
    case UnionOp => UnionSound(f, kids);
    case IntersectionOp => IntersectionSound(f, kids);
    case DifferenceOp => DifferenceSound(f, kids);
  }

  // ------------------------------------------------------------ steps

  /** The operands after some of them were asked for more. */
  predicate Later<T(!new)>(kids: seq<Summary<T>>, kids': seq<Summary<T>>) {
    && |kids'| == |kids| && AllGood(kids')
    && forall i :: 0 <= i < |kids| ==>
         && kids'[i].den == kids[i].den && kids'[i].ready == kids[i].ready && kids'[i].closed == kids[i].closed
         && (kids[i].ended ==> kids'[i].ended)
  }

  lemma LaterSame<T(!new)>(kind: Kind, f: Fields<T>, f': Fields<T>, kids: seq<Summary<T>>, kids': seq<Summary<T>>)
    requires !kind.ListOp? && Later(kids, kids')
    ensures Den(kind, f', kids') == Den(kind, f, kids)
    ensures AllClosed(kids') == AllClosed(kids)
    ensures Readies(kids') == Readies(kids)
    ensures kids != [] ==> Dens(kids'[1..]) == Dens(kids[1..]) && (AllClosed(kids'[1..]) <==> AllClosed(kids[1..]))
    ensures kids != [] ==> kids'[0].ready == kids[0].ready
  {
    UnionEqual(Dens(kids), Dens(kids'));
    if kids != [] {
      UnionEqual(Dens(kids[1..]), Dens(kids'[1..]));
      assert forall i :: 0 <= i < |kids[1..]| ==> kids'[1..][i].closed == kids[1..][i].closed;
    }
  }

  lemma ReadySame<T(!new)>(kind: Kind, f: Fields<T>, f': Fields<T>, kids: seq<Summary<T>>, kids': seq<Summary<T>>)
    requires !kind.ListOp? && Later(kids, kids')
    requires kind.DifferenceOp? && kids != [] ==>
               AllClosed(kids[1..]) || Delivered(kind, f', kids') == Delivered(kind, f, kids)
    ensures Ready(kind, f', kids') == Ready(kind, f, kids)
  {
    hide Delivered, UnionOf, IntersectionOf, AllClosed;
    LaterSame(kind, f, f', kids, kids');
  }

  lemma SmallerLeft<T>(den: set<T>, out: set<T>, e: T)
    requires e in den && e !in out
    ensures |den - (out + {e})| < |den - out|
  {
    assert den - (out + {e}) == (den - out) - {e};
  }

  lemma AnswersYield<T(!new)>(kind: Kind, f: Fields<T>, kids: seq<Summary<T>>, e: T, f': Fields<T>, kids': seq<Summary<T>>)
    requires !kind.ListOp? && Later(kids, kids') && OwnInv(kind, f', kids') && !Ended(kind, f, kids)
    requires Delivered(kind, f', kids') == Delivered(kind, f, kids) + {e} && e !in Delivered(kind, f, kids)
    requires kind.DifferenceOp? ==> kids != [] && AllClosed(kids[1..])
    ensures Answered(kind, Combine(kind, f, kids), Yield(e), Combine(kind, f', kids'))
  {
    hide Delivered, Den, Ended, OwnInv, Ready;
    LaterSame(kind, f, f', kids, kids');
    ReadySame(kind, f, f', kids, kids');
    CombineSound(kind, f', kids');
    SmallerLeft(Den(kind, f, kids), Delivered(kind, f, kids), e);
  }

  lemma AnswersQuiet<T(!new)>(kind: Kind, f: Fields<T>, kids: seq<Summary<T>>, r: Outcome<T>, f': Fields<T>, kids': seq<Summary<T>>)
    requires !kind.ListOp? && Later(kids, kids') && OwnInv(kind, f', kids') && !r.Yield?
    requires Delivered(kind, f', kids') == Delivered(kind, f, kids)
    requires if r.Stop? then Ended(kind, f', kids')
             else !AllClosed(kids) && !Ended(kind, f, kids) && Delivered(kind, f', kids') == Ready(kind, f', kids')
    ensures Answered(kind, Combine(kind, f, kids), r, Combine(kind, f', kids'))
  {
    hide Delivered, Den, Ended, OwnInv, Ready;
    LaterSame(kind, f, f', kids, kids');
    ReadySame(kind, f, f', kids, kids');
    CombineSound(kind, f', kids');
  }

  lemma UnionUpdate<T(!new)>(ss: seq<set<T>>, i: nat, more: set<T>)
    requires i < |ss|
    ensures UnionOf(ss[i := ss[i] + more]) == UnionOf(ss) + more
  {
    var tt := ss[i := ss[i] + more];
    forall e | e in UnionOf(tt) ensures e in UnionOf(ss) + more {
      var j :| 0 <= j < |tt| && e in tt[j];
      if j != i { assert e in ss[j]; } else { assert ss[i] <= UnionOf(ss); }
    }
    forall e | e in UnionOf(ss) + more ensures e in UnionOf(tt) {
      if e in UnionOf(ss) {
        var j :| 0 <= j < |ss| && e in ss[j];
        assert e in tt[j];
      } else {
        assert e in tt[i];
      }
    }
  }

  // ---- intersection: one round over the operands

  /** Operand i was asked unless final; what it gave went to drawn, and its end was marked. */
  predicate Polled<T(!new)>(k: Summary<T>, d: set<T>, fin: bool, k': Summary<T>, d': set<T>, fin': bool) {
    && Good(k') && k'.den == k.den && k'.ready == k.ready && k'.closed == k.closed && (k.ended ==> k'.ended)
    && d <= d' <= d + k'.out && k.out <= k'.out <= k.out + d'
    && (fin' ==> k'.ended) && (fin ==> fin')
  }

  predicate Round<T(!new)>(f: Fields<T>, kids: seq<Summary<T>>, g: Fields<T>, kids': seq<Summary<T>>) {
    && kids != [] && |kids'| == |kids| == |f.drawn| == |f.done| == |g.drawn| == |g.done|
    && g.out == f.out && g.candidates == f.candidates
    && forall i :: 0 <= i < |kids| ==> Polled(kids[i], f.drawn[i], f.done[i], kids'[i], g.drawn[i], g.done[i])
  }

  function Without<T(!new)>(ss: seq<set<T>>, x: set<T>): (r: seq<set<T>>)
    ensures |r| == |ss| && forall i :: 0 <= i < |ss| ==> r[i] == ss[i] - x
  {
    seq(|ss|, i requires 0 <= i < |ss| => ss[i] - x)
  }

  /** What every operand has delivered by the end of a round is delivered already or a candidate. */
  lemma IntersectionRound<T(!new)>(f: Fields<T>, kids: seq<Summary<T>>, g: Fields<T>, kids': seq<Summary<T>>)
    requires IntersectionInv(f, kids) && f.candidates == {} && Round(f, kids, g, kids')
    ensures var found := IntersectionOf(g.drawn);
            IntersectionInv(g.(candidates := found - g.out, drawn := Without(g.drawn, found)), kids')
  {
    var found := IntersectionOf(g.drawn);
    var all := IntersectionOf(Outs(kids'));
    forall i | 0 <= i < |kids|
      ensures f.out <= kids'[i].out && g.drawn[i] <= kids'[i].out <= f.out + g.drawn[i]
    {
      assert Polled(kids[i], f.drawn[i], f.done[i], kids'[i], g.drawn[i], g.done[i]);
      assert IntersectionOf(Outs(kids)) <= kids[i].out;
    }
    assert all == f.out + found;
  }

  lemma NoMoreCandidates<T(!new)>(f: Fields<T>, kids: seq<Summary<T>>, g: Fields<T>, kids': seq<Summary<T>>)
    requires IntersectionInv(f, kids) && AllGood(kids) && Ended(IntersectionOp, f, kids)
    requires IntersectionInv(g, kids') && Later(kids, kids') && g.out == f.out
    ensures g.candidates == {}
  {
    UnionEqual(Outs(kids), Outs(kids'));
  }

  // ---- one operand asked

  function Fresh<T>(r: Outcome<T>): set<T> { if r.Yield? then {r.value} else {} }

  lemma OutGrows<T(!new)>(k: Kind, s: Summary<T>, r: Outcome<T>, s': Summary<T>)
    requires Answered(k, s, r, s')
    ensures s'.out == s.out + Fresh(r)
  {
    assert s.out + {} == s.out;
  }

  lemma LaterNext<T(!new)>(kids0: seq<Summary<T>>, kids: seq<Summary<T>>, i: nat, k: Kind, r: Outcome<T>, x: Summary<T>)
    requires Later(kids0, kids) && i < |kids| && Answered(k, kids[i], r, x)
    ensures Later(kids0, kids[i := x])
    ensures kids0[i].ended ==> r.Stop?
    ensures r.Pause? ==> !kids0[i].closed
    ensures Outs(kids[i := x]) == Outs(kids)[i := Outs(kids)[i] + Fresh(r)]
  {
    OutGrows(k, kids[i], r, x);
  }

  lemma LaterStart<T(!new)>(kids: seq<Summary<T>>)
    requires AllGood(kids)
    ensures Later(kids, kids)
  {
  }

  lemma LaterTrans<T(!new)>(a: seq<Summary<T>>, b: seq<Summary<T>>, c: seq<Summary<T>>)
    requires Later(a, b) && Later(b, c)
    ensures Later(a, c)
  {
  }

  lemma UnionDrawn<T(!new)>(f: Fields<T>, kids: seq<Summary<T>>, i: nat, k: Kind, r: Outcome<T>, x: Summary<T>)
    requires UnionInv(f, kids) && AllGood(kids) && i < |kids| && Answered(k, kids[i], r, x)
    ensures UnionInv(f.(out := f.out + Fresh(r)), kids[i := x])
  {
    LaterStart(kids);
    LaterNext(kids, kids, i, k, r, x);
    UnionUpdate(Outs(kids), i, Fresh(r));
  }

  /** Before the subtracted operands are all in, nothing of the first has been touched. */
  predicate Draining<T(!new)>(f: Fields<T>, kids: seq<Summary<T>>) {
    && kids != [] && |f.done| == |kids| && kids[0].out == {}
    && (forall i :: 1 <= i < |kids| && f.done[i] ==> kids[i].ended)
    && f.out == Subtracted(kids)
  }

  function Subtracted<T(!new)>(kids: seq<Summary<T>>): set<T>
    requires kids != []
  {
    UnionOf(Outs(kids[1..]))
  }

  lemma OutsTail<T(!new)>(kids: seq<Summary<T>>, i: nat, x: Summary<T>, more: set<T>)
    requires 1 <= i < |kids| && x.out == kids[i].out + more
    ensures Outs(kids[i := x][1..]) == Outs(kids[1..])[i - 1 := Outs(kids[1..])[i - 1] + more]
  {
    assert kids[i := x][1..] == kids[1..][i - 1 := x];
  }

  lemma UnionAt<T(!new)>(a: seq<set<T>>, b: seq<set<T>>, i: nat, more: set<T>)
    requires i < |a| && b == a[i := a[i] + more]
    ensures UnionOf(b) == UnionOf(a) + more
  {
    UnionUpdate(a, i, more);
  }

  lemma SubtractedNext<T(!new)>(kids: seq<Summary<T>>, i: nat, x: Summary<T>, more: set<T>)
    requires 1 <= i < |kids| && x.out == kids[i].out + more
    ensures Subtracted(kids[i := x]) == Subtracted(kids) + more
  {
    hide UnionOf, Outs;
    OutsTail(kids, i, x, more);
    UnionAt(Outs(kids[1..]), Outs(kids[i := x][1..]), i - 1, more);
  }

  lemma Drained<T(!new)>(f: Fields<T>, kids: seq<Summary<T>>, i: nat, k: Kind, r: Outcome<T>, x: Summary<T>)
    requires Draining(f, kids) && 1 <= i < |kids| && Answered(k, kids[i], r, x)
    ensures Draining(f.(out := f.out + Fresh(r),
                        done := if r.Stop? then f.done[i := true] else f.done), kids[i := x])
  {
    hide Subtracted;
    OutGrows(k, kids[i], r, x);
    SubtractedNext(kids, i, x, Fresh(r));
    StillEnded(k, kids[i], r, x);
  }

  lemma FuelSpent<T(!new)>(k: Kind, s: Summary<T>, r: Outcome<T>, s': Summary<T>)
    requires Answered(k, s, r, s') && r.Yield?
    ensures s'.fuel < s.fuel
  {
  }

  lemma StillEnded<T(!new)>(k: Kind, s: Summary<T>, r: Outcome<T>, s': Summary<T>)
    requires Answered(k, s, r, s')
    ensures s.ended || r.Stop? ==> s'.ended
  {
  }

  lemma Filtered<T(!new)>(f: Fields<T>, kids: seq<Summary<T>>, k: Kind, r: Outcome<T>, x: Summary<T>)
    requires DifferenceInv(f, kids) && AllDone(f.done, 1) && AllGood(kids) && Answered(k, kids[0], r, x)
    ensures var g := f.(out := f.out + Fresh(r));
            && DifferenceInv(g, kids[0 := x])
            && Delivered(DifferenceOp, g, kids[0 := x])
            == Delivered(DifferenceOp, f, kids) + (if r.Yield? && r.value !in f.out then {r.value} else {})
  {
    assert kids[0 := x][1..] == kids[1..];
  }

  // ---- nothing more to deliver for now

  predicate Caught<T(!new)>(s: Summary<T>) { s.out == s.ready }

  predicate AllCaught<T(!new)>(kids: seq<Summary<T>>) { forall i :: 0 <= i < |kids| ==> Caught(kids[i]) }

  lemma QuietCaught<T(!new)>(k: Kind, s: Summary<T>, r: Outcome<T>, s': Summary<T>)
    requires Answered(k, s, r, s') && !r.Yield?
    ensures Caught(s')
  {
  }

  lemma EndedCaught<T(!new)>(s: Summary<T>)
    requires Good(s) && s.ended
    ensures Caught(s) && s.closed
  {
  }

  lemma OutsReady<T(!new)>(kids: seq<Summary<T>>)
    requires AllCaught(kids)
    ensures Outs(kids) == Readies(kids)
  {
  }

  lemma UnionCaught<T(!new)>(f: Fields<T>, kids: seq<Summary<T>>)
    requires UnionInv(f, kids) && AllCaught(kids)
    ensures Delivered(UnionOp, f, kids) == Ready(UnionOp, f, kids)
  {
    OutsReady(kids);
  }

  lemma IntersectionCaught<T(!new)>(f: Fields<T>, kids: seq<Summary<T>>)
    requires IntersectionInv(f, kids) && f.candidates == {} && AllCaught(kids)
    ensures Delivered(IntersectionOp, f, kids) == Ready(IntersectionOp, f, kids)
  {
    OutsReady(kids);
  }

  lemma SubtractedClosed<T(!new)>(f: Fields<T>, kids: seq<Summary<T>>)
    requires DifferenceInv(f, kids) && AllDone(f.done, 1) && AllGood(kids)
    ensures AllClosed(kids[1..]) && Subtracted(kids) == UnionOf(Dens(kids[1..]))
  {
    forall i | 1 <= i < |kids| ensures kids[i].closed && kids[i].out == kids[i].den { EndedCaught(kids[i]); }
    UnionEqual(Outs(kids[1..]), Dens(kids[1..]));
  }

  lemma DifferenceCaught<T(!new)>(f: Fields<T>, kids: seq<Summary<T>>)
    requires DifferenceInv(f, kids) && AllDone(f.done, 1) && AllGood(kids) && Caught(kids[0])
    ensures Delivered(DifferenceOp, f, kids) == Ready(DifferenceOp, f, kids)
  {
    SubtractedClosed(f, kids);
  }

  /** While something subtracted is open the rest is not ready. */
  lemma OpenWaits<T(!new)>(f: Fields<T>, kids: seq<Summary<T>>, f': Fields<T>, kids': seq<Summary<T>>, i: nat)
    requires 1 <= i < |kids| && !kids[i].closed && Later(kids, kids')
    ensures Delivered(DifferenceOp, f', kids') == Ready(DifferenceOp, f', kids')
  {
    assert kids'[1..][i - 1] == kids'[i];
  }

  // ---- rounds end

  function Fuels<T(!new)>(kids: seq<Summary<T>>): (r: seq<nat>)
    ensures |r| == |kids| && forall i :: 0 <= i < |kids| ==> r[i] == kids[i].fuel
  {
    seq(|kids|, i requires 0 <= i < |kids| => kids[i].fuel)
  }

  lemma {:induction false} FuelDrops(a: seq<nat>, b: seq<nat>, w: nat)
    requires |a| == |b| && forall i :: 0 <= i < |a| ==> b[i] <= a[i]
    ensures Fuel(b) <= Fuel(a)
    ensures w < |a| && b[w] < a[w] ==> Fuel(b) < Fuel(a)
    decreases |a|
  {
    if a != [] {
      FuelDrops(a[..|a| - 1], b[..|b| - 1], w);
    }
  }

  // ---- parts of the predicates, for the methods

  lemma GoodParts<T(!new)>(kind: Kind, f: Fields<T>, kids: seq<Summary<T>>)
    requires Good(Combine(kind, f, kids))
    ensures OwnInv(kind, f, kids) && AllGood(kids)
  {
  }

  lemma LaterGood<T(!new)>(kids0: seq<Summary<T>>, kids: seq<Summary<T>>)
    requires Later(kids0, kids)
    ensures |kids| == |kids0| && AllGood(kids)
  {
  }

  /** An operand that paused after some steps was open, and not at its end, before them. */
  lemma StillOpen<T(!new)>(kids0: seq<Summary<T>>, kids: seq<Summary<T>>, j: nat)
    requires Later(kids0, kids) && j < |kids| && !kids[j].closed && !kids[j].ended
    ensures !AllClosed(kids0) && !AllEnded(kids0) && !kids0[j].closed
  {
    assert !kids0[j].closed && !kids0[j].ended;
  }

  lemma IntersectionDone<T(!new)>(f: Fields<T>, kids: seq<Summary<T>>)
    requires IntersectionInv(f, kids) && AllDone(f.done, 0) && f.candidates == {}
    ensures Ended(IntersectionOp, f, kids)
  {
  }

  lemma PopKeeps<T(!new)>(f: Fields<T>, kids: seq<Summary<T>>, e: T)
    requires IntersectionInv(f, kids) && e in f.candidates
    ensures IntersectionInv(f.(candidates := f.candidates - {e}, out := f.out + {e}), kids)
  {
    assert f.out + {e} + (f.candidates - {e}) == f.out + f.candidates;
  }

  lemma PolledOnce<T(!new)>(kind: Kind, k: Summary<T>, d: set<T>, r: Outcome<T>, k': Summary<T>)
    requires Answered(kind, k, r, k') && d <= k.out
    ensures Polled(k, d, false, k', d + Fresh(r), r.Stop?)
    ensures k'.fuel <= k.fuel && (r.Yield? ==> k'.fuel < k.fuel)
    ensures r.Pause? ==> !k.closed && !k.ended
  {
    OutGrows(kind, k, r, k');
  }

  lemma PolledNot<T(!new)>(k: Summary<T>, d: set<T>)
    requires Good(k) && d <= k.out
    ensures Polled(k, d, false, k, d, false)
    ensures k.ended ==> Polled(k, d, true, k, d, true)
  {
  }

  predicate AllDrawn<T(!new)>(f: Fields<T>, kids: seq<Summary<T>>) {
    && kids != [] && |f.drawn| == |kids| == |f.done|
    && forall i :: 0 <= i < |kids| ==> f.drawn[i] <= kids[i].out && (f.done[i] ==> kids[i].ended)
  }

  lemma IntersectionDrawn<T(!new)>(f: Fields<T>, kids: seq<Summary<T>>)
    requires IntersectionInv(f, kids)
    ensures AllDrawn(f, kids)
  {
  }

  lemma RoundSizes<T(!new)>(f: Fields<T>, kids: seq<Summary<T>>, g: Fields<T>, kids': seq<Summary<T>>)
    requires Round(f, kids, g, kids')
    ensures |g.drawn| == |g.done| == |kids| && kids != [] && g.out == f.out
    ensures Later(kids, kids')
  {
  }

  lemma DifferenceSizes<T(!new)>(f: Fields<T>, kids: seq<Summary<T>>)
    requires DifferenceInv(f, kids)
    ensures kids != [] && |f.done| == |kids|
    ensures !AllDone(f.done, 1) ==> Draining(f, kids)
  {
  }

  lemma DrainingSizes<T(!new)>(f: Fields<T>, kids: seq<Summary<T>>)
    requires Draining(f, kids)
    ensures kids != [] && |f.done| == |kids|
  {
  }

  lemma DrainingDelivers<T(!new)>(f: Fields<T>, kids: seq<Summary<T>>)
    requires Draining(f, kids)
    ensures DifferenceInv(f, kids) && Delivered(DifferenceOp, f, kids) == {}
  {
  }

  lemma DifferenceDone<T(!new)>(f: Fields<T>, kids: seq<Summary<T>>)
    requires DifferenceInv(f, kids) && AllDone(f.done, 1) && kids[0].ended
    ensures Ended(DifferenceOp, f, kids)
  {
  }

  lemma NotDelivered<T(!new)>(f: Fields<T>, kids: seq<Summary<T>>, e: T)
    requires kids != [] && e !in f.out
    ensures e !in Delivered(DifferenceOp, f, kids)
  {
  }

  lemma PausedOpen<T(!new)>(k: Kind, s: Summary<T>, r: Outcome<T>, s': Summary<T>)
    requires Answered(k, s, r, s') && r.Pause?
    ensures !s.closed && !s.ended
  {
  }

  /** The first i operands of a round have been seen to. */
  predicate Progress<T(!new)>(f: Fields<T>, kids: seq<Summary<T>>, g: Fields<T>, kids': seq<Summary<T>>, i: nat) {
    && |kids'| == |kids| == |f.drawn| == |f.done| == |g.drawn| == |g.done| && i <= |kids|
    && g == f.(drawn := g.drawn, done := g.done)
    && (forall j :: 0 <= j < i ==> Polled(kids[j], f.drawn[j], f.done[j], kids'[j], g.drawn[j], g.done[j]))
    && (forall j :: 0 <= j < i ==> kids'[j].fuel <= kids[j].fuel)
    && (forall j :: i <= j < |kids| ==> kids'[j] == kids[j] && g.drawn[j] == f.drawn[j] && g.done[j] == f.done[j])
  }

  lemma ProgressNext<T(!new)>(f: Fields<T>, kids: seq<Summary<T>>, g: Fields<T>, kids': seq<Summary<T>>, i: nat,
                              x: Summary<T>, d: set<T>, fin: bool)
    requires i < |kids| && Progress(f, kids, g, kids', i)
    requires Polled(kids[i], f.drawn[i], f.done[i], x, d, fin) && x.fuel <= kids[i].fuel
    ensures Progress(f, kids, g.(drawn := g.drawn[i := d], done := g.done[i := fin]), kids'[i := x], i + 1)
  {
    hide Polled;
  }

  lemma ProgressAt<T(!new)>(f: Fields<T>, kids: seq<Summary<T>>, g: Fields<T>, kids': seq<Summary<T>>, i: nat)
    requires Progress(f, kids, g, kids', i)
    ensures |kids'| == |kids| == |f.drawn| == |f.done| == |g.drawn| == |g.done|
    ensures i < |kids| ==> kids'[i] == kids[i] && g.drawn[i] == f.drawn[i] && g.done[i] == f.done[i]
    ensures i == |kids| ==> forall j :: 0 <= j < |kids| ==> kids'[j].fuel <= kids[j].fuel
    ensures i == |kids| && kids != [] ==> Round(f, kids, g, kids')
  {
    hide Polled;
  }

  lemma DrawnAt<T(!new)>(f: Fields<T>, kids: seq<Summary<T>>, i: nat)
    requires AllDrawn(f, kids) && i < |kids|
    ensures |f.drawn| == |kids| == |f.done| && f.drawn[i] <= kids[i].out && (f.done[i] ==> kids[i].ended)
  {
  }

  lemma ProgressStart<T(!new)>(f: Fields<T>, kids: seq<Summary<T>>)
    requires AllDrawn(f, kids)
    ensures Progress(f, kids, f, kids, 0) && kids != [] && |f.drawn| == |kids| == |f.done|
  {
  }

  // ------------------------------------------------------------ lists grow between calls

  /** What an append, an extend or a final on some list may change for an operator above it. */
  predicate Grown<T(!new)>(s: Summary<T>, s': Summary<T>) {
    && Good(s') && s'.out == s.out
    && (s.ended ==> s'.ended && s'.den == s.den)
    && (s.closed ==> s'.closed && s'.den == s.den)
  }

  predicate AllGrown<T(!new)>(kids: seq<Summary<T>>, kids': seq<Summary<T>>) {
    |kids'| == |kids| && forall i :: 0 <= i < |kids| ==> Grown(kids[i], kids'[i])
  }

  /** No operator relies on a list staying as it is: only on what was delivered and on what has ended. */
  lemma GrownAbove<T(!new)>(kind: Kind, f: Fields<T>, kids: seq<Summary<T>>, kids': seq<Summary<T>>)
    requires !kind.ListOp? && Good(Combine(kind, f, kids)) && AllGrown(kids, kids')
    ensures Grown(Combine(kind, f, kids), Combine(kind, f, kids'))
  {
    hide Good, IntersectionOf;
    GoodParts(kind, f, kids);
    SameOuts(kids, kids');
    GrownParts(kids, kids');
    GrownKeepsInv(kind, f, kids, kids');
    CombineSound(kind, f, kids');
    if AllEnded(kids) || AllClosed(kids) { SameDens(kids, kids'); }
  }

  lemma GrownKeepsInv<T(!new)>(kind: Kind, f: Fields<T>, kids: seq<Summary<T>>, kids': seq<Summary<T>>)
    requires !kind.ListOp? && OwnInv(kind, f, kids) && AllGrown(kids, kids')
    ensures OwnInv(kind, f, kids')
  {
    hide Good, IntersectionOf, UnionOf;
    SameOuts(kids, kids');
    assert forall i :: 0 <= i < |kids| ==> Grown(kids[i], kids'[i]);
  }

  lemma SameOuts<T(!new)>(kids: seq<Summary<T>>, kids': seq<Summary<T>>)
    requires AllGrown(kids, kids')
    ensures Outs(kids') == Outs(kids)
    ensures kids != [] ==> Outs(kids'[1..]) == Outs(kids[1..])
  {
  }

  lemma SameDens<T(!new)>(kids: seq<Summary<T>>, kids': seq<Summary<T>>)
    requires AllGrown(kids, kids') && (AllEnded(kids) || AllClosed(kids))
    ensures Dens(kids') == Dens(kids)
    ensures kids != [] ==> Dens(kids'[1..]) == Dens(kids[1..])
  {
  }

  lemma GrownParts<T(!new)>(kids: seq<Summary<T>>, kids': seq<Summary<T>>)
    requires AllGrown(kids, kids')
    ensures AllGood(kids')
    ensures AllEnded(kids) ==> AllEnded(kids')
    ensures AllClosed(kids) ==> AllClosed(kids')
  {
  }

  lemma GrownList<T(!new)>(f: Fields<T>, f': Fields<T>)
    requires Good(Combine(ListOp, f, [])) && f' == f.(list := f'.list, closed := f'.closed)
    requires f.list <= f'.list
    requires f.closed ==> f'.closed && f'.list == f.list
    ensures Grown(Combine(ListOp, f, []), Combine(ListOp, f', []))
  {
    assert f'.list[..f.index] == f.list[..f.index];
  }

  lemma GrownNothing<T(!new)>(kind: Kind, f: Fields<T>, kids: seq<Summary<T>>)
    requires Good(Combine(kind, f, kids))
    ensures Grown(Combine(kind, f, kids), Combine(kind, f, kids))
  {
  }

  /** A new operator over operands nothing was drawn from. */
  lemma StartGood<T(!new)>(kind: Kind, f: Fields<T>, kids: seq<Summary<T>>)
    requires !kind.ListOp? && AllGood(kids) && forall i :: 0 <= i < |kids| ==> kids[i].out == {}
    requires f.out == {} && f.candidates == {}
    requires !kind.UnionOp? ==> kids != [] && |f.done| == |kids| && forall i :: 0 <= i < |kids| ==> !f.done[i]
    requires kind.IntersectionOp? ==> |f.drawn| == |kids| && forall i :: 0 <= i < |kids| ==> f.drawn[i] == {}
    ensures Good(Combine(kind, f, kids)) && Combine(kind, f, kids).out == {}
  {
    assert UnionOf(Outs(kids)) == {};
    if kids != [] {
      assert Outs(kids)[0] == {};
      assert IntersectionOf(Outs(kids)) == {};
      assert Subtracted(kids) == {};
    }
    CombineSound(kind, f, kids);
  }
}
