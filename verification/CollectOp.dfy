/** Collect.op: one pass over the collected iterators, which drops those that ended from the very list
    it is walking (dynops.py:554-577). */
module CollectOp {
  import opened SetOps

  /** What a pass comes to when the iterators, in the order walked, would answer like this: after a
      removal the walk steps over the iterator that moved up. */
  function Scan<T>(answers: seq<Outcome<T>>): Outcome<T> {
    if answers == [] then Pause
    else match answers[0]
      case Yield(e) => Yield(e)
      case Pause => Scan(answers[1..])
      case Stop => if |answers| == 1 then Pause else Scan(answers[2..])
  }

  /** How many of them a pass drops. */
  function Drops<T>(answers: seq<Outcome<T>>): nat {
    if answers == [] || answers[0].Yield? then 0
    else if answers[0].Pause? then Drops(answers[1..])
    else 1 + if |answers| == 1 then 0 else Drops(answers[2..])
  }

  // ------------------------------------------------------------ which iterators are asked

  /** The k-th iterator is asked: the first one is; so is the next after one that pauses, and the next but
      one after one that ends. */
  predicate WasAsked<T>(answers: seq<Outcome<T>>, k: nat)
    requires k <= |answers|
  {
    || k == 0
    || (k >= 1 && answers[k - 1].Pause? && WasAsked(answers, k - 1))
    || (k >= 2 && answers[k - 2].Stop? && WasAsked(answers, k - 2))
  }

  /** Asked and ended. */
  predicate Gone<T>(answers: seq<Outcome<T>>, k: nat)
    requires k < |answers|
  {
    answers[k].Stop? && WasAsked(answers, k)
  }

  lemma {:induction false} AskedOn<T>(answers: seq<Outcome<T>>, k: nat)
    requires 1 <= k <= |answers|
    ensures answers[0].Pause? ==> WasAsked(answers, k) == WasAsked(answers[1..], k - 1)
    ensures answers[0].Stop? && k >= 2 ==> WasAsked(answers, k) == WasAsked(answers[2..], k - 2)
    ensures answers[0].Yield? || (answers[0].Stop? && k == 1) ==> !WasAsked(answers, k)
    decreases k
  {
    if k >= 2 { AskedOn(answers, k - 1); }
    if k >= 3 { AskedOn(answers, k - 2); }
    var rest := answers[1..];
    assert forall i :: 0 <= i < |rest| ==> rest[i] == answers[i + 1];
    if |answers| >= 2 { assert forall i :: 0 <= i < |answers[2..]| ==> answers[2..][i] == answers[i + 2]; }
  }

  /** Whatever pauses and ends, a pass comes to an element exactly if it is the answer of an iterator that is
      asked. */
  lemma {:induction false} YieldsIff<T>(answers: seq<Outcome<T>>, e: T)
    ensures Scan(answers) == Yield(e) <==>
              exists k :: 0 <= k < |answers| && WasAsked(answers, k) && answers[k] == Yield(e)
    decreases |answers|
  {
    if answers != [] {
      hide WasAsked;
      AskedFirst(answers);
      forall k: nat | 1 <= k < |answers|
        ensures answers[0].Pause? ==> WasAsked(answers, k) == WasAsked(answers[1..], k - 1)
        ensures answers[0].Stop? && k >= 2 ==> WasAsked(answers, k) == WasAsked(answers[2..], k - 2)
        ensures answers[0].Yield? || (answers[0].Stop? && k == 1) ==> !WasAsked(answers, k)
      {
        AskedOn(answers, k);
      }
      if answers[0].Pause? {
        YieldsIff(answers[1..], e);
        YieldShifts(answers, 1, e);
      } else if answers[0].Stop? && |answers| > 1 {
        YieldsIff(answers[2..], e);
        YieldShifts(answers, 2, e);
      }
    }
  }

  lemma AskedFirst<T>(answers: seq<Outcome<T>>)
    ensures WasAsked(answers, 0)
  {
  }

  ghost predicate Finds<T>(answers: seq<Outcome<T>>, e: T) {
    exists k :: 0 <= k < |answers| && WasAsked(answers, k) && answers[k] == Yield(e)
  }

  lemma YieldShifts<T>(answers: seq<Outcome<T>>, d: nat, e: T)
    requires 1 <= d <= |answers| && !answers[0].Yield?
    requires forall k: nat :: 1 <= k < d ==> !WasAsked(answers, k)
    requires forall k: nat :: d <= k < |answers| ==> WasAsked(answers, k) == WasAsked(answers[d..], k - d)
    ensures Finds(answers, e) <==> Finds(answers[d..], e)
  {
    hide WasAsked;
    var rest := answers[d..];
    if Finds(answers, e) {
      var k :| 0 <= k < |answers| && WasAsked(answers, k) && answers[k] == Yield(e);
      assert rest[k - d] == answers[k] && WasAsked(rest, k - d);
    }
    if Finds(rest, e) {
      var k :| 0 <= k < |rest| && WasAsked(rest, k) && rest[k] == Yield(e);
      assert answers[k + d] == rest[k] && WasAsked(answers, k + d);
    }
  }

  /** Where nothing ends, the iterators are asked in order up to the first that has an element: the pass
      pauses if and only if all of them pause. */
  lemma {:induction false} WithoutStops<T>(answers: seq<Outcome<T>>, k: nat)
    requires k < |answers| && forall j :: 0 <= j < |answers| ==> !answers[j].Stop?
    ensures WasAsked(answers, k) <==> forall j :: 0 <= j < k ==> answers[j].Pause?
    decreases k
  {
    if k > 0 { WithoutStops(answers, k - 1); }
  }

  lemma {:induction false} AllPauseIff<T>(answers: seq<Outcome<T>>)
    requires forall j :: 0 <= j < |answers| ==> !answers[j].Stop?
    ensures Scan(answers).Pause? <==> forall j :: 0 <= j < |answers| ==> answers[j].Pause?
    ensures Scan(answers).Yield? ==>
              exists k :: 0 <= k < |answers| && answers[k] == Scan(answers)
                          && forall j :: 0 <= j < k ==> answers[j].Pause?
    ensures !Scan(answers).Stop?
    decreases |answers|
  {
    if answers != [] && answers[0].Pause? {
      var rest := answers[1..];
      AllPauseIff(rest);
      assert forall j :: 0 <= j < |rest| ==> rest[j] == answers[j + 1];
      assert forall j :: 1 <= j < |answers| ==> answers[j] == rest[j - 1];
      if Scan(rest).Yield? {
        var k :| 0 <= k < |rest| && rest[k] == Scan(rest) && forall j :: 0 <= j < k ==> rest[j].Pause?;
        assert answers[k + 1] == Scan(answers);
      }
    }
  }

  // ------------------------------------------------------------ the loop

  function Asked<T>(iters: seq<nat>, answers: seq<Outcome<T>>): (r: seq<Outcome<T>>)
    requires forall k :: 0 <= k < |iters| ==> iters[k] < |answers|
    ensures |r| == |iters| && forall k :: 0 <= k < |iters| ==> r[k] == answers[iters[k]]
  {
    seq(|iters|, k requires 0 <= k < |iters| => answers[iters[k]])
  }

  /** Those of the first k iterators that are not gone, in their order. */
  function Staying<T>(iters: seq<nat>, all: seq<Outcome<T>>, k: nat): seq<nat>
    requires k <= |iters| == |all|
  {
    if k == 0 then [] else Staying(iters, all, k - 1) + if Gone(all, k - 1) then [] else [iters[k - 1]]
  }

  /** The one behind an iterator that ended moves up and is stepped over. */
  lemma {:induction false} StopSkips<T>(all: seq<Outcome<T>>, k: nat)
    requires k < |all| && WasAsked(all, k) && all[k].Stop?
    ensures !WasAsked(all, k + 1)
    decreases k
  {
    if k > 0 && all[k - 1].Stop? && WasAsked(all, k - 1) { StopSkips(all, k - 1); }
  }

  /** Behind an element nothing is asked. */
  lemma {:induction false} YieldEnds<T>(all: seq<Outcome<T>>, k: nat, m: nat)
    requires k < m <= |all| && WasAsked(all, k) && all[k].Yield?
    ensures !WasAsked(all, m)
    decreases m
  {
    if m - 1 > k { YieldEnds(all, k, m - 1); }
    if m >= 2 && m - 2 > k { YieldEnds(all, k, m - 2); }
    if m >= 2 && m - 2 < k && all[m - 2].Stop? && WasAsked(all, m - 2) { StopSkips(all, m - 2); }
  }

  lemma {:induction false} RestStays<T>(iters: seq<nat>, all: seq<Outcome<T>>, k: nat, m: nat)
    requires k <= m <= |iters| == |all| && forall j :: k <= j < m ==> !Gone(all, j)
    ensures Staying(iters, all, m) == Staying(iters, all, k) + iters[k..m]
    decreases m
  {
    if m > k {
      RestStays(iters, all, k, m - 1);
      assert iters[k..m] == iters[k..m - 1] + [iters[m - 1]];
    } else {
      assert iters[k..m] == [];
    }
  }

  /** iters holds the iterators' numbers; answers[n] is what iterator n answers when asked. Left in the list
      are, in their order, all but those that were asked and ended. */
  method Pass<T>(iters: seq<nat>, answers: seq<Outcome<T>>) returns (r: Outcome<T>, left: seq<nat>)
    requires forall k :: 0 <= k < |iters| ==> iters[k] < |answers|
    ensures r == Scan(Asked(iters, answers))
    ensures left == Staying(iters, Asked(iters, answers), |iters|)
    ensures |left| == |iters| - Drops(Asked(iters, answers))
  {
    hide *;
    left := iters;
    var p := 0;
    ghost var all := Asked(iters, answers);
    ghost var at: nat := 0;
    StartsAsked(iters, all);
    while p < |left|
      invariant Walking(iters, all, left, at, p)
      decreases |left| - p
    {
      WalkingAt(iters, all, left, at, p);
      match answers[left[p]] {
        case Yield(e) =>
          WalkFinds(iters, all, left, at, p);
          return Yield(e), left;
        case Pause =>
          WalkPauses(iters, all, left, at, p);
          at := at + 1;
        case Stop =>
          WalkStops(iters, all, left, at, p);
          left := left[..p] + left[p + 1..];
          at := if at + 2 <= |iters| then at + 2 else |iters|;
      }
      p := p + 1;
    }
    WalkEnds(iters, all, left, at, p);
    r := Pause;
  }

  /** Before position p are the iterators kept so far; the others start with the one to be asked, number at. */
  ghost predicate Walking<T>(iters: seq<nat>, all: seq<Outcome<T>>, left: seq<nat>, at: nat, p: nat) {
    && at <= |iters| == |all| && |Staying(iters, all, at)| <= p
    && left == Staying(iters, all, at) + iters[at..]
    && (at < |iters| ==> p == |Staying(iters, all, at)| && WasAsked(all, at))
    && (forall k: nat :: k < at && WasAsked(all, k) ==> !all[k].Yield?)
  }

  lemma WalkingAt<T>(iters: seq<nat>, all: seq<Outcome<T>>, left: seq<nat>, at: nat, p: nat)
    requires Walking(iters, all, left, at, p) && p < |left|
    ensures at < |iters| == |all| && left[p] == iters[at]
  {
  }

  lemma WalkFinds<T>(iters: seq<nat>, all: seq<Outcome<T>>, left: seq<nat>, at: nat, p: nat)
    requires Walking(iters, all, left, at, p) && at < |all| && all[at].Yield?
    ensures Scan(all) == all[at] && left == Staying(iters, all, |iters|) && |left| == |iters| - Drops(all)
  {
    hide Staying, Scan, Drops, Gone;
    AllElseStays(iters, all, at);
    YieldsIff(all, all[at].value);
    DropsCounts(iters, all);
  }

  lemma WalkPauses<T>(iters: seq<nat>, all: seq<Outcome<T>>, left: seq<nat>, at: nat, p: nat)
    requires Walking(iters, all, left, at, p) && at < |all| && all[at].Pause?
    ensures Walking(iters, all, left, at + 1, p + 1)
  {
    hide WasAsked, Gone, Staying;
    StayingNext(iters, all, at);
    MovesOver(left, Staying(iters, all, at), iters, at);
  }

  lemma WalkStops<T>(iters: seq<nat>, all: seq<Outcome<T>>, left: seq<nat>, at: nat, p: nat)
    requires Walking(iters, all, left, at, p) && at < |all| && all[at].Stop?
    ensures p < |left|
    ensures Walking(iters, all, left[..p] + left[p + 1..], if at + 2 <= |iters| then at + 2 else |iters|, p + 1)
  {
    hide WasAsked, Gone, Staying;
    var kept := Staying(iters, all, at);
    StayingNext(iters, all, at);
    MovesOver(left, kept, iters, at);
    if at + 1 < |iters| {
      StayingNext(iters, all, at + 1);
      MovesOver(kept + iters[at + 1..], kept, iters, at + 1);
    }
  }

  lemma WalkEnds<T>(iters: seq<nat>, all: seq<Outcome<T>>, left: seq<nat>, at: nat, p: nat)
    requires Walking(iters, all, left, at, p) && p >= |left|
    ensures Scan(all) == Pause && left == Staying(iters, all, |iters|) && |left| == |iters| - Drops(all)
  {
    hide WasAsked, Gone, Staying, Scan, Drops;
    assert iters[at..] == [];
    NothingFound(all);
    DropsCounts(iters, all);
  }

  /** The place the walk is at, and the list with the iterator there passed or removed. */
  lemma MovesOver(left: seq<nat>, kept: seq<nat>, iters: seq<nat>, at: nat)
    requires at < |iters| && left == kept + iters[at..]
    ensures |kept| < |left| && left[|kept|] == iters[at] && left == kept + [iters[at]] + iters[at + 1..]
    ensures left[..|kept|] + left[|kept| + 1..] == kept + iters[at + 1..]
  {
  }

  /** Where no iterator that is asked has an element the pass pauses. */
  lemma NothingFound<T>(all: seq<Outcome<T>>)
    requires forall k: nat :: k < |all| && WasAsked(all, k) ==> !all[k].Yield?
    ensures Scan(all) == Pause
  {
    hide WasAsked;
    ScanNeverStops(all);
    if Scan(all).Yield? { YieldsIff(all, Scan(all).value); }
  }

  lemma {:induction false} ScanNeverStops<T>(all: seq<Outcome<T>>)
    ensures !Scan(all).Stop?
    decreases |all|
  {
    if all != [] && all[0].Pause? { ScanNeverStops(all[1..]); }
    if |all| > 1 && all[0].Stop? { ScanNeverStops(all[2..]); }
  }

  function GoneUpTo<T>(all: seq<Outcome<T>>, k: nat): nat
    requires k <= |all|
  {
    if k == 0 then 0 else GoneUpTo(all, k - 1) + if Gone(all, k - 1) then 1 else 0
  }

  lemma {:induction false} GoneShifts<T>(all: seq<Outcome<T>>, d: nat, k: nat)
    requires 1 <= d <= k <= |all|
    requires forall m: nat :: d <= m < |all| ==> WasAsked(all, m) == WasAsked(all[d..], m - d)
    ensures GoneUpTo(all, k) == GoneUpTo(all, d) + GoneUpTo(all[d..], k - d)
    decreases k
  {
    hide WasAsked;
    if k > d { GoneShifts(all, d, k - 1); }
  }

  lemma {:induction false} NoneGone<T>(all: seq<Outcome<T>>, d: nat, k: nat)
    requires d <= k <= |all| && forall m: nat :: d <= m < |all| ==> !WasAsked(all, m)
    ensures GoneUpTo(all, k) == GoneUpTo(all, d)
    decreases k
  {
    hide WasAsked;
    if k > d { NoneGone(all, d, k - 1); }
  }

  lemma {:induction false} DropsGone<T>(all: seq<Outcome<T>>)
    ensures GoneUpTo(all, |all|) == Drops(all)
    decreases |all|
  {
    hide WasAsked;
    if all != [] {
      AskedFirst(all);
      forall k: nat | 1 <= k < |all|
        ensures all[0].Pause? ==> WasAsked(all, k) == WasAsked(all[1..], k - 1)
        ensures all[0].Stop? && k >= 2 ==> WasAsked(all, k) == WasAsked(all[2..], k - 2)
        ensures all[0].Yield? || (all[0].Stop? && k == 1) ==> !WasAsked(all, k)
      {
        AskedOn(all, k);
      }
      assert GoneUpTo(all, 1) == if all[0].Stop? then 1 else 0;
      if all[0].Pause? {
        GoneShifts(all, 1, |all|);
        DropsGone(all[1..]);
      } else if all[0].Yield? {
        NoneGone(all, 1, |all|);
      } else if |all| > 1 {
        assert GoneUpTo(all, 2) == 1;
        GoneShifts(all, 2, |all|);
        DropsGone(all[2..]);
      }
    }
  }

  lemma {:induction false} StayingSize<T>(iters: seq<nat>, all: seq<Outcome<T>>, k: nat)
    requires k <= |iters| == |all|
    ensures |Staying(iters, all, k)| == k - GoneUpTo(all, k)
    decreases k
  {
    if k > 0 { StayingSize(iters, all, k - 1); }
  }

  lemma DropsCounts<T>(iters: seq<nat>, all: seq<Outcome<T>>)
    requires |iters| == |all|
    ensures |Staying(iters, all, |iters|)| == |iters| - Drops(all)
  {
    StayingSize(iters, all, |iters|);
    DropsGone(all);
  }

  lemma StartsAsked<T>(iters: seq<nat>, all: seq<Outcome<T>>)
    requires |iters| == |all|
    ensures Walking(iters, all, iters, 0, 0)
  {
  }

  /** What one step of the walk does to the iterators kept so far. */
  lemma StayingNext<T>(iters: seq<nat>, all: seq<Outcome<T>>, at: nat)
    requires at < |iters| == |all|
    ensures Staying(iters, all, at + 1) == Staying(iters, all, at) + if Gone(all, at) then [] else [iters[at]]
    ensures iters[at..] == [iters[at]] + iters[at + 1..]
    ensures WasAsked(all, at) ==>
              && (Gone(all, at) <==> all[at].Stop?)
              && (all[at].Pause? ==> WasAsked(all, at + 1))
              && (all[at].Stop? ==>
                    !WasAsked(all, at + 1) && (at + 1 < |all| ==> !Gone(all, at + 1) && WasAsked(all, at + 2)))
  {
    if WasAsked(all, at) && all[at].Stop? { StopSkips(all, at); }
  }

  lemma AllElseStays<T>(iters: seq<nat>, all: seq<Outcome<T>>, at: nat)
    requires at < |iters| == |all| && WasAsked(all, at) && all[at].Yield?
    ensures Staying(iters, all, |iters|) == Staying(iters, all, at) + iters[at..]
  {
    hide WasAsked;
    forall j | at <= j < |iters| ensures !Gone(all, j) {
      if j > at { YieldEnds(all, at, j); }
    }
    RestStays(iters, all, at, |iters|);
    assert iters[at..|iters|] == iters[at..];
  }

  /** With every input final, a pass still pauses exactly when each second iterator, from the first
      on, has ended: those in between are not asked. */
  lemma {:induction false} PausesIff<T>(answers: seq<Outcome<T>>)
    requires forall k :: 0 <= k < |answers| ==> !answers[k].Pause?
    ensures Scan(answers).Pause? <==> forall k :: 0 <= k < |answers| && k % 2 == 0 ==> answers[k].Stop?
    decreases |answers|
  {
    if |answers| >= 2 {
      var rest := answers[2..];
      PausesIff(rest);
      assert forall k :: 0 <= k < |rest| ==> rest[k] == answers[k + 2];
      assert forall k :: 2 <= k < |answers| ==> answers[k] == rest[k - 2] && (k % 2 == 0 <==> (k - 2) % 2 == 0);
    }
  }

  /** Such a pause is not for long: the pass has dropped half of the iterators, rounded up. */
  lemma {:induction false} PauseDrops<T>(answers: seq<Outcome<T>>)
    requires forall k :: 0 <= k < |answers| ==> !answers[k].Pause?
    requires Scan(answers).Pause?
    ensures Drops(answers) == (|answers| + 1) / 2
    decreases |answers|
  {
    if |answers| >= 2 { PauseDrops(answers[2..]); }
  }

  /** A ready element behind an ended iterator: the pass pauses although nothing is awaited. */
  lemma PausesOverReady()
    ensures Scan([Stop, Yield(7)]) == Pause
  {
    assert [Stop, Yield(7)][2..] == [];
  }
}
