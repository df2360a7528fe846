/** What each operation of the circular multi-reader FIFO (fifo.py) does to the FIFO's
    fields, as functions on values, and the unbounded broadcast stream it implements. */
module FifoSpec {
  import opened Wrappers
  import opened Tokens

  type PortId = string

  /** The fields of a FIFO. Positions only ever grow; the modulo is taken at slot access. */
  datatype FifoState = FifoState(
    slots: seq<Token>,
    n: nat,
    readers: set<PortId>,
    wpos: nat,
    rpos: map<PortId, nat>,
    tpos: map<PortId, nat>)
  {
    predicate WellFormed() {
      && n > 0 && |slots| == n
      && rpos.Keys == readers && tpos.Keys == readers
    }
  }

  ghost function MinOf(values: set<nat>): (m: nat)
    requires values != {}
    ensures m in values
    ensures forall v :: v in values ==> m <= v
  {
    var v :| v in values;
    if values == {v} then v
    else
      assert values == {v} + (values - {v});
      var rest := MinOf(values - {v});
      if v <= rest then v else rest
  }

  /** The slowest committed position: min(read_pos.values() or [0]). */
  ghost function Slowest(rpos: map<PortId, nat>): (m: nat)
    ensures forall p :: p in rpos ==> m <= rpos[p]
    ensures rpos == map[] ==> m == 0
    ensures rpos != map[] ==> exists p :: p in rpos && rpos[p] == m
  {
    if rpos == map[] then 0
    else
      var p0 :| p0 in rpos;
      assert rpos[p0] in rpos.Values;
      var m := MinOf(rpos.Values);
      assert forall p :: p in rpos ==> rpos[p] in rpos.Values;
      m
  }

  // ---------------------------------------------------------------- operations

  ghost predicate CanWrite(f: FifoState)
    requires f.WellFormed()
  {
    !((f.wpos + 1) % f.n == Slowest(f.rpos) % f.n)
  }

  ghost function AvailableSlots(f: FifoState): int
    requires f.WellFormed()
  {
    f.n - ((f.wpos - Slowest(f.rpos)) % f.n) - 1
  }

  ghost function Write(f: FifoState, data: Token): FifoState
    requires f.WellFormed()
  {
    if !CanWrite(f) then f
    else f.(slots := f.slots[f.wpos % f.n := data], wpos := f.wpos + 1)
  }

  function AddReader(f: FifoState, reader: PortId): FifoState {
    if reader in f.readers then f
    else f.(readers := f.readers + {reader}, rpos := f.rpos[reader := 0], tpos := f.tpos[reader := 0])
  }

  function RemoveReader(f: FifoState, reader: PortId): FifoState {
    f.(readers := f.readers - {reader}, rpos := f.rpos - {reader}, tpos := f.tpos - {reader})
  }

  function AvailableTokens(f: FifoState, reader: PortId): int
    requires f.WellFormed() && reader in f.readers
  {
    f.wpos - f.tpos[reader]
  }

  predicate CanRead(f: FifoState, reader: PortId)
    requires f.WellFormed() && reader in f.readers
  {
    f.tpos[reader] != f.wpos
  }

  /** The token a tentative read returns, if there is one. */
  function Front(f: FifoState, reader: PortId): Option<Token>
    requires f.WellFormed() && reader in f.readers
  {
    if CanRead(f, reader) then Some(f.slots[f.tpos[reader] % f.n]) else None
  }

  function Read(f: FifoState, reader: PortId): FifoState
    requires f.WellFormed() && reader in f.readers
  {
    if CanRead(f, reader) then f.(tpos := f.tpos[reader := f.tpos[reader] + 1]) else f
  }

  function CommitReads(f: FifoState, reader: PortId, commit: bool): FifoState
    requires f.WellFormed() && reader in f.readers
  {
    if commit then f.(rpos := f.rpos[reader := f.tpos[reader]])
    else f.(tpos := f.tpos[reader := f.rpos[reader]])
  }

  function CommitOneRead(f: FifoState, reader: PortId, commit: bool): FifoState
    requires f.WellFormed() && reader in f.readers
  {
    if f.rpos[reader] < f.tpos[reader] then
      if commit then f.(rpos := f.rpos[reader := f.rpos[reader] + 1])
      else f.(tpos := f.tpos[reader := f.tpos[reader] - 1])
    else f
  }

  /** The serialized form, as `_state` produces and `_set_state` consumes it. */
  datatype FifoImage = FifoImage(
    fifo: seq<Coded>,
    n: nat,
    readers: seq<PortId>,
    wpos: nat,
    rpos: map<PortId, nat>,
    tpos: map<PortId, nat>)

  predicate ImageOf(image: FifoImage, f: FifoState) {
    && image.fifo == EncodeAll(f.slots)
    && image.n == f.n && image.wpos == f.wpos && image.rpos == f.rpos && image.tpos == f.tpos
    && (set r | r in image.readers) == f.readers
  }

  function Restore(image: FifoImage): FifoState {
    FifoState(DecodeAll(image.fifo), image.n, (set r | r in image.readers), image.wpos, image.rpos, image.tpos)
  }

  /** Serializing and rebuilding a FIFO on another runtime gives the same FIFO. */
  lemma RestoreImage(image: FifoImage, f: FifoState)
    requires ImageOf(image, f)
    ensures Restore(image) == f
  {
    DecodeEncodeAll(f.slots);
  }

  // ------------------------------------------------------- the stream implemented

  /** The slots hold the stretch [lo, wpos) of the stream `hist`. */
  ghost predicate Retains(slots: seq<Token>, n: nat, wpos: nat, hist: seq<Token>, lo: int) {
    && n > 0 && |slots| == n
    && wpos <= |hist| && wpos - lo <= n
    && forall i :: 0 <= i && lo <= i < wpos ==> slots[i % n] == hist[i]
  }

  /** The FIFO state implements the broadcast stream `hist`: everything written so far, with
      each reader somewhere in it and never more than n-1 tokens behind. */
  ghost predicate Implements(f: FifoState, hist: seq<Token>) {
    && f.WellFormed()
    && f.wpos == |hist|
    && Retains(f.slots, f.n, f.wpos, hist, f.wpos - f.n)
    && (forall p :: p in f.readers ==> f.rpos[p] <= f.tpos[p] <= f.wpos)
    && f.wpos - Slowest(f.rpos) < f.n
  }

  /** The plain facts in Implements. */
  lemma Positions(f: FifoState, hist: seq<Token>)
    requires Implements(f, hist)
    ensures f.WellFormed() && f.wpos == |hist|
    ensures forall p :: p in f.readers ==> f.rpos[p] <= f.tpos[p] <= f.wpos
  {
  }

  lemma ModNear(a: nat, b: nat, n: nat)
    requires n > 0 && 0 <= a - b <= n
    ensures a % n == b % n <==> a == b || a == b + n
  {
    if a % n == b % n {
      var q := a / n - b / n;
      assert a - b == n * q;
      assert q >= 2 ==> n * q >= n * 2;
      assert q < 0 ==> n * q + n <= 0;
    }
    if a == b + n {
      assert a == n * (b / n + 1) + b % n;
      DivModUnique(a, b / n + 1, b % n, n);
    }
  }

  lemma DivModUnique(a: int, q: int, r: int, n: int)
    requires n > 0 && a == n * q + r && 0 <= r < n
    ensures a % n == r && a / n == q
  {
    var d := a / n - q;
    assert n * d == r - a % n;
    assert d >= 1 ==> n * d >= n;
    assert d <= -1 ==> n * d + n <= 0;
  }

  lemma ModSmall(a: nat, n: nat)
    requires n > 0 && a < n
    ensures a % n == a
  {
  }

  /** The modular tests agree with the distance to the slowest reader. */
  lemma SpaceIsExact(f: FifoState, hist: seq<Token>)
    requires Implements(f, hist)
    ensures CanWrite(f) <==> f.wpos - Slowest(f.rpos) < f.n - 1
    ensures AvailableSlots(f) == f.n - 1 - (f.wpos - Slowest(f.rpos))
    ensures CanWrite(f) <==> AvailableSlots(f) > 0
  {
    var m := Slowest(f.rpos);
    SlowestBelow(f, hist);
    ModNear(f.wpos + 1, m, f.n);
    ModSmall(f.wpos - m, f.n);
  }

  lemma SlowestBelow(f: FifoState, hist: seq<Token>)
    requires Implements(f, hist)
    ensures Slowest(f.rpos) <= f.wpos
  {
    if f.rpos != map[] {
      var p :| p in f.rpos && f.rpos[p] == Slowest(f.rpos);
      assert p in f.readers;
    }
  }

  /** Changing one reader's committed position upwards never moves the slowest one back. */
  lemma SlowestMonotone(before: map<PortId, nat>, after: map<PortId, nat>)
    requires before.Keys == after.Keys
    requires forall p :: p in before ==> before[p] <= after[p]
    ensures Slowest(before) <= Slowest(after)
  {
    if after != map[] {
      var p :| p in after && after[p] == Slowest(after);
      assert p in before;
    }
  }

  /** Writing appends to the stream, and fails exactly when the slowest reader is n-1 behind. */
  lemma WriteRefines(f: FifoState, hist: seq<Token>, data: Token)
    requires Implements(f, hist)
    ensures CanWrite(f) ==> Implements(Write(f, data), hist + [data])
    ensures !CanWrite(f) ==> Write(f, data) == f && f.wpos - Slowest(f.rpos) == f.n - 1
    ensures Write(f, data).WellFormed()
  {
    SpaceIsExact(f, hist);
    SlowestBelow(f, hist);
    if CanWrite(f) {
      var g := Write(f, data);
      var hist' := hist + [data];
      forall i | 0 <= i && g.wpos - g.n <= i < g.wpos
        ensures g.slots[i % g.n] == hist'[i]
      {
        if i < f.wpos {
          ModNear(f.wpos, i, f.n);
        }
      }
    }
  }

  /** No slot is overwritten while some reader has yet to commit it. */
  lemma WriteSparesUncommitted(f: FifoState, hist: seq<Token>, data: Token, p: PortId, i: nat)
    requires Implements(f, hist) && p in f.readers
    requires f.rpos[p] <= i < f.wpos
    ensures Write(f, data).slots[i % f.n] == f.slots[i % f.n] == hist[i]
  {
    SpaceIsExact(f, hist);
    if CanWrite(f) {
      ModNear(f.wpos, i, f.n);
    }
  }

  /** A reader reads the stream: the next token in it, nothing exactly at its end. */
  lemma ReadRefines(f: FifoState, hist: seq<Token>, p: PortId)
    requires Implements(f, hist) && p in f.readers
    ensures Implements(Read(f, p), hist)
    ensures Front(f, p) == if f.tpos[p] < |hist| then Some(hist[f.tpos[p]]) else None
    ensures AvailableTokens(f, p) == |hist| - f.tpos[p] >= 0
  {
    assert f.rpos[p] >= Slowest(f.rpos);
  }

  /** Moving committed positions on, up to the tentative ones, keeps the stream. */
  lemma CommitMovesRefine(f: FifoState, g: FifoState, hist: seq<Token>)
    requires Implements(f, hist) && g.WellFormed() && g == f.(rpos := g.rpos, tpos := g.tpos)
    requires forall p :: p in f.readers ==> f.rpos[p] <= g.rpos[p] <= g.tpos[p] <= f.tpos[p]
    ensures Implements(g, hist)
  {
    hide Retains, Slowest;
    SlowestMonotone(f.rpos, g.rpos);
  }

  lemma CommitRefines(f: FifoState, hist: seq<Token>, p: PortId, commit: bool)
    requires Implements(f, hist) && p in f.readers
    ensures Implements(CommitReads(f, p, commit), hist)
    ensures Implements(CommitOneRead(f, p, commit), hist)
  {
    hide Implements;
    Positions(f, hist);
    CommitMovesRefine(f, CommitReads(f, p, commit), hist);
    CommitMovesRefine(f, CommitOneRead(f, p, commit), hist);
  }

  lemma SlowestZero(rpos: map<PortId, nat>, p: PortId)
    requires p in rpos && rpos[p] == 0
    ensures Slowest(rpos) == 0
  {
  }

  /** A late reader starts at 0. That is sound exactly while nothing has been overwritten. */
  lemma AddReaderSoundIff(f: FifoState, hist: seq<Token>, p: PortId)
    requires Implements(f, hist)
    ensures Implements(AddReader(f, p), hist) <==> p in f.readers || f.wpos <= f.n - 1
  {
    if p !in f.readers {
      var g := AddReader(f, p);
      SlowestZero(g.rpos, p);
      assert g.rpos.Keys == g.readers;
      assert g.tpos.Keys == g.readers;
    }
  }

  /** Removing the last reader resets the slowest position to 0. That is sound only early on. */
  lemma RemoveReaderSoundIff(f: FifoState, hist: seq<Token>, p: PortId)
    requires Implements(f, hist) && p in f.readers
    ensures Implements(RemoveReader(f, p), hist) <==> f.readers != {p} || f.wpos <= f.n - 1
  {
    var g := RemoveReader(f, p);
    assert g.rpos.Keys == g.readers && g.tpos.Keys == g.readers;
    if g.readers == {} {
      assert f.readers == {p};
      assert g.rpos == map[];
    } else {
      assert f.readers != {p};
      var q :| q in g.rpos && g.rpos[q] == Slowest(g.rpos);
      assert Slowest(f.rpos) <= f.rpos[q];
    }
  }

  /** Two slots, three tokens gone through, all of them read. */
  function AllRead(a: Token, b: Token, c: Token): FifoState {
    FifoState([c, b], 2, {"reader"}, 3, map["reader" := 3], map["reader" := 3])
  }

  lemma AllReadImplements(a: Token, b: Token, c: Token)
    ensures Implements(AllRead(a, b, c), [a, b, c]) && Slowest(AllRead(a, b, c).rpos) == 3
  {
    assert AllRead(a, b, c).rpos["reader"] == 3;
  }

  /** A reader registered now is handed the third token as its first. */
  lemma LateReaderMisreads(a: Token, b: Token, c: Token)
    ensures var f := AllRead(a, b, c);
            && Implements(f, [a, b, c]) && !Implements(AddReader(f, "late"), [a, b, c])
            && AddReader(f, "late").WellFormed() && Front(AddReader(f, "late"), "late") == Some(c)
  {
    AllReadImplements(a, b, c);
    AddReaderSoundIff(AllRead(a, b, c), [a, b, c], "late");
  }

  /** With its only reader removed the FIFO is full, though nobody is left to wait for. */
  lemma LastReaderGoneBlocks(a: Token, b: Token, c: Token)
    ensures var f := AllRead(a, b, c);
            && Implements(f, [a, b, c]) && CanWrite(f)
            && !Implements(RemoveReader(f, "reader"), [a, b, c])
            && RemoveReader(f, "reader").WellFormed() && !CanWrite(RemoveReader(f, "reader"))
  {
    var f := AllRead(a, b, c);
    AllReadImplements(a, b, c);
    RemoveReaderSoundIff(f, [a, b, c], "reader");
    assert f.readers - {"reader"} == {};
    assert f.rpos - {"reader"} == map[] && f.tpos - {"reader"} == map[];
  }
}
