/** An inport as the firing rule uses it, over a tunnel or a local connection (actorport.py:94-155). */
module Inports {
  import opened Wrappers
  import opened Tokens
  import opened FifoSpec
  import opened EndpointSpec
  import opened Streams

  datatype Inport = Remote(own: FifoState) | Local(local: LocalIn)

  /** Usable by the port called me. */
  predicate Usable(x: Inport, me: PortId) {
    match x
    case Remote(f) => Reads(f, me)
    case Local(s) => Positioned(s, me)
  }

  /** c tokens of hist are consumed, and no peeks are outstanding. */
  ghost predicate Rests(x: Inport, me: PortId, hist: seq<Token>, c: nat) {
    match x
    case Remote(f) => Inbox(f, hist, me, c) && f.tpos == map[me := c]
    case Local(s) => LocalRest(s, me, hist, c)
  }

  /** The same, with the leftovers of an earlier connection already spliced in. */
  ghost predicate Ready(x: Inport, me: PortId, hist: seq<Token>, c: nat) {
    match x
    case Remote(f) => Rests(x, me, hist, c)
    case Local(s) => Spliced(s, me, hist, c, 0)
  }

  /** How far into the stream the inport can see. */
  function Reach(x: Inport): nat {
    match x
    case Remote(f) => f.wpos
    case Local(s) => s.theirs.wpos
  }

  function Available(x: Inport, me: PortId): (r: (Inport, int))
    requires Usable(x, me)
  {
    match x
    case Remote(f) => (x, AvailableTokens(f, me))
    case Local(s) => var (s', k) := LocalAvailable(s, me); (Local(s'), k)
  }

  function Peek(x: Inport, me: PortId): (r: (Inport, Option<Token>))
    requires Usable(x, me)
    ensures Usable(r.0, me)
  {
    match x
    case Remote(f) => (Remote(Read(f, me)), Front(f, me))
    case Local(s) => var (s', t) := LocalPeek(s, me); (Local(s'), t)
  }

  /** k calls of peek_token. */
  function PeekAll(x: Inport, me: PortId, k: nat): (r: (Inport, seq<Option<Token>>))
    requires Usable(x, me)
    ensures Usable(r.0, me) && |r.1| == k
  {
    match x
    case Remote(f) => var (f', ts) := PeekMany(f, me, k); (Remote(f'), ts)
    case Local(s) => var (s', ts) := LocalPeekMany(s, me, k); (Local(s'), ts)
  }

  function Rewind(x: Inport, me: PortId): Inport
    requires Usable(x, me)
  {
    match x
    case Remote(f) => Remote(CommitReads(f, me, false))
    case Local(s) => Local(LocalRewind(s, me))
  }

  function Commit(x: Inport, me: PortId): Inport
    requires Usable(x, me)
  {
    match x
    case Remote(f) => Remote(CommitReads(f, me, true))
    case Local(s) => Local(LocalCommit(s, me))
  }

  lemma ReadyRests(x: Inport, me: PortId, hist: seq<Token>, c: nat)
    requires Ready(x, me, hist, c)
    ensures Rests(x, me, hist, c) && Usable(x, me)
  {
    if x.Local? { SplicedIsRest(x.local, me, hist, c); }
  }

  lemma RestsUsable(x: Inport, me: PortId, hist: seq<Token>, c: nat)
    requires Rests(x, me, hist, c)
    ensures Usable(x, me) && c <= Reach(x) <= |hist|
  {
  }

  /** What is reported available is what lies between the consumed position and the inport's reach. */
  lemma AvailableIsReady(x: Inport, me: PortId, hist: seq<Token>, c: nat)
    requires Rests(x, me, hist, c) && Usable(x, me)
    ensures Ready(Available(x, me).0, me, hist, c) && Available(x, me).1 == Reach(x) - c
    ensures Reach(Available(x, me).0) == Reach(x)
    ensures x.Remote? ==> Available(x, me).0 == x
  {
    hide Retains, Slowest;
    if x.Local? {
      LocalAvailableIsRest(x.local, me, hist, c);
      SameReach(x.local.theirs, Available(x, me).0.local.theirs, me);
    }
  }

  lemma SameReach(f: FifoState, g: FifoState, p: PortId)
    requires OnlyMoves(f, g, p)
    ensures g.wpos == f.wpos
  {
  }

  lemma PeekAllStep(x: Inport, me: PortId, k: nat)
    requires Usable(x, me)
    ensures k == 0 ==> PeekAll(x, me, k) == (x, [])
    ensures k > 0 ==> var (y, t) := Peek(x, me);
                      PeekAll(x, me, k) == (PeekAll(y, me, k - 1).0, [t] + PeekAll(y, me, k - 1).1)
  {
    if x.Remote? {
      PeekSplit(x.own, me, k);
    } else if k > 0 {
      PeekManyStep(x.local, me, k);
    }
  }

  /** Peeks hand out the next k tokens; a rewind leaves no trace of them, a commit consumes them. */
  lemma PeekedTokens(x: Inport, me: PortId, hist: seq<Token>, c: nat, k: nat)
    requires Ready(x, me, hist, c) && Usable(x, me) && c + k <= Reach(x) <= |hist|
    ensures var (y, ts) := PeekAll(x, me, k);
            && ts == Found(hist[c..c + k])
            && Rewind(y, me) == x
            && Rests(Commit(y, me), me, hist, c + k) && Reach(Commit(y, me)) == Reach(x)
  {
    if x.Remote? { RemotePeeks(x, me, hist, c, k); } else { LocalPeeked(x, me, hist, c, k); }
  }

  lemma RemotePeeks(x: Inport, me: PortId, hist: seq<Token>, c: nat, k: nat)
    requires x.Remote? && Ready(x, me, hist, c) && Usable(x, me) && c + k <= Reach(x) <= |hist|
    ensures var (y, ts) := PeekAll(x, me, k);
            && ts == Found(hist[c..c + k])
            && Rewind(y, me) == x
            && Rests(Commit(y, me), me, hist, c + k) && Reach(Commit(y, me)) == Reach(x)
  {
    hide Retains, PeekMany, Found;
    TunnelConsumes(x.own, hist, me, c, k);
    var g := CommitReads(PeekMany(x.own, me, k).0, me, true);
    assert g.tpos.Keys == {me};
  }

  lemma LocalPeeked(x: Inport, me: PortId, hist: seq<Token>, c: nat, k: nat)
    requires x.Local? && Ready(x, me, hist, c) && Usable(x, me) && c + k <= Reach(x) <= |hist|
    ensures var (y, ts) := PeekAll(x, me, k);
            && ts == Found(hist[c..c + k])
            && Rewind(y, me) == x
            && Rests(Commit(y, me), me, hist, c + k) && Reach(Commit(y, me)) == Reach(x)
  {
    hide Spliced, LocalRest, LocalPeekMany, LocalRewind, LocalCommit, OnlyMoves, Found;
    LocalPeeks(x.local, me, hist, c, 0, k);
    LocalRewindRestores(x.local, me, hist, c, k);
    var s := LocalPeekMany(x.local, me, k).0;
    LocalCommitMoves(s, me, hist, c, k);
    SplicedIsRest(LocalCommit(s, me), me, hist, c + k);
    SameReach(x.local.theirs, s.theirs, me);
    SameReach(s.theirs, LocalCommit(s, me).theirs, me);
  }
}
