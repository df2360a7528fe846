/** The inports of one actor and the FIFOs of the outports they are locally connected to. An outport on the same
    node has one FIFO for all its readers, so two inports of an actor that read from the same outport work on the
    same object, each moving its own positions there (endpoint.py:60-153). Here such FIFOs are in a table that
    inports refer to by number. */
module SharedPeers {
  import opened Wrappers
  import opened Tokens
  import opened FifoSpec
  import opened EndpointSpec
  import opened Streams
  import opened Inports

  datatype Port =
    | Remote(own: FifoState)
    | Local(mine: FifoState, peer: nat, dataInLocal: bool, mismatch: bool)

  /** What reader `me` sees of a FIFO. */
  function Own(f: FifoState, me: PortId): FifoState
    requires Reads(f, me)
  {
    FifoState(f.slots, f.n, {me}, f.wpos, map[me := f.rpos[me]], map[me := f.tpos[me]])
  }

  function OwnLocal(s: LocalIn, me: PortId): LocalIn
    requires Reads(s.theirs, me)
  {
    s.(theirs := Own(s.theirs, me))
  }

  /** Port ids differ, and every local inport is registered with the FIFO it refers to. */
  predicate Wired(names: seq<PortId>, ports: seq<Port>, peers: seq<FifoState>) {
    && |ports| == |names|
    && (forall i, j :: 0 <= i < j < |names| ==> names[i] != names[j])
    && forall p :: 0 <= p < |ports| ==> WiredAt(names[p], ports[p], peers)
  }

  predicate WiredAt(me: PortId, x: Port, peers: seq<FifoState>) {
    x.Local? ==> x.peer < |peers| && Reads(peers[x.peer], me)
  }

  /** An inport as the firing rule sees it. */
  function Seen(me: PortId, x: Port, peers: seq<FifoState>): Inport
    requires WiredAt(me, x, peers)
  {
    match x
    case Remote(f) => Inport.Remote(f)
    case Local(_, _, _, _) => Inport.Local(OwnLocal(Linked(x, peers), me))
  }

  /** The endpoint with both its FIFOs. */
  function Linked(x: Port, peers: seq<FifoState>): LocalIn
    requires x.Local? && x.peer < |peers|
  {
    LocalIn(x.mine, peers[x.peer], x.dataInLocal, x.mismatch)
  }

  function AllSeen(names: seq<PortId>, ports: seq<Port>, peers: seq<FifoState>): (r: seq<Inport>)
    requires Wired(names, ports, peers)
    ensures |r| == |names| && forall p :: 0 <= p < |r| ==> r[p] == Seen(names[p], ports[p], peers)
  {
    seq(|names|, p requires 0 <= p < |names| => Seen(names[p], ports[p], peers))
  }

  /** What an operation on a local inport leaves behind. */
  function Left(x: Port, s: LocalIn): Port
    requires x.Local?
  {
    x.(mine := s.mine, dataInLocal := s.dataInLocal, mismatch := s.mismatch)
  }

  // ------------------------------------------------------------ operations see only their reader's part

  lemma OwnAt(f: FifoState, me: PortId, r: nat, t: nat)
    requires Reads(f, me)
    ensures Own(At(f, me, r, t), me) == At(Own(f, me), me, r, t)
    ensures Reads(Own(f, me), me)
  {
  }

  lemma {:induction false} SkipOwn(mine: FifoState, theirs: FifoState, me: PortId)
    requires Reads(mine, me) && Reads(theirs, me) && theirs.rpos[me] <= theirs.tpos[me] <= theirs.wpos
    ensures Own(SkipDuplicates(mine, theirs, me), me) == SkipDuplicates(mine, Own(theirs, me), me)
    ensures OnlyMoves(theirs, SkipDuplicates(mine, theirs, me), me)
    ensures theirs.rpos[me] <= SkipDuplicates(mine, theirs, me).rpos[me]
    decreases theirs.wpos - theirs.tpos[me]
  {
    hide SkipDuplicates, At;
    if CanRead(theirs, me) && mine.wpos > theirs.rpos[me] {
      var next := SkipStep(mine, theirs, me);
      SkipOwn(mine, next, me);
      var t := theirs.tpos[me] + 1;
      OwnAt(theirs, me, t, t);
      var own := SkipStep(mine, Own(theirs, me), me);
      assert own == Own(next, me);
      OnlyThere(theirs, me, t, t);
      MoveTrans(theirs, next, SkipDuplicates(mine, next, me), me);
    } else {
      SkipNothing(mine, theirs, me);
      SkipNothing(mine, Own(theirs, me), me);
      StaysPut(theirs, me);
    }
  }

  lemma OnlyThere(f: FifoState, me: PortId, r: nat, t: nat)
    requires Reads(f, me)
    ensures OnlyMoves(f, At(f, me, r, t), me)
  {
  }

  lemma StaysPut(f: FifoState, me: PortId)
    requires Reads(f, me)
    ensures OnlyMoves(f, f, me)
  {
    AtSelf(f, me);
  }

  lemma FixedOwn(s: LocalIn, me: PortId)
    requires Positioned(s, me)
    ensures Positioned(OwnLocal(s, me), me)
    ensures OwnLocal(Fixed(s, me), me) == Fixed(OwnLocal(s, me), me)
    ensures OnlyMoves(s.theirs, Fixed(s, me).theirs, me) && s.theirs.rpos[me] <= Fixed(s, me).theirs.rpos[me]
  {
    SkipOwn(s.mine, s.theirs, me);
    StaysPut(s.theirs, me);
  }

  /** The outcome of an operation: nobody else's positions move, and the reader's own keep their order. */
  ghost predicate Orderly(s: LocalIn, s': LocalIn, me: PortId) {
    && Positioned(s', me) && OnlyMoves(s.theirs, s'.theirs, me)
    && Reads(s.theirs, me) && s.theirs.rpos[me] <= s'.theirs.rpos[me]
  }

  lemma AvailableOwn(s: LocalIn, me: PortId)
    requires Positioned(s, me)
    ensures Positioned(OwnLocal(s, me), me)
    ensures var (s', k) := LocalAvailable(s, me);
            && Orderly(s, s', me) && LocalAvailable(OwnLocal(s, me), me) == (OwnLocal(s', me), k)
  {
    hide Fixed, OnlyMoves;
    FixedOwn(s, me);
  }

  lemma PeekOwn(s: LocalIn, me: PortId)
    requires Positioned(s, me)
    ensures Positioned(OwnLocal(s, me), me)
    ensures var (s', t) := LocalPeek(s, me);
            && Orderly(s, s', me) && LocalPeek(OwnLocal(s, me), me) == (OwnLocal(s', me), t)
  {
    hide Fixed;
    FixedOwn(s, me);
    var s1 := Fixed(s, me);
    ReadingMoves(s1.theirs, me);
    ReadingMoves(Own(s1.theirs, me), me);
    var g := Read(s1.theirs, me);
    OnlyThere(s1.theirs, me, g.rpos[me], g.tpos[me]);
    OwnAt(s1.theirs, me, g.rpos[me], g.tpos[me]);
    AtSelf(s1.theirs, me);
    MoveTrans(s.theirs, s1.theirs, g, me);
    StaysPut(s1.theirs, me);
  }

  lemma SettleOwn(s: LocalIn, me: PortId)
    requires Positioned(s, me)
    ensures Positioned(OwnLocal(s, me), me)
    ensures Orderly(s, LocalRewind(s, me), me) && LocalRewind(OwnLocal(s, me), me) == OwnLocal(LocalRewind(s, me), me)
    ensures Orderly(s, LocalCommit(s, me), me) && LocalCommit(OwnLocal(s, me), me) == OwnLocal(LocalCommit(s, me), me)
  {
    ReadingMoves(s.theirs, me);
    AtSelf(s.theirs, me);
    var r, t := s.theirs.rpos[me], s.theirs.tpos[me];
    OnlyThere(s.theirs, me, t, t);
    OnlyThere(s.theirs, me, r, r);
    OwnAt(s.theirs, me, t, t);
    OwnAt(s.theirs, me, r, r);
    ReadingMoves(Own(s.theirs, me), me);
  }

  // ------------------------------------------------------------ one operation on the shared table

  /** From one state of the ports to another, nobody changes sides, and every FIFO in the table still holds
      whatever stream it held, for all its readers, those of other actors included. */
  ghost predicate Moved(ports: seq<Port>, peers: seq<FifoState>, ports': seq<Port>, peers': seq<FifoState>) {
    && |ports'| == |ports| && |peers'| == |peers|
    && (forall p :: 0 <= p < |ports| ==>
          && ports'[p].Local? == ports[p].Local?
          && (ports[p].Local? ==> ports'[p].peer == ports[p].peer))
    && forall k, hist :: 0 <= k < |peers| && Implements(peers[k], hist) ==> Implements(peers'[k], hist)
  }

  lemma MovedSelf(ports: seq<Port>, peers: seq<FifoState>)
    ensures Moved(ports, peers, ports, peers)
  {
  }

  lemma MovedTrans(ports: seq<Port>, peers: seq<FifoState>, ports1: seq<Port>, peers1: seq<FifoState>,
                   ports2: seq<Port>, peers2: seq<FifoState>)
    requires Moved(ports, peers, ports1, peers1) && Moved(ports1, peers1, ports2, peers2)
    ensures Moved(ports, peers, ports2, peers2)
  {
  }

  /** Each FIFO in the table holds the stream that arrives at the inports reading from it. */
  ghost predicate PeersSound(ports: seq<Port>, peers: seq<FifoState>, arriving: seq<seq<Token>>) {
    |ports| == |arriving|
    && forall p :: 0 <= p < |ports| && ports[p].Local? ==>
         ports[p].peer < |peers| && Implements(peers[ports[p].peer], arriving[p])
  }

  lemma MovedSound(ports: seq<Port>, peers: seq<FifoState>, ports': seq<Port>, peers': seq<FifoState>,
                   arriving: seq<seq<Token>>)
    requires Moved(ports, peers, ports', peers') && PeersSound(ports, peers, arriving)
    ensures PeersSound(ports', peers', arriving)
  {
    hide Implements;
  }

  /** An orderly operation by one reader changes what that inport sees and nothing that any other sees, also of
      the same FIFO. */
  lemma SharedStep(names: seq<PortId>, ports: seq<Port>, peers: seq<FifoState>, p: nat, s': LocalIn)
    requires Wired(names, ports, peers) && p < |ports| && ports[p].Local?
    requires Orderly(Linked(ports[p], peers), s', names[p])
    ensures var ports', peers' := ports[p := Left(ports[p], s')], peers[ports[p].peer := s'.theirs];
            && Wired(names, ports', peers') && Moved(ports, peers, ports', peers')
            && AllSeen(names, ports', peers') == AllSeen(names, ports, peers)[p := Inport.Local(OwnLocal(s', names[p]))]
  {
    hide Implements;
    var me, k := names[p], ports[p].peer;
    var ports', peers' := ports[p := Left(ports[p], s')], peers[k := s'.theirs];
    forall hist | Implements(peers[k], hist) ensures Implements(s'.theirs, hist) {
      MoveRefines(peers[k], s'.theirs, hist, me);
    }
    forall q | 0 <= q < |ports| ensures WiredAt(names[q], ports'[q], peers') {
      assert WiredAt(names[q], ports[q], peers);
    }
    forall q | 0 <= q < |ports| && q != p
      ensures Seen(names[q], ports'[q], peers') == Seen(names[q], ports[q], peers)
    {
      assert names[q] != me;
      assert WiredAt(names[q], ports[q], peers);
    }
  }

  lemma RemoteStep(names: seq<PortId>, ports: seq<Port>, peers: seq<FifoState>, p: nat, f: FifoState)
    requires Wired(names, ports, peers) && p < |ports| && ports[p].Remote?
    ensures var ports' := ports[p := Port.Remote(f)];
            && Wired(names, ports', peers) && Moved(ports, peers, ports', peers)
            && AllSeen(names, ports', peers) == AllSeen(names, ports, peers)[p := Inport.Remote(f)]
  {
    var ports' := ports[p := Port.Remote(f)];
    forall q | 0 <= q < |ports| ensures WiredAt(names[q], ports'[q], peers) {
      assert WiredAt(names[q], ports[q], peers);
    }
  }
}
