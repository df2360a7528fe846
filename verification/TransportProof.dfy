/** Every event keeps the invariant of Transport, and what that gives in every reachable state. */
module TransportProof {
  import opened Wrappers
  import opened Tokens
  import opened FifoSpec
  import opened EndpointSpec
  import opened Streams
  import opened Transport
  import opened TunnelPhases

  // ------------------------------------------------------------------- framing

  lemma Facts(s: System, p: PortId)
    requires Inv(s) && p in s.links
    ensures PeerInv(s, p)
    ensures s.out.WellFormed() && s.out.wpos == |s.hist| && Implements(s.out, s.hist)
    ensures p in s.out.readers ==> Reads(s.out, p) && s.out.rpos[p] <= s.out.tpos[p] <= s.out.wpos
  {
    hide Implements, LinkInv;
    Positions(s.out, s.hist);
  }

  /** An event that only moves p's positions in the outport and only changes p's link. */
  lemma Framed(s: System, p: PortId, out: FifoState, l: Link)
    requires Inv(s) && p in s.links && p in s.out.readers
    requires OnlyMoves(s.out, out, p) && Implements(out, s.hist)
    requires LinkInv(s.hist, true, out.rpos[p], out.tpos[p], p, l)
    ensures Inv(s.(out := out, links := s.links[p := l]))
  {
    hide Implements, LinkInv;
    var s' := s.(out := out, links := s.links[p := l]);
    assert s'.links.Keys == s.links.Keys;
    forall q | q in s'.links
      ensures PeerInv(s', q)
    {
      if q != p { assert PeerInv(s, q); }
    }
  }

  lemma FramedLink(s: System, p: PortId, l: Link)
    requires Inv(s) && p in s.links
    requires LinkInv(s.hist, p in s.out.readers, Committed(s.out, p), Tentative(s.out, p), p, l)
    ensures Inv(WithLink(s, p, l))
  {
    hide Implements, LinkInv;
    var s' := WithLink(s, p, l);
    assert s'.links.Keys == s.links.Keys;
    forall q | q in s'.links
      ensures PeerInv(s', q)
    {
      if q != p { assert PeerInv(s, q); }
    }
  }

  // -------------------------------------------------------------- the inport's FIFO

  lemma InboxWrites(f: FifoState, hist: seq<Token>, p: PortId, c: nat, data: Token)
    requires Inbox(f, hist, p, c) && f.tpos[p] == c
    ensures CanWrite(f) <==> f.wpos - c < f.n - 1
    ensures CanWrite(f) && f.wpos < |hist| && data == hist[f.wpos] ==>
              var g := Write(f, data);
              Inbox(g, hist, p, c) && g.wpos == f.wpos + 1 && g.tpos[p] == c
  {
    SlowestSingle(f.rpos, p);
    ModNear(f.wpos + 1, c, f.n);
    if CanWrite(f) && f.wpos < |hist| && data == hist[f.wpos] {
      var g := Write(f, data);
      forall i | 0 <= i && c <= i < g.wpos
        ensures g.slots[i % g.n] == hist[i]
      {
        if i < f.wpos { ModNear(f.wpos, i, f.n); }
      }
    }
  }

  lemma InboxStays(f: FifoState, hist: seq<Token>, p: PortId, c: nat, more: seq<Token>)
    requires Inbox(f, hist, p, c)
    ensures Inbox(f, hist + more, p, c)
  {
  }

  lemma {:induction false} HandedAll(ts: seq<Token>)
    ensures Handed(Found(ts)) == ts
  {
    if ts != [] {
      assert Found(ts)[1..] == Found(ts[1..]);
      HandedAll(ts[1..]);
    }
  }

  lemma HandedOne(t: Option<Token>)
    ensures Handed([t]) == if t.Some? then [t.value] else []
  {
    assert [t][1..] == [];
  }

  // -------------------------------------------------------------- events

  lemma WriteKeeps(s: System, data: Token)
    requires Inv(s) && Enabled(s, WriteToken(data))
    ensures Inv(Apply(s, WriteToken(data)))
  {
    hide Retains, Slowest;
    hide Implements, LinkInv, Write;
    var s' := Apply(s, WriteToken(data));
    WriteRefines(s.out, s.hist, data);
    WritesNoPosition(s.out, data);
    AllRegistered(s);
    forall p | p in s'.links
      ensures PeerInv(s', p)
    {
      assert PeerInv(s, p);
      LinkStays(s.hist, p in s.out.readers, Committed(s.out, p), Tentative(s.out, p), p, s.links[p], data);
    }
  }

  lemma WritesNoPosition(f: FifoState, data: Token)
    requires f.WellFormed()
    ensures var g := Write(f, data);
            g.readers == f.readers && g.rpos == f.rpos && g.tpos == f.tpos
  {
  }

  /** A fully connected outport has registered every reader. */
  lemma AllRegistered(s: System)
    requires Inv(s) && Connected(s)
    ensures s.out.readers == s.links.Keys
  {
    hide Implements, Phase;
    forall p | p in AttachedPeers(s)
      ensures p in s.out.readers
    {
      Facts(s, p);
    }
    SubsetFull(AttachedPeers(s), s.links.Keys);
  }

  lemma LinkStays(hist: seq<Token>, known: bool, r: nat, t: nat, p: PortId, l: Link, data: Token)
    requires LinkInv(hist, known, r, t, p, l)
    ensures LinkInv(hist + [data], known, r, t, p, l)
  {
    hide Phase;
    InboxStays(l.fifo, hist, p, l.fifo.rpos[p], [data]);
  }

  lemma SubsetFull(a: set<PortId>, b: set<PortId>)
    requires a <= b && |a| >= |b|
    ensures a == b
  {
    assert b == a + (b - a);
    assert |b| == |a| + |b - a|;
  }

  lemma SendKeeps(s: System, p: PortId, mayNow: bool)
    requires Inv(s) && CanTalk(s, p)
    ensures Inv(Sent(s, p, mayNow))
  {
    hide Inv, Implements, Inbox, Phase;
    Facts(s, p);
    var l := s.links[p];
    var w := l.fifo.wpos;
    var r, t := s.out.rpos[p], s.out.tpos[p];
    if l.outEnd.bulk {
      SendsRest(s.out, s.hist, p);
      var out := At(s.out, p, r, s.out.wpos);
      var ms := Stretch(s.hist, t, s.out.wpos);
      PhaseSendBulk(r, t, w, l.back, l.fwd, Receiving(l), ms);
      MoveRefines(s.out, out, s.hist, p);
      Framed(s, p, out, l.(outEnd := TunnelOut([], true), fwd := l.fwd + ms));
    } else if CanRead(s.out, p) && t == r && mayNow {
      SendsNext(s.out, s.hist, p);
      var out, m := At(s.out, p, r, t + 1), TokenMsg(t, Encode(s.hist[t]));
      PhaseSendRetry(r, w, l.back, l.fwd, Receiving(l), m);
      MoveRefines(s.out, out, s.hist, p);
      Framed(s, p, out, l.(outEnd := TunnelOut([], false), fwd := l.fwd + [m]));
    } else {
      AtSelf(s.out, p);
      assert l.fwd + [] == l.fwd;
      Framed(s, p, s.out, l);
    }
  }

  lemma DeliverTokenKeeps(s: System, p: PortId)
    requires Inv(s) && TokenWaiting(s, p)
    ensures Inv(TokenDelivered(s, p))
  {
    hide Inv, Implements, Retains, Phase;
    Facts(s, p);
    var l := s.links[p];
    var m := l.fwd[0];
    var r, t := Committed(s.out, p), Tentative(s.out, p);
    if l.inEnd.TunnelIn? {
      var (f, verdict) := RecvToken(l.fifo, m);
      DecodeEncode(s.hist[m.seqnr]);
      InboxWrites(l.fifo, s.hist, p, l.fifo.rpos[p], Decode(m.token));
      if l.outEnd.TunnelOut? {
        PhaseDeliver(r, t, l.fifo.wpos, l.outEnd.bulk, l.back, l.fwd, f.wpos, verdict);
      }
      var l' := l.(fifo := f, fwd := l.fwd[1..], back := l.back + [ReplyMsg(m.seqnr, verdict)]);
      FramedLink(s, p, l');
    } else {
      if l.outEnd.TunnelOut? {
        PhaseAbort(r, t, l.fifo.wpos, l.outEnd.bulk, l.back, l.fwd);
      }
      FramedLink(s, p, l.(fwd := l.fwd[1..], back := l.back + [ReplyMsg(m.seqnr, Abort)]));
    }
  }

  lemma DeliverReplyKeeps(s: System, p: PortId)
    requires Inv(s) && ReplyWaiting(s, p)
    ensures Inv(ReplyDelivered(s, p))
  {
    hide Inv, Implements, Inbox, Phase;
    Facts(s, p);
    var l := s.links[p];
    if l.outEnd.TunnelOut? {
      ReplyKeeps(s, p);
    } else {
      FramedLink(s, p, l.(back := l.back[1..]));
    }
  }

  /** A reply is about to reach an attached sender. */
  predicate Answering(s: System, p: PortId) {
    ReplyWaiting(s, p) && s.links[p].outEnd.TunnelOut?
  }

  lemma AckKeeps(s: System, p: PortId)
    requires Inv(s) && Answering(s, p) && s.links[p].back[0].verdict == Ack
    ensures s.links[p].back[0].seqnr == s.out.rpos[p] < s.links[p].fifo.wpos
    ensures var s' := ReplyDelivered(s, p);
            Inv(s') && p in s'.links && s'.links[p].outEnd == TunnelOut([], true)
            && s'.out == At(s.out, p, s.out.rpos[p] + 1, s.out.tpos[p])
  {
    hide Inv, Implements, Inbox, Phase, At, ReplyAck;
    Facts(s, p);
    var l := s.links[p];
    var r, t := s.out.rpos[p], s.out.tpos[p];
    PhaseAck(r, t, l.fifo.wpos, l.outEnd.bulk, l.back, l.fwd, Receiving(l));
    AckOfCommitted(SenderOf(s, p), p, r);
    MovesReader(s, p, r + 1, t, l.(outEnd := TunnelOut([], true), back := l.back[1..]));
  }

  lemma NackKeeps(s: System, p: PortId)
    requires Inv(s) && Answering(s, p) && s.links[p].back[0].verdict == Nack
    ensures var s' := ReplyDelivered(s, p);
            Inv(s') && p in s'.links && s'.links[p].outEnd == TunnelOut([], false)
  {
    hide Inv, Implements, Inbox, Phase, At, ReplyNack;
    Facts(s, p);
    var l := s.links[p];
    var nr := l.back[0].seqnr;
    var r, t := s.out.rpos[p], s.out.tpos[p];
    PhaseNack(r, t, l.fifo.wpos, l.outEnd.bulk, l.back, l.fwd, Receiving(l));
    NackMoves(SenderOf(s, p), p, nr);
    AtSelf(s.out, p);
    MovesReader(s, p, r, if r <= nr < t then nr else t,
                l.(outEnd := TunnelOut([], false), back := l.back[1..]));
  }

  lemma MovesReader(s: System, p: PortId, r: nat, t: nat, l: Link)
    requires Inv(s) && p in s.links && Reads(s.out, p)
    requires s.out.rpos[p] <= r <= t <= s.out.wpos
    requires LinkInv(s.hist, true, r, t, p, l)
    ensures Inv(s.(out := At(s.out, p, r, t), links := s.links[p := l]))
  {
    hide Inv, Implements, LinkInv;
    Facts(s, p);
    MoveRefines(s.out, At(s.out, p, r, t), s.hist, p);
    Framed(s, p, At(s.out, p, r, t), l);
  }

  /** No reply, in any reachable state, leaves an entry in the list of acknowledged numbers. */
  lemma ReplyKeeps(s: System, p: PortId)
    requires Inv(s) && Answering(s, p)
    ensures var s' := ReplyDelivered(s, p);
            Inv(s') && p in s'.links && s'.links[p].outEnd.TunnelOut? && s'.links[p].outEnd.acked == []
  {
    hide Inv, Implements, Inbox, Phase, ReplyAck, ReplyNack;
    Facts(s, p);
    var l := s.links[p];
    match l.back[0].verdict {
      case Ack => AckKeeps(s, p);
      case Nack => NackKeeps(s, p);
      case Abort =>
        PhaseSkipAbort(s.out.rpos[p], s.out.tpos[p], l.fifo.wpos, l.outEnd.bulk, l.back, l.fwd, Receiving(l));
        AtSelf(s.out, p);
        MovesReader(s, p, s.out.rpos[p], s.out.tpos[p], l.(back := l.back[1..]));
    }
  }

  /** A local connection is at rest between events. */
  lemma LocalAtRest(s: System, p: PortId)
    requires Inv(s) && p in s.links && s.links[p].inEnd.LocalInEnd?
    ensures LocalRest(LocalOf(s, p), p, s.hist, s.links[p].fifo.rpos[p])
    ensures PeerInv(s, p) && p in s.out.readers
  {
    hide Inv, Retains, Slowest, Phase, Genuine;
    Facts(s, p);
  }

  lemma WithLocalKeeps(s: System, p: PortId, loc: LocalIn, c: nat, got: seq<Token>)
    requires Inv(s) && p in s.links && s.links[p].inEnd.LocalInEnd?
    requires OnlyMoves(s.out, loc.theirs, p)
    requires LocalRest(loc, p, s.hist, c) && !loc.mismatch
    requires s.links[p].got + got == s.hist[..c]
    ensures Inv(WithLocal(s, p, loc, got))
  {
    hide Implements, Retains, Slowest, Phase, Inv;
    LocalAtRest(s, p);
    var l := s.links[p];
    var l' := l.(fifo := loc.mine, inEnd := LocalInEnd(loc.dataInLocal, loc.mismatch), got := l.got + got);
    Framed(s, p, loc.theirs, l');
  }

  lemma PollKeeps(s: System, p: PortId)
    requires Inv(s) && CanConsume(s, p)
    ensures Inv(Polled(s, p))
  {
    hide Implements, Retains, Slowest, Phase, Inv, LocalAvailable, LocalPeekMany, PeekMany, LocalRest, Spliced;
    if s.links[p].inEnd.LocalInEnd? {
      LocalAtRest(s, p);
      var c := s.links[p].fifo.rpos[p];
      LocalAvailableIsRest(LocalOf(s, p), p, s.hist, c);
      SplicedIsRest(LocalAvailable(LocalOf(s, p), p).0, p, s.hist, c);
      WithLocalKeeps(s, p, LocalAvailable(LocalOf(s, p), p).0, c, []);
    }
  }

  lemma ConsumeKeeps(s: System, p: PortId, k: nat)
    requires Inv(s) && CanConsume(s, p) && k <= Available(s, p)
    ensures p in s.links[p].fifo.rpos
    ensures var c := s.links[p].fifo.rpos[p];
            var s' := Consumed(s, p, k);
            && Inv(s') && c + k <= |s.hist| && p in s'.links
            && s'.links[p].got == s.links[p].got + s.hist[c..c + k]
  {
    if s.links[p].inEnd.TunnelIn? {
      TunnelConsumeKeeps(s, p, k);
    } else {
      LocalConsumeKeeps(s, p, k);
    }
  }

  lemma TunnelConsumeKeeps(s: System, p: PortId, k: nat)
    requires Inv(s) && CanConsume(s, p) && k <= Available(s, p) && s.links[p].inEnd.TunnelIn?
    ensures p in s.links[p].fifo.rpos
    ensures var c := s.links[p].fifo.rpos[p];
            var s' := Consumed(s, p, k);
            && Inv(s') && c + k <= |s.hist| && p in s'.links
            && s'.links[p].got == s.links[p].got + s.hist[c..c + k]
  {
    hide Implements, Retains, Slowest, Phase, Inv, PeekMany, Handed, CommitReads;
    Facts(s, p);
    var l := s.links[p];
    var c := l.fifo.rpos[p];
    TunnelConsumes(l.fifo, s.hist, p, c, k);
    HandedAll(s.hist[c..c + k]);
    FramedLink(s, p, Consumed(s, p, k).links[p]);
  }

  lemma LocalConsumeKeeps(s: System, p: PortId, k: nat)
    requires Inv(s) && CanConsume(s, p) && k <= Available(s, p) && s.links[p].inEnd.LocalInEnd?
    ensures p in s.links[p].fifo.rpos
    ensures var c := s.links[p].fifo.rpos[p];
            var s' := Consumed(s, p, k);
            && Inv(s') && c + k <= |s.hist| && p in s'.links
            && s'.links[p].got == s.links[p].got + s.hist[c..c + k]
  {
    hide Implements, Retains, Slowest, Phase, Inv, LocalAvailable, LocalPeekMany, LocalCommit, LocalRest, Handed;
    Facts(s, p);
    var c := s.links[p].fifo.rpos[p];
    LocalAtRest(s, p);
    var loc := LocalConsumes(LocalOf(s, p), p, s.hist, c, k);
    HandedAll(s.hist[c..c + k]);
    WithLocalKeeps(s, p, loc, c + k, s.hist[c..c + k]);
  }

  /** Polling, peeking k tokens and committing, through a local connection. */
  lemma LocalConsumes(s: LocalIn, p: PortId, hist: seq<Token>, c: nat, k: nat) returns (s': LocalIn)
    requires LocalRest(s, p, hist, c) && k <= LocalAvailable(s, p).1
    ensures c + k <= |hist|
    ensures var (peeked, ts) := LocalPeekMany(LocalAvailable(s, p).0, p, k);
            ts == Found(hist[c..c + k]) && s' == LocalCommit(peeked, p)
    ensures LocalRest(s', p, hist, c + k) && !s'.mismatch && OnlyMoves(s.theirs, s'.theirs, p)
  {
    hide Implements, Inbox, LocalAvailable, LocalPeekMany, LocalCommit, OnlyMoves;
    LocalAvailableIsRest(s, p, hist, c);
    var polled := LocalAvailable(s, p).0;
    LocalPeeks(polled, p, hist, c, 0, k);
    var peeked := LocalPeekMany(polled, p, k).0;
    LocalCommitMoves(peeked, p, hist, c, k);
    s' := LocalCommit(peeked, p);
    SplicedIsRest(s', p, hist, c + k);
    MoveTrans(s.theirs, polled.theirs, peeked.theirs, p);
    MoveTrans(s.theirs, peeked.theirs, s'.theirs, p);
  }

  /** A firing that does not commit leaves the system as a mere poll would. */
  lemma RewindKeeps(s: System, p: PortId, k: nat)
    requires Inv(s) && CanConsume(s, p) && k <= Available(s, p)
    ensures Rewound(s, p, k) == Polled(s, p)
    ensures Inv(Rewound(s, p, k))
  {
    hide Implements, Retains, Slowest, Phase, Inv, LocalAvailable, LocalPeekMany, PeekMany, LocalRest, Spliced;
    Facts(s, p);
    var l := s.links[p];
    var c := l.fifo.rpos[p];
    if l.inEnd.TunnelIn? {
      TunnelConsumes(l.fifo, s.hist, p, c, k);
      assert s.links[p := l] == s.links;
    } else {
      LocalAtRest(s, p);
      LocalAvailableIsRest(LocalOf(s, p), p, s.hist, c);
      LocalRewindRestores(LocalAvailable(LocalOf(s, p), p).0, p, s.hist, c, k);
      PollKeeps(s, p);
    }
  }

  lemma ReadOneKeeps(s: System, p: PortId)
    requires Inv(s) && CanConsume(s, p)
    ensures Inv(OneRead(s, p))
  {
    if s.links[p].inEnd.TunnelIn? {
      TunnelReadKeeps(s, p);
    } else {
      LocalReadKeeps(s, p);
    }
  }

  lemma TunnelReadKeeps(s: System, p: PortId)
    requires Inv(s) && CanConsume(s, p) && s.links[p].inEnd.TunnelIn?
    ensures Inv(OneRead(s, p))
  {
    hide Implements, Retains, Slowest, Phase, Inv, Front, Read, CommitReads, Handed;
    Facts(s, p);
    var l := s.links[p];
    TunnelReads(l.fifo, s.hist, p, l.fifo.rpos[p]);
    HandedOne(Front(l.fifo, p));
    FramedLink(s, p, OneRead(s, p).links[p]);
  }

  lemma LocalReadKeeps(s: System, p: PortId)
    requires Inv(s) && CanConsume(s, p) && s.links[p].inEnd.LocalInEnd?
    ensures Inv(OneRead(s, p))
  {
    hide Implements, Retains, Slowest, Phase, Inv, LocalRead, LocalRest, Handed;
    Facts(s, p);
    var c := s.links[p].fifo.rpos[p];
    LocalAtRest(s, p);
    LocalReadsNext(LocalOf(s, p), p, s.hist, c);
    var (loc, t) := LocalRead(LocalOf(s, p), p);
    HandedOne(t);
    WithLocalKeeps(s, p, loc, if c < |s.hist| then c + 1 else c, Handed([t]));
  }

  lemma TunnelReads(f: FifoState, hist: seq<Token>, p: PortId, c: nat)
    requires Inbox(f, hist, p, c) && f.tpos[p] == c
    ensures Front(f, p) == if c < f.wpos then Some(hist[c]) else None
    ensures var g := CommitReads(Read(f, p), p, Front(f, p).Some?);
            var c' := if c < f.wpos then c + 1 else c;
            Inbox(g, hist, p, c') && g.tpos[p] == c' && g.wpos == f.wpos
  {
    var g := CommitReads(Read(f, p), p, Front(f, p).Some?);
    assert g.rpos.Keys == {p} && g.tpos.Keys == {p};
  }

  lemma RewindImplements(s: System)
    requires Implements(s.out, s.hist)
    ensures Implements(Unsent(s), s.hist)
  {
    hide Slowest;
    assert Unsent(s).tpos.Keys == s.out.readers;
  }

  lemma LinkDetached(hist: seq<Token>, known: bool, r: nat, t: nat, p: PortId, l: Link)
    requires LinkInv(hist, known, r, t, p, l)
    ensures LinkInv(hist, known, r, r, p, l.(outEnd := OutDetached))
    ensures l.outEnd.OutDetached? ==> t == r
  {
    hide Inbox, Phase;
  }

  lemma DisconnectOutKeeps(s: System)
    requires Inv(s) && s.out.WellFormed()
    ensures Inv(OutDisconnected(s))
  {
    hide Implements, LinkInv;
    var s' := OutDisconnected(s);
    RewindImplements(s);
    forall p | p in s'.links
      ensures PeerInv(s', p)
    {
      Facts(s, p);
      LinkDetached(s.hist, p in s.out.readers, Committed(s.out, p), Tentative(s.out, p), p, s.links[p]);
    }
  }

  lemma DisconnectInKeeps(s: System, p: PortId)
    requires Inv(s) && Enabled(s, DisconnectIn(p))
    ensures Inv(Apply(s, DisconnectIn(p)))
  {
    hide Inv, Implements, Inbox, Phase;
    Facts(s, p);
    var l := s.links[p];
    if l.outEnd.TunnelOut? && l.inEnd.TunnelIn? && l.okFwd.None? {
      PhaseDetach(s.out.rpos[p], s.out.tpos[p], l.fifo.wpos, l.outEnd.bulk, l.back, l.fwd);
    }
    FramedLink(s, p, l.(inEnd := InDetached));
  }

  lemma Registers(s: System, p: PortId)
    requires Inv(s) && p in s.links
    ensures Implements(AddReader(s.out, p), s.hist)
    ensures p in AddReader(s.out, p).readers && AddReader(s.out, p).readers <= s.links.Keys
    ensures forall q :: Committed(AddReader(s.out, p), q) == Committed(s.out, q)
    ensures forall q :: Tentative(AddReader(s.out, p), q) == Tentative(s.out, q)
  {
    hide Implements, LinkInv;
    Facts(s, p);
    AddReaderSoundIff(s.out, s.hist, p);
  }

  /** Attaching an outport end, after registering the reader. */
  lemma AttachKeeps(s: System, p: PortId, l: Link)
    requires Inv(s) && p in s.links
    requires LinkInv(s.hist, true, Committed(s.out, p), Tentative(s.out, p), p, l)
    ensures Inv(OutAttached(s, p, l))
  {
    hide Implements, LinkInv;
    var s' := OutAttached(s, p, l);
    Registers(s, p);
    assert s'.links.Keys == s.links.Keys;
    forall q | q in s'.links
      ensures PeerInv(s', q)
    {
      assert PeerInv(s, q);
    }
  }

  lemma OkAtOutKeeps(s: System, p: PortId, here: bool)
    requires Inv(s) && p in s.links && s.links[p].okBack == Some(0) && (here ==> Unhindered(s.links[p]))
    ensures Inv(OkAtOut(s, p, here))
  {
    hide Inv, Implements, Inbox, Phase;
    Facts(s, p);
    var l := s.links[p];
    if here {
      PhaseStart(Committed(s.out, p), l.fifo.wpos, Receiving(l));
      AttachKeeps(s, p, l.(outEnd := TunnelOut([], true), okBack := None));
    } else {
      FramedLink(s, p, l.(okBack := None));
    }
  }

  lemma OkAtInKeeps(s: System, p: PortId, here: bool)
    requires Inv(s) && p in s.links && s.links[p].okFwd == Some(0)
    ensures Inv(OkAtIn(s, p, here))
  {
    hide Inv, Implements, Inbox, Phase;
    Facts(s, p);
    var l := s.links[p];
    if !here && l.outEnd.TunnelOut? && !l.inEnd.TunnelIn? {
      PhaseDetach(Committed(s.out, p), Tentative(s.out, p), l.fifo.wpos, l.outEnd.bulk, l.back, l.fwd);
    }
    FramedLink(s, p, l.(inEnd := if here then TunnelIn else l.inEnd, okFwd := None));
  }

  lemma AcceptInKeeps(s: System, p: PortId)
    requires Inv(s) && Enabled(s, AcceptIn(p))
    ensures Inv(InAccepted(s, p))
  {
    hide Inv, Implements, Inbox, Phase;
    Facts(s, p);
    FramedLink(s, p, s.links[p].(inEnd := TunnelIn, okBack := Some(0)));
  }

  lemma AcceptOutKeeps(s: System, p: PortId)
    requires Inv(s) && Enabled(s, AcceptOut(p))
    ensures Inv(OutAccepted(s, p))
  {
    hide Inv, Implements, Inbox, Phase;
    Facts(s, p);
    var l := s.links[p];
    PhaseStart(Committed(s.out, p), l.fifo.wpos, true);
    AttachKeeps(s, p, l.(outEnd := TunnelOut([], true), okFwd := Some(0)));
  }

  lemma ConnectLocalKeeps(s: System, p: PortId)
    requires Inv(s) && Enabled(s, ConnectLocal(p))
    ensures Inv(LocalConnected(s, p))
  {
    hide Inv, Implements, Inbox, Phase;
    Facts(s, p);
    AttachKeeps(s, p, s.links[p].(inEnd := LocalInEnd(true, true), outEnd := LocalOut));
  }

  /** Connecting, whichever end is asked first or both at once, and losing an OK whose port has left. */
  lemma AttachEventKeeps(s: System, e: Event)
    requires Inv(s) && Enabled(s, e)
    requires e.AcceptIn? || e.OkToOut? || e.AcceptOut? || e.OkToIn? || e.ConnectLocal?
    ensures Inv(Apply(s, e))
  {
    hide Inv, InAccepted, OutAccepted, OkAtOut, OkAtIn, LocalConnected;
    match e {
      case AcceptIn(p) => AcceptInKeeps(s, p);
      case OkToOut(p, here) => OkAtOutKeeps(s, p, here);
      case AcceptOut(p) => AcceptOutKeeps(s, p);
      case OkToIn(p, here) => OkAtInKeeps(s, p, here);
      case ConnectLocal(p) => ConnectLocalKeeps(s, p);
    }
  }

  // ------------------------------------------------------------------- ends put over ends in place

  /** A new outport end where one is in place keeps the invariant if and only if no stale refusal is on
      its way. */
  lemma RenewOutIff(s: System, p: PortId)
    requires Inv(s) && p in s.links && s.links[p].outEnd.TunnelOut?
    ensures Inv(OutRenewed(s, p)) <==> NoStaleRefusal(s, p)
  {
    hide Inv, Implements, Inbox, Phase, Leads;
    Facts(s, p);
    var l := s.links[p];
    var r, t := Committed(s.out, p), Tentative(s.out, p);
    RenewedPhase(r, t, l.fifo.wpos, l.outEnd.bulk, l.back, l.fwd, Receiving(l));
    if NoStaleRefusal(s, p) {
      AttachKeeps(s, p, l.(outEnd := TunnelOut([], true)));
    } else if Inv(OutRenewed(s, p)) {
      RenewedLink(s, p);
    }
  }

  lemma RenewedLink(s: System, p: PortId)
    requires p in s.links && s.links[p].outEnd.TunnelOut? && Inv(OutRenewed(s, p)) && p in s.out.readers
    ensures var l := s.links[p];
            Phase(Committed(s.out, p), Tentative(s.out, p), l.fifo.wpos, true, l.back, l.fwd, Receiving(l))
  {
    hide Implements, Inbox, Phase;
    assert PeerInv(OutRenewed(s, p), p);
  }

  /** A new inport end while the outport's is in place keeps the invariant if and only if all that is tentative
      is still on its way. */
  lemma RenewInIff(s: System, p: PortId)
    requires Inv(s) && p in s.links && s.links[p].outEnd.TunnelOut? && !Receiving(s.links[p])
    ensures Inv(InRenewed(s, p)) <==> StillComing(s, p)
  {
    hide Inv, Implements, Inbox, Phase, Coming;
    Facts(s, p);
    var l := s.links[p];
    var r, t := Committed(s.out, p), Tentative(s.out, p);
    ComingPhase(r, t, l.fifo.wpos, l.outEnd.bulk, l.back, l.fwd);
    if StillComing(s, p) {
      FramedLink(s, p, l.(inEnd := TunnelIn));
    } else if Inv(InRenewed(s, p)) {
      ReceivedLink(s, p);
    }
  }

  lemma ReceivedLink(s: System, p: PortId)
    requires p in s.links && s.links[p].outEnd.TunnelOut? && Inv(InRenewed(s, p))
    ensures var l := s.links[p];
            Phase(Committed(s.out, p), Tentative(s.out, p), l.fifo.wpos, l.outEnd.bulk, l.back, l.fwd, true)
  {
    hide Implements, Inbox, Phase;
    assert PeerInv(InRenewed(s, p), p);
  }

  lemma RenewKeeps(s: System, e: Event)
    requires Inv(s) && Enabled(s, e) && (e.RenewOut? || e.RenewIn?)
    ensures Inv(Apply(s, e))
  {
    hide Inv, OutRenewed, InRenewed, NoStaleRefusal, StillComing;
    match e {
      case RenewOut(p) => RenewOutIff(s, p);
      case RenewIn(p) => if Receiving(s.links[p]) { RenewedReceiving(s, p); } else { RenewInIff(s, p); }
    }
  }

  lemma RenewedReceiving(s: System, p: PortId)
    requires Inv(s) && p in s.links && Receiving(s.links[p]) && !s.links[p].inEnd.LocalInEnd?
    ensures Inv(InRenewed(s, p))
  {
    hide Inv, Implements, Inbox, Phase;
    Facts(s, p);
    FramedLink(s, p, s.links[p].(inEnd := TunnelIn));
  }

  /** Migrating either end changes nothing that is stored. */
  lemma MigrationKeeps(s: System, e: Event)
    requires Inv(s) && Enabled(s, e) && (e.MigrateIn? || e.MigrateOut?)
    ensures Apply(s, e) == s
  {
    hide Inv, Implements, Connected, CanWrite, Available, CanConsume, Drained, AttachedPeers, ImageOf, Restore;
    match e {
      case MigrateIn(p, image) =>
        RestoreImage(image, s.links[p].fifo);
        assert s.links[p := s.links[p]] == s.links;
      case MigrateOut(image) =>
        RestoreImage(image, s.out);
    }
  }

  lemma StepKeeps(s: System, e: Event)
    requires Inv(s) && Enabled(s, e)
    ensures Inv(Apply(s, e))
  {
    hide Inv, Sent, TokenDelivered, ReplyDelivered, Polled, Consumed, Rewound, OneRead, OutDisconnected, Write,
      InAccepted, OkAtOut, OutAccepted, OkAtIn, LocalConnected, OutRenewed, InRenewed, NoStaleRefusal, StillComing,
      CanWrite, CanConsume, Available;
    match e {
      case WriteToken(data) => WriteKeeps(s, data);
      case Send(p, mayNow) => SendKeeps(s, p, mayNow);
      case DeliverToken(p) => DeliverTokenKeeps(s, p);
      case DeliverReply(p) => DeliverReplyKeeps(s, p);
      case Poll(p) => PollKeeps(s, p);
      case Consume(p, k) => ConsumeKeeps(s, p, k);
      case PeekAndRewind(p, k) => RewindKeeps(s, p, k);
      case ReadOne(p) => ReadOneKeeps(s, p);
      case DisconnectOut => DisconnectOutKeeps(s);
      case DisconnectIn(p) => DisconnectInKeeps(s, p);
      case AcceptIn(_) => AttachEventKeeps(s, e);
      case OkToOut(_, _) => AttachEventKeeps(s, e);
      case AcceptOut(_) => AttachEventKeeps(s, e);
      case OkToIn(_, _) => AttachEventKeeps(s, e);
      case ConnectLocal(_) => AttachEventKeeps(s, e);
      case RenewOut(_) => RenewKeeps(s, e);
      case RenewIn(_) => RenewKeeps(s, e);
      case MigrateIn(_, _) => MigrationKeeps(s, e);
      case MigrateOut(_) => MigrationKeeps(s, e);
    }
  }

  lemma InitInv(s: System)
    requires Init(s)
    ensures Inv(s)
  {
    assert s.out.rpos == map[];
    assert s.out.wpos - Slowest(s.out.rpos) < s.out.n;
    forall p | p in s.links
      ensures PeerInv(s, p)
    {
    }
  }

  lemma {:induction false} RunKeeps(s: System, es: seq<Event>, s': System)
    requires Inv(s) && Run(s, es, s')
    ensures Inv(s')
    decreases |es|
  {
    if es != [] {
      StepKeeps(s, es[0]);
      RunKeeps(Apply(s, es[0]), es[1..], s');
    }
  }

  lemma ReachableInv(s: System)
    requires Reachable(s)
    ensures Inv(s)
  {
    var s0, es :| Init(s0) && Run(s0, es, s);
    InitInv(s0);
    RunKeeps(s0, es, s);
  }
}
