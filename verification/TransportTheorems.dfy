/** What holds in every reachable state of Transport: stream semantics, order of the
    acknowledgements, and that no reachable state is a dead end. */
module TransportTheorems {
  import opened Wrappers
  import opened Tokens
  import opened FifoSpec
  import opened EndpointSpec
  import opened Streams
  import opened Transport
  import opened TunnelPhases
  import opened TransportProof

  /** The tokens in the slots of the stretch [lo, hi). */
  function Held(f: FifoState, lo: nat, hi: nat): (ts: seq<Token>)
    requires f.WellFormed() && lo <= hi
    ensures |ts| == hi - lo
  {
    seq(hi - lo, i requires 0 <= i < hi - lo => f.slots[(lo + i) % f.n])
  }

  lemma HeldIsHist(f: FifoState, hist: seq<Token>, from: int, lo: nat, hi: nat)
    requires f.WellFormed() && Retains(f.slots, f.n, f.wpos, hist, from) && from <= lo <= hi <= f.wpos
    ensures Held(f, lo, hi) == hist[lo..hi]
  {
    forall i | 0 <= i < hi - lo
      ensures Held(f, lo, hi)[i] == hist[lo..hi][i]
    {
      assert f.slots[(lo + i) % f.n] == hist[lo + i];
    }
  }

  /** Exactly once and in order: what a consumer has read, what its own FIFO still holds, and
      what the producer's FIFO holds beyond that, are together the whole written stream. */
  lemma StreamIsWhole(s: System, p: PortId)
    requires Reachable(s) && p in s.links
    ensures s.out.WellFormed() && s.links[p].fifo.WellFormed() && p in s.links[p].fifo.rpos
    ensures var l := s.links[p];
            var c, w := l.fifo.rpos[p], l.fifo.wpos;
            && c <= w <= s.out.wpos
            && l.got + Held(l.fifo, c, w) + Held(s.out, w, s.out.wpos) == s.hist
    ensures s.links[p].got <= s.hist
    ensures p in s.out.readers ==> p in s.out.rpos && s.out.rpos[p] <= s.links[p].fifo.wpos
  {
    hide Inv, LinkInv, Implements, Inbox, Retains, Held;
    ReachableInv(s);
    Facts(s, p);
    InboxFacts(s, p);
    InboxHeld(s, p);
    BehindHeld(s, p);
    var c, w := s.links[p].fifo.rpos[p], s.links[p].fifo.wpos;
    assert s.hist[..c] + s.hist[c..w] + s.hist[w..] == s.hist;
  }

  lemma InboxHeld(s: System, p: PortId)
    requires Inv(s) && p in s.links
    ensures var f := s.links[p].fifo;
            f.WellFormed() && p in f.rpos && f.rpos[p] <= f.wpos <= |s.hist|
            && Held(f, f.rpos[p], f.wpos) == s.hist[f.rpos[p]..f.wpos]
  {
    hide Inv;
    InboxFacts(s, p);
    var f := s.links[p].fifo;
    HeldIsHist(f, s.hist, f.rpos[p], f.rpos[p], f.wpos);
  }

  lemma BehindHeld(s: System, p: PortId)
    requires Inv(s) && p in s.links
    ensures s.out.WellFormed() && s.links[p].fifo.wpos <= s.out.wpos == |s.hist|
    ensures Held(s.out, s.links[p].fifo.wpos, s.out.wpos) == s.hist[s.links[p].fifo.wpos..]
  {
    hide LinkInv, Implements, Inbox;
    Facts(s, p);
    InboxFacts(s, p);
    var w := s.links[p].fifo.wpos;
    if s.hist != [] {
      BehindIsRetained(s.out, s.hist, p, w);
    } else {
      assert s.out.n > 0;
    }
    PeerHolds(s.out, s.hist, w);
  }

  lemma BehindIsRetained(f: FifoState, hist: seq<Token>, p: PortId, w: nat)
    requires Implements(f, hist) && p in f.readers && f.rpos[p] <= w
    ensures f.wpos - f.n <= w
  {
  }

  lemma PeerHolds(f: FifoState, hist: seq<Token>, w: nat)
    requires Implements(f, hist) && f.wpos - f.n <= w <= f.wpos
    ensures Held(f, w, f.wpos) == hist[w..]
  {
    HeldIsHist(f, hist, f.wpos - f.n, w, f.wpos);
  }

  /** A consumer's tokens are only ever extended, whatever happens. */
  lemma {:induction false} ConsumedOnlyGrows(s: System, es: seq<Event>, s': System, p: PortId)
    requires Reachable(s) && p in s.links && Run(s, es, s')
    ensures p in s'.links && s.links[p].got <= s'.links[p].got && s.hist <= s'.hist
  {
    ReachableInv(s);
    GrowsAlong(s, es, s', p);
  }

  lemma {:induction false} GrowsAlong(s: System, es: seq<Event>, s': System, p: PortId)
    requires Inv(s) && p in s.links && Run(s, es, s')
    ensures p in s'.links && s.links[p].got <= s'.links[p].got && s.hist <= s'.hist
    decreases |es|
  {
    if es != [] {
      StepKeeps(s, es[0]);
      StepGrows(s, es[0], p);
      GrowsAlong(Apply(s, es[0]), es[1..], s', p);
    }
  }

  lemma StepGrows(s: System, e: Event, p: PortId)
    requires p in s.links && Enabled(s, e)
    ensures var s' := Apply(s, e);
            p in s'.links && s.links[p].got <= s'.links[p].got && s.hist <= s'.hist
  {
    hide Fixed, LocalAvailable, LocalPeekMany, LocalPeek, LocalRead, LocalCommit, LocalRewind, PeekMany,
      Communicate, Reply, RecvToken, Restore, ImageOf, Write, CanWrite, Read, CommitReads, Handed, Unsent;
  }

  // ------------------------------------------------- the sender's bookkeeping

  /** Every ACK that reaches a sender acknowledges exactly its committed position. It moves that
      position by one, to a token the receiver has stored, and leaves nothing in the list. */
  lemma AcksComeInOrder(s: System, p: PortId)
    requires Reachable(s) && p in s.links && s.links[p].outEnd.TunnelOut?
    requires s.links[p].okBack.None? && s.links[p].back != [] && s.links[p].back[0].verdict == Ack
    ensures p in s.out.rpos && s.links[p].back[0].seqnr == s.out.rpos[p] < s.links[p].fifo.wpos
    ensures Enabled(s, DeliverReply(p))
    ensures var s' := ReplyDelivered(s, p);
            && p in s'.out.rpos && s'.out.rpos[p] == s.out.rpos[p] + 1
            && p in s'.links && s'.links[p].outEnd == TunnelOut([], true)
  {
    hide Inv, Implements, Inbox, Phase, ReplyDelivered;
    ReachableInv(s);
    Facts(s, p);
    AckKeeps(s, p);
  }

  lemma LinkReady(s: System, p: PortId)
    requires Inv(s) && p in s.links
    ensures (!s.links[p].outEnd.OutDetached? || s.links[p].inEnd.LocalInEnd?) ==> p in s.out.readers
  {
    hide Implements, Phase, InboxAtRest;
    Facts(s, p);
  }

  /** What keeps a talking, delivering, replying, consuming or disconnecting step from happening
      in a reachable state is only what the source waits for: an attached end, a message, and
      that an OK sent before the message has been taken off the link. */
  lemma GuardsHold(s: System, p: PortId)
    requires Reachable(s) && p in s.links
    ensures CanTalk(s, p) <==> s.links[p].outEnd.TunnelOut?
    ensures CanConsume(s, p) <==> !s.links[p].inEnd.InDetached?
    ensures TokenWaiting(s, p) <==> s.links[p].fwd != [] && s.links[p].okFwd.None?
    ensures ReplyWaiting(s, p) <==> s.links[p].back != [] && s.links[p].okBack.None?
    ensures s.links[p].okFwd.Some? ==> s.links[p].okFwd == Some(0)
    ensures s.links[p].okBack.Some? ==> s.links[p].okBack == Some(0)
    ensures Enabled(s, DisconnectOut)
  {
    hide Inv, CanTalk, CanConsume, TokenWaiting, ReplyWaiting, Available, Connected, CanWrite, Drained, ImageOf,
      NoStaleRefusal, StillComing, Overtaken, Unhindered;
    ReachableInv(s);
    TalkGuards(s, p);
    ConsumeGuard(s, p);
    Facts(s, p);
    forall q | q in AttachedPeers(s)
      ensures q in s.out.readers
    {
      LinkReady(s, q);
    }
  }

  lemma TalkGuards(s: System, p: PortId)
    requires Inv(s) && p in s.links
    ensures CanTalk(s, p) <==> s.links[p].outEnd.TunnelOut?
    ensures TokenWaiting(s, p) <==> s.links[p].fwd != [] && s.links[p].okFwd.None?
    ensures ReplyWaiting(s, p) <==> s.links[p].back != [] && s.links[p].okBack.None?
    ensures s.links[p].okFwd.Some? ==> s.links[p].okFwd == Some(0)
    ensures s.links[p].okBack.Some? ==> s.links[p].okBack == Some(0)
  {
    hide Inv, Implements, Inbox, Phase;
    Facts(s, p);
    LinkReady(s, p);
  }

  lemma ConsumeGuard(s: System, p: PortId)
    requires Inv(s) && p in s.links
    ensures CanConsume(s, p) <==> !s.links[p].inEnd.InDetached?
  {
    hide Inv, Implements, Inbox, Phase, LocalRest, LinkInv;
    InboxFacts(s, p);
    if s.links[p].inEnd.LocalInEnd? {
      LocalCanConsume(s, p);
    }
  }

  // ------------------------------------------------- the order of connecting

  /** While the OK that attaches an inport is on its way, no token of the connection has been
      delivered and no reply has come: its first token still waits behind the OK. */
  lemma OkComesFirst(s: System, p: PortId)
    requires Reachable(s) && p in s.links && s.links[p].okFwd.Some?
    ensures s.links[p].okFwd == Some(0) && s.links[p].back == []
    ensures !TokenWaiting(s, p) && !ReplyWaiting(s, p)
    ensures s.links[p].outEnd.TunnelOut? ==>
              && Committed(s.out, p) + |s.links[p].fwd| == Tentative(s.out, p)
              && forall i :: 0 <= i < |s.links[p].fwd| ==> s.links[p].fwd[i].seqnr == Committed(s.out, p) + i
  {
    hide Implements, Inv, Inbox, Phase;
    ReachableInv(s);
    Facts(s, p);
    var l := s.links[p];
    if l.outEnd.TunnelOut? {
      PhaseFresh(s.out.rpos[p], s.out.tpos[p], l.fifo.wpos, l.fwd);
    }
  }

  // ------------------------------------------------- no dead ends

  /** Both ends attached to the tunnel, and room for at least one token at the receiver. */
  ghost predicate Live(s: System, p: PortId) {
    && Inv(s) && p in s.links && p in s.out.readers
    && s.links[p].outEnd.TunnelOut? && s.links[p].inEnd.TunnelIn?
    && s.links[p].okFwd.None? && s.links[p].okBack.None?
    && s.links[p].fifo.n >= 2
  }

  ghost function Acked(s: System, p: PortId): nat { Committed(s.out, p) }

  lemma {:induction false} RunAppend(s: System, es: seq<Event>, s1: System, es': seq<Event>, s2: System)
    requires Run(s, es, s1) && Run(s1, es', s2)
    ensures Run(s, es + es', s2)
    decreases |es|
  {
    if es == [] {
      assert es + es' == es';
    } else {
      assert (es + es')[1..] == es[1..] + es';
      RunAppend(Apply(s, es[0]), es[1..], s1, es', s2);
    }
  }

  lemma RunOne(s: System, e: Event)
    requires Enabled(s, e)
    ensures Run(s, [e], Apply(s, e))
  {
    assert [e][1..] == [];
  }

  lemma DeliverOne(s: System, p: PortId)
    requires Live(s, p) && s.links[p].fwd != []
    ensures TokenWaiting(s, p)
    ensures var s' := TokenDelivered(s, p);
            && Live(s', p) && s'.hist == s.hist && Acked(s', p) == Acked(s, p)
            && s'.links[p].fwd == s.links[p].fwd[1..]
            && |s'.links[p].back| == |s.links[p].back| + 1
            && (s.links[p].back != [] ==> s'.links[p].back[0] == s.links[p].back[0])
  {
    hide Inv, RecvToken, Implements, Inbox, Phase;
    Facts(s, p);
    DeliverTokenKeeps(s, p);
  }

  lemma {:induction false} DrainTokens(s: System, p: PortId) returns (es: seq<Event>, s': System)
    requires Live(s, p)
    ensures Run(s, es, s') && Live(s', p) && s'.hist == s.hist
    ensures s'.links[p].fwd == [] && Acked(s', p) == Acked(s, p)
    ensures s.links[p].back != [] ==> s'.links[p].back != [] && s'.links[p].back[0] == s.links[p].back[0]
    decreases |s.links[p].fwd|
  {
    hide Inv, TokenDelivered, ReplyDelivered, TokenWaiting, ReplyWaiting;
    if s.links[p].fwd == [] {
      es, s' := [], s;
    } else {
      DeliverOne(s, p);
      RunOne(s, DeliverToken(p));
      var s1 := TokenDelivered(s, p);
      es, s' := DrainTokens(s1, p);
      RunAppend(s, [DeliverToken(p)], s1, es, s');
      es := [DeliverToken(p)] + es;
    }
  }

  lemma ReplyOne(s: System, p: PortId)
    requires Live(s, p) && s.links[p].back != []
    ensures ReplyWaiting(s, p)
    ensures var s' := ReplyDelivered(s, p);
            && Live(s', p) && s'.hist == s.hist
            && s'.links[p].fwd == s.links[p].fwd && s'.links[p].back == s.links[p].back[1..]
            && Acked(s', p) >= Acked(s, p)
            && (s.links[p].back[0].verdict == Ack ==> Acked(s', p) == Acked(s, p) + 1)
  {
    hide Phase, Implements, Inbox;
    Facts(s, p);
    ReplyMoves(s, p);
  }

  lemma ReplyMoves(s: System, p: PortId)
    requires Inv(s) && Answering(s, p)
    ensures var s' := ReplyDelivered(s, p);
            && Inv(s') && s'.out.readers == s.out.readers
            && p in s'.links && s'.links[p].outEnd.TunnelOut?
            && Committed(s'.out, p) >= Committed(s.out, p)
            && (s.links[p].back[0].verdict == Ack ==> Committed(s'.out, p) == Committed(s.out, p) + 1)
  {
    hide Inv, Implements, Inbox, Phase, ReplyAck, LinkInv;
    Facts(s, p);
    ReplyKeeps(s, p);
    match s.links[p].back[0].verdict {
      case Ack => AckKeeps(s, p);
      case Nack => AckedList(s, p); NackMoves(SenderOf(s, p), p, s.links[p].back[0].seqnr);
      case Abort =>
    }
  }

  lemma AckedList(s: System, p: PortId)
    requires Inv(s) && p in s.links && s.links[p].outEnd.TunnelOut?
    ensures s.links[p].outEnd.acked == []
  {
    hide Phase, Implements, Inbox;
    Facts(s, p);
  }

  lemma {:induction false} DrainReplies(s: System, p: PortId) returns (es: seq<Event>, s': System)
    requires Live(s, p) && s.links[p].fwd == []
    ensures Run(s, es, s') && Live(s', p) && s'.hist == s.hist
    ensures Drained(s'.links[p]) && Acked(s', p) >= Acked(s, p)
    ensures s.links[p].back != [] && s.links[p].back[0].verdict == Ack ==> Acked(s', p) > Acked(s, p)
    decreases |s.links[p].back|
  {
    hide Inv, TokenDelivered, ReplyDelivered, TokenWaiting, ReplyWaiting;
    if s.links[p].back == [] {
      es, s' := [], s;
    } else {
      ReplyOne(s, p);
      RunOne(s, DeliverReply(p));
      var s1 := ReplyDelivered(s, p);
      es, s' := DrainReplies(s1, p);
      RunAppend(s, [DeliverReply(p)], s1, es, s');
      es := [DeliverReply(p)] + es;
    }
  }

  lemma Drain(s: System, p: PortId) returns (es: seq<Event>, s': System)
    requires Live(s, p)
    ensures Run(s, es, s') && Live(s', p) && s'.hist == s.hist
    ensures Drained(s'.links[p]) && Acked(s', p) >= Acked(s, p)
    ensures s.links[p].back != [] && s.links[p].back[0].verdict == Ack ==> Acked(s', p) > Acked(s, p)
  {
    hide Inv;
    var es1, s1 := DrainTokens(s, p);
    var es2, s2 := DrainReplies(s1, p);
    RunAppend(s, es1, s1, es2, s2);
    es, s' := es1 + es2, s2;
  }

  /** The consumer can take everything that has arrived. */
  lemma Empty(s: System, p: PortId) returns (es: seq<Event>, s': System)
    requires Live(s, p) && Drained(s.links[p])
    ensures Run(s, es, s') && Live(s', p) && s'.hist == s.hist
    ensures Drained(s'.links[p]) && Acked(s', p) == Acked(s, p)
    ensures p in s'.links[p].fifo.rpos && s'.links[p].fifo.rpos[p] == s'.links[p].fifo.wpos
  {
    hide Inv, LinkInv, Implements, Handed, Retains, Slowest;
    Facts(s, p);
    InboxFacts(s, p);
    var l := s.links[p];
    var k := AvailableTokens(l.fifo, p);
    if k == 0 {
      es, s' := [], s;
    } else {
      EmptyApplied(s, p, k);
      ConsumeKeeps(s, p, k);
      RunOne(s, Consume(p, k));
      es, s' := [Consume(p, k)], Consumed(s, p, k);
    }
  }

  lemma InboxFacts(s: System, p: PortId)
    requires Inv(s) && p in s.links
    ensures var f := s.links[p].fifo;
            && Reads(f, p) && Inbox(f, s.hist, p, f.rpos[p]) && f.tpos[p] == f.rpos[p] <= f.wpos
    ensures Committed(s.out, p) <= s.links[p].fifo.wpos <= |s.hist| == s.out.wpos
    ensures s.links[p].got == s.hist[..s.links[p].fifo.rpos[p]]
  {
    hide Phase, Implements;
    Facts(s, p);
  }

  lemma EmptyApplied(s: System, p: PortId, k: nat)
    requires Live(s, p) && Drained(s.links[p])
    requires Reads(s.links[p].fifo, p) && k == AvailableTokens(s.links[p].fifo, p) > 0
    ensures CanConsume(s, p) && Available(s, p) == k
    ensures var s' := Consumed(s, p, k);
            && s'.out == s.out && s'.hist == s.hist && p in s'.links
            && s'.links[p].outEnd == s.links[p].outEnd && s'.links[p].inEnd == s.links[p].inEnd
            && Drained(s'.links[p]) && s'.links[p].fifo.n == s.links[p].fifo.n
            && p in s'.links[p].fifo.rpos && s'.links[p].fifo.rpos[p] == s'.links[p].fifo.wpos
  {
    InboxFacts(s, p);
    var f := s.links[p].fifo;
    TunnelConsumes(f, s.hist, p, f.rpos[p], k);
    TunnelPeeks(f, s.hist, p, f.rpos[p], k);
    hide Inv, LinkInv, Inbox, Implements, PeekMany, Enabled, Apply;
  }

  /** From s to s' the sender has sent its oldest unacknowledged token, and nothing else has changed. */
  ghost predicate Resumed(s: System, s': System, p: PortId)
    requires p in s.links
  {
    && p in s'.links && s'.hist == s.hist && Acked(s', p) == Acked(s, p)
    && s'.out.readers == s.out.readers && s'.links[p].outEnd.TunnelOut?
    && s'.links[p].inEnd == s.links[p].inEnd && s'.links[p].fifo == s.links[p].fifo
    && s'.links[p].fwd != [] && s'.links[p].fwd[0].seqnr == Acked(s, p) && s'.links[p].back == []
  }

  /** With nothing in flight a sender that has something to send may send, and what it sends
      first is the oldest token not yet acknowledged. */
  lemma QuietMeansReady(s: System, p: PortId)
    requires Live(s, p) && Drained(s.links[p])
    ensures Tentative(s.out, p) == Acked(s, p)
    ensures CanTalk(s, p)
    ensures Acked(s, p) < s.out.wpos ==> Live(Sent(s, p, true), p) && Resumed(s, Sent(s, p, true), p)
  {
    QuietTentative(s, p);
    SendKeeps(s, p, true);
    if Acked(s, p) < s.out.wpos { SendsFirst(s, p); }
  }

  lemma QuietTentative(s: System, p: PortId)
    requires Live(s, p) && Drained(s.links[p])
    ensures CanTalk(s, p) && Tentative(s.out, p) == Acked(s, p)
  {
    hide Phase, Implements, Inbox;
    Facts(s, p);
    var l := s.links[p];
    PhaseQuiet(Acked(s, p), Tentative(s.out, p), l.fifo.wpos, l.outEnd.bulk);
  }

  lemma SendsFirst(s: System, p: PortId)
    requires Live(s, p) && Drained(s.links[p]) && CanTalk(s, p)
    requires Tentative(s.out, p) == Acked(s, p) < s.out.wpos
    ensures Resumed(s, Sent(s, p, true), p)
  {
    hide Inv, Implements, LinkInv, Communicate;
    Facts(s, p);
    CommunicateFirst(SenderOf(s, p), s.hist, p);
    var ms := Communicate(SenderOf(s, p), p, true).1;
    assert s.links[p].fwd + ms == ms;
  }

  lemma CommunicateFirst(snd: Sender, hist: seq<Token>, p: PortId)
    requires Reads(snd.fifo, p) && Implements(snd.fifo, hist)
    requires snd.fifo.rpos[p] == snd.fifo.tpos[p] < snd.fifo.wpos
    ensures var (snd', ms) := Communicate(snd, p, true);
            && ms != [] && ms[0].seqnr == snd.fifo.rpos[p]
            && snd'.fifo.readers == snd.fifo.readers && p in snd'.fifo.rpos
            && snd'.fifo.rpos[p] == snd.fifo.rpos[p]
  {
    hide Implements, SendAll, SendOne;
    Positions(snd.fifo, hist);
    SendsRest(snd.fifo, hist, p);
    SendsNext(snd.fifo, hist, p);
  }

  /** One round over a quiet tunnel gets at least one more token acknowledged. */
  lemma Round(s: System, p: PortId) returns (es: seq<Event>, s': System)
    requires Live(s, p) && Drained(s.links[p]) && Acked(s, p) < s.out.wpos
    requires p in s.links[p].fifo.rpos && s.links[p].fifo.rpos[p] == s.links[p].fifo.wpos
    ensures Run(s, es, s') && Live(s', p) && s'.hist == s.hist
    ensures Drained(s'.links[p]) && Acked(s', p) > Acked(s, p)
  {
    hide Inv, Sent, TokenDelivered, LinkInv, Implements;
    QuietMeansReady(s, p);
    RunOne(s, Send(p, true));
    var s1 := Sent(s, p, true);
    DeliverOne(s1, p);
    RunOne(s1, DeliverToken(p));
    var s2 := TokenDelivered(s1, p);
    EmptyInboxAccepts(s1, p);
    var es3, s3 := Drain(s2, p);
    RunAppend(s1, [DeliverToken(p)], s2, es3, s3);
    RunAppend(s, [Send(p, true)], s1, [DeliverToken(p)] + es3, s3);
    es, s' := [Send(p, true)] + ([DeliverToken(p)] + es3), s3;
  }

  lemma EmptyInboxAccepts(s: System, p: PortId)
    requires Live(s, p) && s.links[p].fwd != [] && s.links[p].back == []
    requires s.links[p].fwd[0].seqnr == Acked(s, p) && TokenWaiting(s, p)
    requires p in s.links[p].fifo.rpos && s.links[p].fifo.rpos[p] == s.links[p].fifo.wpos
    ensures var s' := TokenDelivered(s, p);
            p in s'.links && |s'.links[p].back| == 1 && s'.links[p].back[0].verdict == Ack
  {
    hide Inv, LinkInv, Implements, Inbox, CanWrite, Write;
    InboxFacts(s, p);
    var f := s.links[p].fifo;
    InboxWrites(f, s.hist, p, f.rpos[p], Decode(s.links[p].fwd[0].token));
  }

  lemma HistLength(s: System, s': System)
    requires Inv(s) && Inv(s') && s.hist == s'.hist
    ensures s.out.wpos == s'.out.wpos
  {
    hide PeerInv;
    Positions(s.out, s.hist);
    Positions(s'.out, s'.hist);
  }

  lemma {:induction false} CatchUp(s: System, p: PortId) returns (es: seq<Event>, s': System)
    requires Live(s, p) && Drained(s.links[p]) && Acked(s, p) <= s.out.wpos
    requires p in s.links[p].fifo.rpos && s.links[p].fifo.rpos[p] == s.links[p].fifo.wpos
    ensures Run(s, es, s') && Live(s', p) && s'.hist == s.hist && s'.links[p].got == s.hist
    decreases s.out.wpos - Acked(s, p)
  {
    hide Inv, Enabled, Apply, LinkInv, Implements;
    if Acked(s, p) == s.out.wpos {
      InboxFacts(s, p);
      es, s' := [], s;
    } else {
      var es1, s1 := Round(s, p);
      var es2, s2 := Empty(s1, p);
      HistLength(s, s2);
      InboxFacts(s2, p);
      var es3, s3 := CatchUp(s2, p);
      RunAppend(s1, es2, s2, es3, s3);
      RunAppend(s, es1, s1, es2 + es3, s3);
      es, s' := es1 + (es2 + es3), s3;
    }
  }

  /** Both ends attached to the tunnel, or one of them and the OK for the other on its way. */
  predicate Joined(l: Link) {
    || (l.outEnd.TunnelOut? && Receiving(l))
    || (l.inEnd.TunnelIn? && l.okBack.Some? && l.outEnd.OutDetached? && Unhindered(l))
  }

  /** The OKs on their way, if any, attach what is still missing. */
  lemma Join(s: System, p: PortId) returns (es: seq<Event>, s': System)
    requires Inv(s) && p in s.links && s.links[p].fifo.n >= 2 && Joined(s.links[p])
    ensures Run(s, es, s') && Live(s', p) && s'.hist == s.hist
  {
    hide Inv, Enabled, Apply, Joined, Live;
    var es1, s1 := JoinIn(s, p);
    var es2, s2 := JoinOut(s1, p);
    RunAppend(s, es1, s1, es2, s2);
    es, s' := es1 + es2, s2;
  }

  lemma JoinIn(s: System, p: PortId) returns (es: seq<Event>, s': System)
    requires Inv(s) && p in s.links && s.links[p].fifo.n >= 2 && Joined(s.links[p])
    ensures Run(s, es, s') && Inv(s') && p in s'.links && s'.hist == s.hist && s'.links[p].fifo.n >= 2
    ensures Joined(s'.links[p]) && s'.links[p].okFwd.None?
  {
    hide Inv, Implements, Inbox, Phase;
    Facts(s, p);
    if s.links[p].okFwd.Some? {
      AttachEventKeeps(s, OkToIn(p, true));
      RunOne(s, OkToIn(p, true));
      es, s' := [OkToIn(p, true)], OkAtIn(s, p, true);
    } else {
      es, s' := [], s;
    }
  }

  lemma JoinOut(s: System, p: PortId) returns (es: seq<Event>, s': System)
    requires Inv(s) && p in s.links && s.links[p].fifo.n >= 2 && Joined(s.links[p]) && s.links[p].okFwd.None?
    ensures Run(s, es, s') && Live(s', p) && s'.hist == s.hist
  {
    hide Inv, Implements, Inbox, Phase;
    Facts(s, p);
    if s.links[p].okBack.Some? {
      AttachEventKeeps(s, OkToOut(p, true));
      RunOne(s, OkToOut(p, true));
      es, s' := [OkToOut(p, true)], OkAtOut(s, p, true);
    } else {
      es, s' := [], s;
    }
    LinkReady(s', p);
  }

  /** From every reachable state with both ends attached, or one attached and the OK for the other
      on its way, whatever is in flight and however the exchange got there, the consumer can still
      be brought to have read the whole stream. */
  lemma NoDeadEnds(s: System, p: PortId) returns (es: seq<Event>, s': System)
    requires Reachable(s) && p in s.links && s.links[p].fifo.n >= 2 && Joined(s.links[p])
    ensures Run(s, es, s') && p in s'.links && s'.hist == s.hist && s'.links[p].got == s.hist
  {
    hide Inv, Joined;
    ReachableInv(s);
    var es0, s0 := Join(s, p);
    var es1, s1 := Completes(s0, p);
    RunAppend(s, es0, s0, es1, s1);
    es, s' := es0 + es1, s1;
  }

  lemma Completes(s: System, p: PortId) returns (es: seq<Event>, s': System)
    requires Live(s, p)
    ensures Run(s, es, s') && p in s'.links && s'.hist == s.hist && s'.links[p].got == s.hist
  {
    hide Enabled, Apply, Inv, Implements, Phase, Inbox;
    var es1, s1 := Drain(s, p);
    var es2, s2 := Empty(s1, p);
    InboxFacts(s2, p);
    var es3, s3 := CatchUp(s2, p);
    RunAppend(s1, es2, s2, es3, s3);
    RunAppend(s, es1, s1, es2 + es3, s3);
    es, s' := es1 + (es2 + es3), s3;
  }

  /** The order is needed. Without the OK ahead of it, a token that finds the inport detached is
      answered with ABORT; the inport is attached a moment later, nothing is in flight, and the
      sender never sends the token again, for its tentative position is past it. */
  lemma OvertakenOkIsDeadEnd(s: System, p: PortId, mayNow: bool)
    requires p in s.links && TokenWaiting(s, p) && |s.links[p].fwd| == 1 && s.links[p].back == []
    requires s.links[p].okFwd.None? && s.links[p].okBack.None?
    requires s.links[p].inEnd.InDetached? && s.links[p].outEnd == TunnelOut([], true)
    requires Reads(s.out, p) && s.out.rpos[p] < s.out.tpos[p] == s.out.wpos
    ensures ReplyWaiting(TokenDelivered(s, p), p)
    ensures var s' := OkAtIn(ReplyDelivered(TokenDelivered(s, p), p), p, true);
            && p in s'.links && s'.links[p].inEnd.TunnelIn? && s'.links[p].outEnd == TunnelOut([], true)
            && Drained(s'.links[p]) && CanTalk(s', p) && Sent(s', p, mayNow) == s'
            && Acked(s', p) == s.out.rpos[p] < s'.out.wpos
  {
    hide Fixed, RecvToken, Decode, Slowest;
    var s1 := TokenDelivered(s, p);
    var s2 := ReplyDelivered(s1, p);
    var s3 := OkAtIn(s2, p, true);
    assert s1.links[p].back == [ReplyMsg(s.links[p].fwd[0].seqnr, Abort)];
    assert s3.out == s.out && Drained(s3.links[p]);
    assert SendAll(s3.out, p) == (s3.out, []);
    assert s3.links[p].fwd + [] == s3.links[p].fwd;
  }

  lemma LocalCanConsume(s: System, p: PortId)
    requires Inv(s) && p in s.links && s.links[p].inEnd.LocalInEnd?
    ensures CanConsume(s, p) && Available(s, p) == LocalAvailable(LocalOf(s, p), p).1
  {
    hide Inv, LinkInv, Implements, LocalAvailable, Inbox;
    LocalAtRest(s, p);
  }

  /** Through a local connection one consumption brings the consumer up to date. */
  lemma LocalSeesAll(s: System, p: PortId)
    requires Reachable(s) && p in s.links && s.links[p].inEnd.LocalInEnd?
    ensures CanConsume(s, p) && Available(s, p) == |s.hist| - |s.links[p].got|
    ensures Available(s, p) > 0 ==>
              && Enabled(s, Consume(p, Available(s, p)))
              && var s' := Consumed(s, p, Available(s, p));
                 p in s'.links && s'.links[p].got == s.hist
  {
    hide Inv, Consumed, Enabled, CanConsume, Available, LocalAvailable;
    ReachableInv(s);
    LocalBehind(s, p);
    LocalCanConsume(s, p);
    if Available(s, p) > 0 { LocalTakesAll(s, p); }
  }

  lemma LocalTakesAll(s: System, p: PortId)
    requires Inv(s) && p in s.links && s.links[p].inEnd.LocalInEnd? && CanConsume(s, p)
    requires Available(s, p) == |s.hist| - |s.links[p].got| > 0 && s.links[p].got <= s.hist
    requires p in s.links[p].fifo.rpos && |s.links[p].got| == s.links[p].fifo.rpos[p]
    ensures Enabled(s, Consume(p, Available(s, p)))
    ensures p in Consumed(s, p, Available(s, p)).links
    ensures Consumed(s, p, Available(s, p)).links[p].got == s.hist
  {
    hide Inv, LinkInv, Implements, LocalAvailable, Consumed, LocalRest, Spliced, Retains, CanConsume, Available;
    var k, got := Available(s, p), s.links[p].got;
    ConsumeKeeps(s, p, k);
    assert s.hist[|got|..|got| + k] == s.hist[|got|..];
    assert got + s.hist[|got|..] == s.hist;
  }

  lemma LocalBehind(s: System, p: PortId)
    requires Inv(s) && p in s.links && s.links[p].inEnd.LocalInEnd?
    ensures Positioned(LocalOf(s, p), p)
    ensures LocalAvailable(LocalOf(s, p), p).1 == |s.hist| - |s.links[p].got|
    ensures p in s.links[p].fifo.rpos && |s.links[p].got| == s.links[p].fifo.rpos[p]
    ensures s.links[p].got <= s.hist
  {
    hide Inv, LinkInv, Implements, LocalAvailable, Spliced, Retains;
    LocalAtRest(s, p);
    InboxFacts(s, p);
    LocalAvailableIsRest(LocalOf(s, p), p, s.hist, s.links[p].fifo.rpos[p]);
  }
}
