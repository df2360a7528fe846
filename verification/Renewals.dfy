/** Ends put over ends that are still in place (actorport.py:180-193, portmanager.py:117-190, 445-489): what the
    guards of RenewOut, RenewIn and ConnectLocal in Transport keep out, and what happens without them. */
module Renewals {
  import opened Wrappers
  import opened Tokens
  import opened FifoSpec
  import opened EndpointSpec
  import opened Streams
  import opened Transport
  import opened TunnelPhases
  import opened TransportProof
  import opened TransportTheorems

  /** Both nodes have asked at the same time. When the second OK reaches the outport its end is in place
      already; the new one is the same, and only the OK is gone. */
  lemma CrossingIsNothing(s: System, p: PortId)
    requires Reachable(s) && p in s.links && s.links[p].okBack.Some? && s.links[p].outEnd.TunnelOut?
    ensures Enabled(s, OkToOut(p, true)) && OkAtOut(s, p, true) == WithLink(s, p, s.links[p].(okBack := None))
  {
    hide Inv, LinkInv, Implements, Inbox, Enabled;
    ReachableInv(s);
    Facts(s, p);
    AckedList(s, p);
    LinkReady(s, p);
    FreshBulk(s, p);
    OkArrives(s, p);
  }

  lemma OkArrives(s: System, p: PortId)
    requires p in s.links
    ensures s.links[p].okFwd == Some(0) ==> Enabled(s, OkToIn(p, false))
    ensures s.links[p].okBack == Some(0) && s.links[p].outEnd.TunnelOut? ==> Enabled(s, OkToOut(p, true))
  {
    hide NoStaleRefusal, StillComing, Overtaken, Available, Connected, CanWrite, CanConsume, ImageOf, AttachedPeers;
  }

  /** An end whose OK, or whose peer's, is on its way still sends in bulk. */
  lemma FreshBulk(s: System, p: PortId)
    requires Inv(s) && p in s.links
    ensures OksFirst(s.links[p])
  {
    hide Inv, Implements, Inbox, Phase;
    Facts(s, p);
  }

  // ------------------------------------------------------------------- a lost token

  /** The token with p's committed number r counts as sent, and is nowhere: not on its way, not refused, not
      acknowledged. */
  ghost predicate Stuck(s: System, p: PortId, r: nat) {
    && p in s.links && s.links[p].outEnd.TunnelOut? && !s.links[p].inEnd.LocalInEnd?
    && Reads(s.out, p) && s.out.rpos[p] == r < s.out.tpos[p]
    && r !in s.links[p].outEnd.acked
    && (forall i :: 0 <= i < |s.links[p].fwd| ==> s.links[p].fwd[i].seqnr != r)
    && (forall i :: 0 <= i < |s.links[p].back| ==> s.links[p].back[i].seqnr == r ==> s.links[p].back[i].verdict == Abort)
  }

  /** Reader p's positions are the same in both. */
  predicate Spares(f: FifoState, g: FifoState, p: PortId) {
    Reads(f, p) && Reads(g, p) && g.rpos[p] == f.rpos[p] && g.tpos[p] == f.tpos[p]
  }

  lemma {:induction false} SendAllSpares(f: FifoState, p: PortId, q: PortId)
    requires Reads(f, p) && Reads(f, q) && p != q && f.tpos[q] <= f.wpos
    ensures Spares(f, SendAll(f, q).0, p)
    decreases f.wpos - f.tpos[q]
  {
    if CanRead(f, q) { SendAllSpares(Read(f, q), p, q); }
  }

  lemma {:induction false} DrainSpares(f: FifoState, p: PortId, q: PortId, acked: seq<nat>, pos: nat)
    requires Reads(f, p) && Reads(f, q) && p != q
    ensures Spares(f, DrainAcks(f, q, acked, pos).0, p)
    decreases |acked|
  {
    if pos in acked { DrainSpares(CommitOneRead(f, q, true), p, q, RemoveFirst(acked, pos), pos); }
  }

  lemma {:induction false} RollbackSpares(f: FifoState, p: PortId, q: PortId, nr: nat)
    requires Reads(f, p) && Reads(f, q) && p != q && f.rpos[q] <= nr
    ensures Spares(f, RollbackTo(f, q, nr), p)
    decreases f.tpos[q]
  {
    if f.tpos[q] > nr { RollbackSpares(CommitOneRead(f, q, false), p, q, nr); }
  }

  lemma {:induction false} SkipSpares(mine: FifoState, f: FifoState, p: PortId, q: PortId)
    requires Reads(f, p) && Reads(f, q) && Reads(mine, q) && p != q && f.rpos[q] <= f.tpos[q] <= f.wpos
    ensures Spares(f, SkipDuplicates(mine, f, q), p)
    decreases f.wpos - f.tpos[q]
  {
    if CanRead(f, q) && mine.wpos > f.rpos[q] {
      SkipOnce(mine, f, q);
      SkipSpares(mine, CommitReads(Read(f, q), q, true), p, q);
    }
  }

  lemma FixedSpares(s: LocalIn, p: PortId, q: PortId)
    requires Positioned(s, q) && Reads(s.theirs, p) && p != q
    ensures Spares(s.theirs, Fixed(s, q).theirs, p)
  {
    SkipSpares(s.mine, s.theirs, p, q);
  }

  lemma {:induction false} PeeksSpare(s: LocalIn, p: PortId, q: PortId, k: nat)
    requires Positioned(s, q) && Reads(s.theirs, p) && p != q
    ensures Spares(s.theirs, LocalPeekMany(s, q, k).0.theirs, p)
    decreases k
  {
    hide Fixed, LocalPeekMany, Front;
    if k > 0 {
      FixedSpares(s, p, q);
      PeekManyStep(s, q, k);
      PeeksSpare(LocalPeek(s, q).0, p, q, k - 1);
    } else {
      PeekNothing(s, q);
    }
  }

  /** What happens on another link leaves p's positions alone. */
  lemma SenderSpares(snd: Sender, p: PortId, q: PortId, mayNow: bool, reply: ReplyMsg)
    requires Reads(snd.fifo, p) && Reads(snd.fifo, q) && p != q
    ensures snd.fifo.tpos[q] <= snd.fifo.wpos ==> Spares(snd.fifo, Communicate(snd, q, mayNow).0.fifo, p)
    ensures Spares(snd.fifo, Reply(snd, q, reply).fifo, p)
  {
    hide SendAll, DrainAcks, RollbackTo;
    if snd.fifo.tpos[q] <= snd.fifo.wpos { SendAllSpares(snd.fifo, p, q); }
    var nr := reply.seqnr;
    var acked := if nr < snd.fifo.tpos[q] then snd.acked + [nr] else snd.acked;
    DrainSpares(snd.fifo, p, q, acked, snd.fifo.rpos[q]);
    if snd.fifo.rpos[q] <= nr { RollbackSpares(snd.fifo, p, q, nr); }
  }

  lemma ReadSpares(s: LocalIn, p: PortId, q: PortId)
    requires Positioned(s, q) && Reads(s.theirs, p) && p != q
    ensures Spares(s.theirs, LocalAvailable(s, q).0.theirs, p) && Spares(s.theirs, LocalRead(s, q).0.theirs, p)
  {
    hide Fixed, Front;
    FixedSpares(s, p, q);
  }

  lemma SettleSpares(s: LocalIn, p: PortId, q: PortId)
    requires s.Linked(q) && Reads(s.theirs, p) && p != q
    ensures Spares(s.theirs, LocalCommit(s, q).theirs, p) && Spares(s.theirs, LocalRewind(s, q).theirs, p)
  {
  }

  lemma LocalSpares(s: LocalIn, p: PortId, q: PortId, k: nat)
    requires Positioned(s, q) && Reads(s.theirs, p) && p != q
    ensures Spares(s.theirs, LocalAvailable(s, q).0.theirs, p) && Spares(s.theirs, LocalRead(s, q).0.theirs, p)
    ensures var peeked := LocalPeekMany(LocalAvailable(s, q).0, q, k).0;
            && Spares(s.theirs, LocalCommit(peeked, q).theirs, p) && Spares(s.theirs, LocalRewind(peeked, q).theirs, p)
  {
    hide LocalAvailable, LocalPeekMany, LocalRead, LocalCommit, LocalRewind;
    ReadSpares(s, p, q);
    var polled := LocalAvailable(s, q).0;
    PolledPositioned(s, q);
    PeeksSpare(polled, p, q, k);
    SettleSpares(LocalPeekMany(polled, q, k).0, p, q);
  }

  lemma PolledPositioned(s: LocalIn, q: PortId)
    requires Positioned(s, q)
    ensures Positioned(LocalAvailable(s, q).0, q)
  {
    hide Fixed;
  }

  /** All that is sent from now on has a number from the tentative position on. */
  lemma {:induction false} SendsFrom(f: FifoState, p: PortId)
    requires Reads(f, p) && f.tpos[p] <= f.wpos
    ensures var (g, ms) := SendAll(f, p);
            && g.rpos == f.rpos && g.tpos[p] >= f.tpos[p]
            && forall i :: 0 <= i < |ms| ==> ms[i].seqnr >= f.tpos[p]
    decreases f.wpos - f.tpos[p]
  {
    if CanRead(f, p) { SendsFrom(Read(f, p), p); }
  }

  /** Events that could bring the token back: the outport lets go of its ends, or the ports are on one node. */
  predicate Frees(e: Event, p: PortId) { e == DisconnectOut || e == ConnectLocal(p) }

  lemma SendStaysStuck(s: System, p: PortId, r: nat, q: PortId, mayNow: bool)
    requires Stuck(s, p, r) && CanTalk(s, q)
    ensures Stuck(Sent(s, q, mayNow), p, r)
  {
    hide Communicate;
    if q == p { OwnSend(SenderOf(s, p), p, mayNow); }
    else { SenderSpares(SenderOf(s, q), p, q, mayNow, ReplyMsg(0, Abort)); }
  }

  lemma SentOne(f: FifoState, p: PortId)
    requires Reads(f, p)
    ensures CanRead(f, p) ==>
              var (g, m) := SendOne(f, p);
              Reads(g, p) && g.rpos == f.rpos && g.tpos[p] > f.tpos[p] && m.seqnr == f.tpos[p]
  {
  }

  lemma OwnSend(snd: Sender, p: PortId, mayNow: bool)
    requires Reads(snd.fifo, p) && snd.fifo.tpos[p] <= snd.fifo.wpos
    ensures var (after, ms) := Communicate(snd, p, mayNow);
            && after.acked == snd.acked && Reads(after.fifo, p) && after.fifo.rpos == snd.fifo.rpos
            && after.fifo.tpos[p] >= snd.fifo.tpos[p]
            && forall i :: 0 <= i < |ms| ==> ms[i].seqnr >= snd.fifo.tpos[p]
  {
    hide SendAll, SendOne;
    SendsFrom(snd.fifo, p);
    SentOne(snd.fifo, p);
  }

  /** A reply about any other number moves neither the committed position nor the tentative one below it. */
  lemma OwnReply(snd: Sender, p: PortId, m: ReplyMsg)
    requires Reads(snd.fifo, p) && snd.fifo.rpos[p] < snd.fifo.tpos[p] && snd.fifo.rpos[p] !in snd.acked
    requires m.seqnr == snd.fifo.rpos[p] ==> m.verdict == Abort
    ensures var after := Reply(snd, p, m);
            && Reads(after.fifo, p) && after.fifo.rpos[p] == snd.fifo.rpos[p] < after.fifo.tpos[p]
            && snd.fifo.rpos[p] !in after.acked
  {
    hide RollbackTo;
    var r, t := snd.fifo.rpos[p], snd.fifo.tpos[p];
    if r <= m.seqnr < t { RollbackMoves(snd.fifo, p, m.seqnr); }
  }

  lemma ReplyStaysStuck(s: System, p: PortId, r: nat, q: PortId)
    requires Stuck(s, p, r) && ReplyWaiting(s, q)
    ensures Stuck(ReplyDelivered(s, q), p, r)
  {
    hide Reply;
    if s.links[q].outEnd.TunnelOut? {
      if q == p { OwnReply(SenderOf(s, p), p, s.links[p].back[0]); }
      else { SenderSpares(SenderOf(s, q), p, q, false, s.links[q].back[0]); }
    }
  }

  lemma ConsumeStaysStuck(s: System, p: PortId, r: nat, q: PortId, k: nat)
    requires Stuck(s, p, r) && CanConsume(s, q)
    ensures Stuck(Polled(s, q), p, r) && Stuck(Consumed(s, q, k), p, r)
    ensures Stuck(Rewound(s, q, k), p, r) && Stuck(OneRead(s, q), p, r)
  {
    hide LocalAvailable, LocalPeekMany, LocalCommit, LocalRewind, LocalRead, PeekMany, CommitReads, Read, Front, Handed;
    if s.links[q].inEnd.LocalInEnd? { LocalSpares(LocalOf(s, q), p, q, k); }
  }

  lemma AttachStaysStuck(s: System, p: PortId, r: nat, e: Event)
    requires Stuck(s, p, r) && Enabled(s, e) && !Frees(e, p)
    requires e.AcceptIn? || e.OkToOut? || e.AcceptOut? || e.OkToIn? || e.ConnectLocal? || e.RenewOut? || e.RenewIn?
    ensures Stuck(Apply(s, e), p, r)
  {
    hide NoStaleRefusal, StillComing, Overtaken, Available, Connected, CanWrite, CanConsume, ImageOf, AttachedPeers;
  }

  lemma StepStaysStuck(s: System, p: PortId, r: nat, e: Event)
    requires Stuck(s, p, r) && Enabled(s, e) && !Frees(e, p)
    ensures Stuck(Apply(s, e), p, r)
  {
    hide Sent, TokenDelivered, ReplyDelivered, Polled, Consumed, Rewound, OneRead, OutDisconnected, InAccepted, OkAtOut,
      OutAccepted, OkAtIn, LocalConnected, OutRenewed, InRenewed, NoStaleRefusal, StillComing, Overtaken, CanWrite,
      CanConsume, Available, Stuck, ImageOf, Connected, Drained, Restore, Write;
    match e {
      case WriteToken(data) => WriteStaysStuck(s, p, r, data);
      case Send(q, mayNow) => SendStaysStuck(s, p, r, q, mayNow);
      case DeliverToken(q) => DeliverStaysStuck(s, p, r, q);
      case DeliverReply(q) => ReplyStaysStuck(s, p, r, q);
      case Poll(q) => ConsumeStaysStuck(s, p, r, q, 0);
      case Consume(q, k) => ConsumeStaysStuck(s, p, r, q, k);
      case PeekAndRewind(q, k) => ConsumeStaysStuck(s, p, r, q, k);
      case ReadOne(q) => ConsumeStaysStuck(s, p, r, q, 0);
      case DisconnectOut =>
      case DisconnectIn(q) => ChangeStaysStuck(s, p, r, q, s.links[q].(inEnd := InDetached));
      case AcceptIn(_) => AttachStaysStuck(s, p, r, e);
      case OkToOut(_, _) => AttachStaysStuck(s, p, r, e);
      case AcceptOut(_) => AttachStaysStuck(s, p, r, e);
      case OkToIn(_, _) => AttachStaysStuck(s, p, r, e);
      case ConnectLocal(_) => AttachStaysStuck(s, p, r, e);
      case RenewOut(_) => AttachStaysStuck(s, p, r, e);
      case RenewIn(_) => AttachStaysStuck(s, p, r, e);
      case MigrateIn(q, image) => ChangeStaysStuck(s, p, r, q, s.links[q].(fifo := Restore(image)));
      case MigrateOut(_) => NoMigration(s, p, r);
    }
  }

  lemma NoMigration(s: System, p: PortId, r: nat)
    requires Stuck(s, p, r)
    ensures p in s.links && !s.links[p].outEnd.OutDetached?
  {
  }

  lemma WriteStaysStuck(s: System, p: PortId, r: nat, data: Token)
    requires Stuck(s, p, r) && s.out.WellFormed()
    ensures Stuck(s.(out := Write(s.out, data), hist := s.hist + [data]), p, r)
  {
  }

  lemma DeliverStaysStuck(s: System, p: PortId, r: nat, q: PortId)
    requires Stuck(s, p, r) && TokenWaiting(s, q)
    ensures Stuck(TokenDelivered(s, q), p, r)
  {
    hide RecvToken;
  }

  lemma ChangeStaysStuck(s: System, p: PortId, r: nat, q: PortId, l: Link)
    requires Stuck(s, p, r) && q in s.links
    requires l.outEnd == s.links[q].outEnd && l.fwd == s.links[q].fwd && l.back == s.links[q].back
    requires l.inEnd == s.links[q].inEnd || l.inEnd.InDetached?
    ensures Stuck(WithLink(s, q, l), p, r)
  {
  }

  /** Until the outport disconnects or the ports meet on one node, nothing brings the token back: not new
      tokens, not consumption, not any number of new ends over those in place. The committed position stays
      where it is. */
  lemma {:induction false} StuckForever(s: System, es: seq<Event>, s': System, p: PortId, r: nat)
    requires Stuck(s, p, r) && Run(s, es, s')
    requires forall i :: 0 <= i < |es| ==> !Frees(es[i], p)
    ensures Stuck(s', p, r)
    decreases |es|
  {
    hide Stuck, Enabled, Apply, Frees;
    if es != [] {
      var rest := es[1..];
      StepStaysStuck(s, p, r, es[0]);
      assert forall i :: 0 <= i < |rest| ==> rest[i] == es[i + 1];
      StuckForever(Apply(s, es[0]), rest, s', p, r);
    }
  }

  /** New ends would not help either if they could be put in place without their guards. */
  lemma RenewalsStayStuck(s: System, p: PortId, r: nat)
    requires Stuck(s, p, r)
    ensures Stuck(OutRenewed(s, p), p, r) && Stuck(InRenewed(s, p), p, r)
  {
  }

  /** How a token gets lost: the outport's end is attached and sends; the inport has left the node where the
      OK, and behind it the first token, arrive. */
  lemma LostOkSticks(s: System, p: PortId)
    requires Reachable(s) && p in s.links && s.links[p].okFwd.Some? && s.links[p].fwd != []
    requires s.links[p].outEnd.TunnelOut? && s.links[p].inEnd.InDetached?
    ensures Enabled(s, OkToIn(p, false)) && TokenWaiting(OkAtIn(s, p, false), p)
    ensures Stuck(TokenDelivered(OkAtIn(s, p, false), p), p, Committed(s.out, p))
  {
    hide Inv, LinkInv, Implements, Inbox, TokenDelivered, OkAtIn, Stuck, Enabled;
    ReachableInv(s);
    Facts(s, p);
    AckedList(s, p);
    LinkReady(s, p);
    FreshBulk(s, p);
    OkComesFirst(s, p);
    InboxFacts(s, p);
    LostOkStuck(s, p);
    OkArrives(s, p);
  }

  lemma LostOkStuck(s: System, p: PortId)
    requires p in s.links && s.links[p].okFwd == Some(0) && s.links[p].fwd != [] && s.links[p].back == []
    requires s.links[p].outEnd == TunnelOut([], true) && s.links[p].inEnd.InDetached?
    requires Reads(s.out, p) && s.out.rpos[p] + |s.links[p].fwd| == s.out.tpos[p] && s.links[p].fifo.WellFormed()
    requires forall i :: 0 <= i < |s.links[p].fwd| ==> s.links[p].fwd[i].seqnr == s.out.rpos[p] + i
    ensures TokenWaiting(OkAtIn(s, p, false), p)
    ensures Stuck(TokenDelivered(OkAtIn(s, p, false), p), p, s.out.rpos[p])
  {
    hide RecvToken;
  }

  /** With nothing in flight there are the two cases: nothing is tentative, and a new inport end is sound and
      can be brought up to date; or the token at the committed position is lost for good. */
  lemma QuietRenewal(s: System, p: PortId)
    requires Inv(s) && p in s.links && s.links[p].outEnd.TunnelOut? && s.links[p].inEnd.InDetached?
    requires Drained(s.links[p])
    ensures Tentative(s.out, p) == Committed(s.out, p) ==>
              Enabled(s, RenewIn(p)) && Inv(InRenewed(s, p)) && Joined(InRenewed(s, p).links[p])
    ensures Tentative(s.out, p) != Committed(s.out, p) ==>
              !Enabled(s, RenewIn(p)) && Stuck(s, p, Committed(s.out, p)) && Stuck(InRenewed(s, p), p, Committed(s.out, p))
  {
    hide Inv, Implements, Inbox, Phase;
    Facts(s, p);
    AckedList(s, p);
    LinkReady(s, p);
    RenewInIff(s, p);
  }

  // ------------------------------------------------------------------- acknowledgements listed twice

  function Copies(acked: seq<nat>, x: nat): nat {
    if acked == [] then 0 else (if acked[0] == x then 1 else 0) + Copies(acked[1..], x)
  }

  lemma {:induction false} CopiesLeft(acked: seq<nat>, x: nat)
    ensures x in acked <==> Copies(acked, x) > 0
    ensures x in acked ==> Copies(RemoveFirst(acked, x), x) == Copies(acked, x) - 1
  {
    if acked != [] {
      CopiesLeft(acked[1..], x);
      assert acked == [acked[0]] + acked[1..];
      if acked[0] != x && x in acked {
        assert RemoveFirst(acked, x)[1..] == RemoveFirst(acked[1..], x);
      }
    }
  }

  lemma MinFacts(r: nat, k: nat, t: nat)
    ensures r <= t ==> Min(r + 0, t) == r
    ensures r < t && k > 0 ==> Min(r + 1 + (k - 1), t) == Min(r + k, t)
    ensures r == t ==> Min(r + k, t) == t && Min(r + k - 1, t) == if k > 0 then t else t - 1
    ensures Min(r + k, t) <= t
  {
  }

  /** The loop over the list reads the committed position once, before it: it takes one step for each copy of
      that number, however many tokens have been acknowledged. */
  lemma {:induction false} DrainTakesCopies(f: FifoState, p: PortId, acked: seq<nat>, pos: nat)
    requires Reads(f, p) && f.rpos[p] <= f.tpos[p]
    ensures DrainAcks(f, p, acked, pos).0 == At(f, p, Min(f.rpos[p] + Copies(acked, pos), f.tpos[p]), f.tpos[p])
    decreases |acked|
  {
    hide Copies, Min;
    CopiesLeft(acked, pos);
    MinFacts(f.rpos[p], Copies(acked, pos), f.tpos[p]);
    if pos in acked {
      var g := CommitOneRead(f, p, true);
      DrainTakesCopies(g, p, RemoveFirst(acked, pos), pos);
      if f.rpos[p] < f.tpos[p] {
        AtAt(f, p, f.rpos[p] + 1, f.tpos[p], Min(f.rpos[p] + Copies(acked, pos), f.tpos[p]), f.tpos[p]);
        assert g.tpos[p := g.tpos[p]] == g.tpos;
      } else {
        AtSelf(f, p);
      }
    } else {
      AtSelf(f, p);
    }
  }

  /** An ACK of the committed position moves it by exactly one, if and only if the number is not listed
      already, or nothing else has been sent. With a copy listed, a token nobody acknowledged is committed. */
  lemma AckMovesOneIff(snd: Sender, p: PortId)
    requires Reads(snd.fifo, p) && snd.fifo.rpos[p] < snd.fifo.tpos[p]
    ensures var r := snd.fifo.rpos[p];
            && Reads(ReplyAck(snd, p, r).fifo, p)
            && (ReplyAck(snd, p, r).fifo.rpos[p] == r + 1 <==> r !in snd.acked || snd.fifo.tpos[p] == r + 1)
  {
    var r := snd.fifo.rpos[p];
    DrainTakesCopies(snd.fifo, p, snd.acked + [r], r);
    CopiesLeft(snd.acked, r);
    CopiesLast(snd.acked, r);
  }

  lemma {:induction false} CopiesLast(acked: seq<nat>, x: nat)
    ensures Copies(acked + [x], x) == Copies(acked, x) + 1
  {
    if acked == [] {
      assert [x][1..] == [];
    } else {
      assert (acked + [x])[1..] == acked[1..] + [x];
      CopiesLast(acked[1..], x);
    }
  }
}
