/** The endpoint objects of endpoint.py, updated in place, against EndpointSpec. */
module Endpoints {
  import opened Wrappers
  import opened Tokens
  import opened FifoSpec
  import opened FifoBuffer
  import E = EndpointSpec

  class TunnelOutEndpoint {
    const fifo: Fifo
    const peerId: PortId
    var acked: seq<nat>
    var bulk: bool

    ghost predicate Valid()
      reads this, fifo, fifo.slots
    {
      E.Reads(fifo.View(), peerId)
    }

    ghost function View(): E.Sender
      reads this, fifo, fifo.slots
    {
      E.Sender(fifo.View(), acked, bulk)
    }

    constructor (fifo: Fifo, peerId: PortId)
      requires E.Reads(fifo.View(), peerId)
      ensures Valid() && this.fifo == fifo && this.peerId == peerId
      ensures View() == E.Sender(old(fifo.View()), [], true)
    {
      this.fifo := fifo;
      this.peerId := peerId;
      acked := [];
      bulk := true;
    }

    method Reply(r: E.ReplyMsg)
      requires Valid()
      modifies this, fifo
      ensures Valid() && fifo.slots == old(fifo.slots)
      ensures View() == E.Reply(old(View()), peerId, r)
    {
      match r.verdict
      case Ack => ReplyAck(r.seqnr);
      case Nack => ReplyNack(r.seqnr);
      case Abort =>
    }

    method ReplyAck(nr: nat)
      requires Valid()
      modifies this, fifo
      ensures Valid() && fifo.slots == old(fifo.slots)
      ensures View() == E.ReplyAck(old(View()), peerId, nr)
    {
      var sent := fifo.tpos[peerId];
      var pos := fifo.rpos[peerId];
      bulk := true;
      if nr < sent {
        acked := acked + [nr];
      }
      while pos in acked
        invariant Valid() && fifo.slots == old(fifo.slots) && bulk
        invariant E.DrainAcks(fifo.View(), peerId, acked, pos)
               == E.DrainAcks(old(fifo.View()), peerId,
                              if nr < sent then old(acked) + [nr] else old(acked), pos)
        decreases |acked|
      {
        var _ := fifo.CommitOneRead(peerId, true);
        acked := E.RemoveFirst(acked, pos);
      }
    }

    method ReplyNack(nr: nat)
      requires Valid()
      modifies this, fifo
      ensures Valid() && fifo.slots == old(fifo.slots)
      ensures View() == E.ReplyNack(old(View()), peerId, nr)
    {
      var sent := fifo.tpos[peerId];
      var pos := fifo.rpos[peerId];
      bulk := false;
      if nr < sent && nr >= pos {
        acked := E.Below(acked, nr);
        while fifo.tpos[peerId] > nr
          invariant Valid() && fifo.slots == old(fifo.slots) && !bulk
          invariant acked == E.Below(old(acked), nr)
          invariant fifo.rpos[peerId] == pos
          invariant E.RollbackTo(fifo.View(), peerId, nr) == E.RollbackTo(old(fifo.View()), peerId, nr)
          decreases fifo.tpos[peerId]
        {
          var _ := fifo.CommitOneRead(peerId, false);
        }
      }
    }

    method SendOneToken() returns (m: E.TokenMsg)
      requires Valid() && FifoSpec.CanRead(fifo.View(), peerId)
      modifies fifo
      ensures Valid() && fifo.slots == old(fifo.slots)
      ensures (fifo.View(), m) == E.SendOne(old(fifo.View()), peerId)
    {
      var token := fifo.Read(peerId);
      m := E.TokenMsg(fifo.tpos[peerId] - 1, Encode(token.value.value));
    }

    /** Returns the messages handed to the tunnel, in order. */
    method Communicate(mayNow: bool) returns (sent: seq<E.TokenMsg>)
      requires Valid() && fifo.tpos[peerId] <= fifo.wpos
      modifies fifo
      ensures Valid() && fifo.slots == old(fifo.slots)
      ensures (View(), sent) == E.Communicate(old(View()), peerId, mayNow)
    {
      hide E.SendAll;
      sent := [];
      if bulk {
        while fifo.tpos[peerId] != fifo.wpos
          invariant Valid() && fifo.slots == old(fifo.slots)
          invariant fifo.tpos[peerId] <= fifo.wpos
          invariant var all := E.SendAll(old(fifo.View()), peerId);
                    var rest := E.SendAll(fifo.View(), peerId);
                    all.0 == rest.0 && all.1 == sent + rest.1
          decreases fifo.wpos - fifo.tpos[peerId]
        {
          E.SendAllStep(fifo.View(), peerId);
          ghost var rest := E.SendAll(E.SendOne(fifo.View(), peerId).0, peerId).1;
          var m := SendOneToken();
          assert sent + ([m] + rest) == sent + [m] + rest;
          sent := sent + [m];
        }
        E.SendAllStep(fifo.View(), peerId);
        assert sent + [] == sent;
      } else if fifo.tpos[peerId] != fifo.wpos && fifo.tpos[peerId] == fifo.rpos[peerId] && mayNow {
        var m := SendOneToken();
        sent := [m];
      }
    }
  }

  class TunnelInEndpoint {
    const fifo: Fifo
    const portId: PortId

    ghost predicate Valid()
      reads this, fifo, fifo.slots
    {
      E.Reads(fifo.View(), portId)
    }

    constructor (fifo: Fifo, portId: PortId)
      requires E.Reads(fifo.View(), portId)
      ensures Valid() && this.fifo == fifo && this.portId == portId
    {
      this.fifo := fifo;
      this.portId := portId;
    }

    /** Returns the reply handed to the tunnel. */
    method RecvToken(m: E.TokenMsg) returns (reply: E.ReplyMsg)
      requires Valid()
      modifies fifo, fifo.slots
      ensures Valid() && fifo.slots == old(fifo.slots)
      ensures fifo.View() == E.RecvToken(old(fifo.View()), m).0
      ensures reply == E.ReplyMsg(m.seqnr, E.RecvToken(old(fifo.View()), m).1)
    {
      var ok := false;
      var space := fifo.CanWrite();
      if space && fifo.wpos == m.seqnr {
        var _ := fifo.Write(Decode(m.token));
        ok := true;
      } else if fifo.wpos > m.seqnr {
        ok := true;
      }
      reply := E.ReplyMsg(m.seqnr, if ok then E.Ack else E.Nack);
    }

    method ReadToken() returns (token: Option<Token>)
      requires Valid()
      modifies fifo
      ensures Valid() && fifo.slots == old(fifo.slots)
      ensures token == Front(old(fifo.View()), portId)
      ensures fifo.View() == CommitReads(Read(old(fifo.View()), portId), portId, token.Some?)
    {
      var r := fifo.Read(portId);
      token := r.value;
      var _ := fifo.CommitReads(portId, token != None);
    }

    method PeekToken() returns (token: Option<Token>)
      requires Valid()
      modifies fifo
      ensures Valid() && fifo.slots == old(fifo.slots)
      ensures token == Front(old(fifo.View()), portId)
      ensures fifo.View() == Read(old(fifo.View()), portId)
    {
      var r := fifo.Read(portId);
      token := r.value;
    }

    method PeekRewind()
      requires Valid()
      modifies fifo
      ensures Valid() && fifo.slots == old(fifo.slots)
      ensures fifo.View() == CommitReads(old(fifo.View()), portId, false)
    {
      var _ := fifo.RollbackReads(portId);
    }

    method CommitPeekAsRead()
      requires Valid()
      modifies fifo
      ensures Valid() && fifo.slots == old(fifo.slots)
      ensures fifo.View() == CommitReads(old(fifo.View()), portId, true)
    {
      var _ := fifo.CommitReads(portId);
    }

    method AvailableTokens() returns (k: int)
      requires Valid()
      ensures k == FifoSpec.AvailableTokens(fifo.View(), portId)
    {
      var r := fifo.AvailableTokens(portId);
      k := r.value;
    }
  }

  class LocalInEndpoint {
    const mine: Fifo
    const theirs: Fifo
    const me: PortId
    var dataInLocal: bool
    var mismatch: bool

    ghost predicate Valid()
      reads this, mine, mine.slots, theirs, theirs.slots
    {
      mine != theirs && E.Positioned(View(), me)
    }

    ghost function View(): E.LocalIn
      reads this, mine, mine.slots, theirs, theirs.slots
    {
      E.LocalIn(mine.View(), theirs.View(), dataInLocal, mismatch)
    }

    constructor (mine: Fifo, theirs: Fifo, me: PortId)
      requires mine != theirs && E.Positioned(E.LocalIn(mine.View(), theirs.View(), true, true), me)
      ensures Valid() && this.mine == mine && this.theirs == theirs && this.me == me
      ensures View() == E.LocalIn(old(mine.View()), old(theirs.View()), true, true)
    {
      this.mine := mine;
      this.theirs := theirs;
      this.me := me;
      dataInLocal := true;
      mismatch := true;
    }

    /** The `if self.fifo_mismatch` test every reading method starts with. */
    method MismatchFix()
      requires Valid()
      modifies this`mismatch, theirs
      ensures Valid() && theirs.slots == old(theirs.slots)
      ensures View() == E.Fixed(old(View()), me)
    {
      if !mismatch { return; }
      while theirs.tpos[me] != theirs.wpos && mine.wpos > theirs.rpos[me]
        invariant Valid() && theirs.slots == old(theirs.slots) && mine.View() == old(mine.View())
        invariant E.SkipDuplicates(mine.View(), theirs.View(), me)
               == E.SkipDuplicates(mine.View(), old(theirs.View()), me)
        decreases theirs.wpos - theirs.tpos[me]
      {
        SkipOne();
      }
      E.SkipOnce(mine.View(), theirs.View(), me);
      mismatch := false;
    }

    /** A token of the peer's FIFO that the inport has already. */
    method SkipOne()
      requires Valid() && CanRead(theirs.View(), me) && mine.wpos > theirs.rpos[me]
      modifies theirs
      ensures Valid() && theirs.slots == old(theirs.slots) && mine.View() == old(mine.View())
      ensures E.SkipDuplicates(mine.View(), theirs.View(), me) == old(E.SkipDuplicates(mine.View(), theirs.View(), me))
      ensures theirs.wpos == old(theirs.wpos) && theirs.tpos[me] == old(theirs.tpos[me]) + 1
    {
      hide E.SkipDuplicates;
      E.SkipOnce(mine.View(), theirs.View(), me);
      var _ := theirs.Read(me);
      var _ := theirs.CommitReads(me, true);
    }

    method SyncLocalFifos()
      requires Valid()
      modifies mine
      ensures Valid() && mine.slots == old(mine.slots)
      ensures View() == E.Synced(old(View()), me)
    {
      mine.wpos := theirs.rpos[me];
      mine.rpos := mine.rpos[me := mine.wpos];
      mine.tpos := mine.tpos[me := mine.wpos];
    }

    method ReadToken() returns (token: Option<Token>)
      requires Valid()
      modifies this, mine, theirs
      ensures Valid() && mine.slots == old(mine.slots) && theirs.slots == old(theirs.slots)
      ensures (View(), token) == E.LocalRead(old(View()), me)
    {
      MismatchFix();
      if dataInLocal {
        token := ReadOwn();
        if token.Some? {
          return;
        }
        dataInLocal := false;
      }
      token := ReadPeer();
    }

    /** The part of `read_token` that works on the inport's own FIFO. */
    method ReadOwn() returns (token: Option<Token>)
      requires Valid()
      modifies mine
      ensures Valid() && mine.slots == old(mine.slots)
      ensures token == Front(old(mine.View()), me)
      ensures View() == if token.None? then old(View())
                        else old(View()).(mine := CommitReads(Read(old(mine.View()), me), me, true))
    {
      var own := mine.Read(me);
      token := own.value;
      if token.Some? {
        var _ := mine.CommitReads(me, true);
      }
    }

    /** The part of `read_token` that works on the peer's FIFO. */
    method ReadPeer() returns (token: Option<Token>)
      requires Valid()
      modifies mine, theirs
      ensures Valid() && mine.slots == old(mine.slots) && theirs.slots == old(theirs.slots)
      ensures token == Front(old(theirs.View()), me)
      ensures View() == E.Synced(old(View()).(theirs :=
                          CommitReads(Read(old(theirs.View()), me), me, token.Some?)), me)
    {
      var r := theirs.Read(me);
      token := r.value;
      var _ := theirs.CommitReads(me, token != None);
      SyncLocalFifos();
    }

    method PeekToken() returns (token: Option<Token>)
      requires Valid()
      modifies this`mismatch, mine, theirs
      ensures Valid() && mine.slots == old(mine.slots) && theirs.slots == old(theirs.slots)
      ensures (View(), token) == E.LocalPeek(old(View()), me)
    {
      hide E.Fixed, E.SkipDuplicates;
      MismatchFix();
      if dataInLocal {
        var own := mine.Read(me);
        if own.value.Some? {
          return own.value;
        }
      }
      var r := theirs.Read(me);
      token := r.value;
    }

    method PeekRewind()
      requires Valid()
      modifies mine, theirs
      ensures Valid() && mine.slots == old(mine.slots) && theirs.slots == old(theirs.slots)
      ensures View() == E.LocalRewind(old(View()), me)
    {
      if dataInLocal {
        var _ := mine.RollbackReads(me);
      }
      var _ := theirs.RollbackReads(me);
    }

    method CommitPeekAsRead()
      requires Valid()
      modifies this`dataInLocal, mine, theirs
      ensures Valid() && mine.slots == old(mine.slots) && theirs.slots == old(theirs.slots)
      ensures View() == E.LocalCommit(old(View()), me)
    {
      if dataInLocal {
        var _ := mine.CommitReads(me);
        var more := mine.CanRead(me);
        if more.value {
          return;
        }
        dataInLocal := false;
      }
      var _ := theirs.CommitReads(me);
      SyncLocalFifos();
    }

    method AvailableTokens() returns (k: int)
      requires Valid()
      modifies this, theirs
      ensures Valid() && theirs.slots == old(theirs.slots)
      ensures (View(), k) == E.LocalAvailable(old(View()), me)
    {
      MismatchFix();
      k := 0;
      if dataInLocal {
        var own := mine.AvailableTokens(me);
        k := own.value;
        if k == 0 {
          dataInLocal := false;
        }
      }
      var rest := theirs.AvailableTokens(me);
      k := k + rest.value;
    }
  }
}
