/** An actor and its ports, attached and detached in place (actor.py:473-518, actorport.py:70-212). */
module ActorPorts {
  import opened Wrappers
  import opened PortStates

  class Actor {
    var status: Status
    /** The peer of each inport's endpoint; none for the endpoint of an unconnected port. */
    var ins: seq<Option<PortId>>
    var outs: seq<OutEnd>

    ghost function View(): Ports
      reads this
    {
      Ports(status, ins, outs)
    }

    constructor (inports: nat, fanouts: seq<nat>)
      ensures Sound(View()) && status == Loaded && |ins| == inports && |outs| == |fanouts|
      ensures forall q :: 0 <= q < |outs| ==> outs[q] == OutEnd(fanouts[q], [], {})
    {
      status := Loaded;
      ins := seq(inports, _ => None);
      outs := seq(|fanouts|, q requires 0 <= q < |fanouts| => OutEnd(fanouts[q], [], {}));
    }

    method DidConnect()
      modifies `status
      ensures View() == PortStates.DidConnect(old(View()))
    {
      if status.Ready? { status := Pending; }
      var p := 0;
      while p < |ins|
        invariant 0 <= p <= |ins| && forall k :: 0 <= k < p ==> ins[k].Some?
      {
        if ins[p].None? { return; }
        p := p + 1;
      }
      var q := 0;
      while q < |outs|
        invariant 0 <= q <= |outs| && forall k :: 0 <= k < q ==> OutConnected(outs[k])
      {
        if !OutConnected(outs[q]) { return; }
        q := q + 1;
      }
      status := Enabled;
    }

    method DidDisconnect()
      modifies `status
      ensures View() == PortStates.DidDisconnect(old(View()))
    {
      if status.Enabled? { status := Pending; }
      var p := 0;
      while p < |ins|
        invariant 0 <= p <= |ins| && forall k :: 0 <= k < p ==> ins[k].None?
      {
        if ins[p].Some? { return; }
        p := p + 1;
      }
      var q := 0;
      while q < |outs|
        invariant 0 <= q <= |outs| && forall k :: 0 <= k < q ==> !OutConnected(outs[k])
      {
        if OutConnected(outs[q]) { return; }
        q := q + 1;
      }
      status := Ready;
    }

    method AttachIn(p: nat, peer: PortId)
      requires p < |ins|
      modifies this
      ensures View() == Step(old(View()), Event.AttachIn(p, peer))
    {
      ghost var s := View();
      if ins[p].Some? { DetachIn(p, ins[p].value); }
      ins := ins[p := Some(peer)];
      assert ins == s.ins[p := Some(peer)];
      DidConnect();
    }

    method DetachIn(p: nat, peer: PortId)
      requires p < |ins|
      modifies this
      ensures View() == Step(old(View()), Event.DetachIn(p, peer))
    {
      if ins[p] != Some(peer) { return; }
      DidDisconnect();
      ins := ins[p := None];
    }

    method DisconnectIn(p: nat)
      requires p < |ins|
      modifies this
      ensures View() == Step(old(View()), Event.DisconnectIn(p))
    {
      DidDisconnect();
      ins := ins[p := None];
    }

    method AttachOut(q: nat, peer: PortId)
      requires q < |outs|
      modifies this
      ensures View() == Step(old(View()), Event.AttachOut(q, peer))
    {
      DetachOut(q, peer);
      var o := outs[q];
      outs := outs[q := o.(peers := o.peers + [peer], readers := o.readers + {peer})];
      DidConnect();
    }

    method DetachOut(q: nat, peer: PortId)
      requires q < |outs|
      modifies this
      ensures View() == Step(old(View()), Event.DetachOut(q, peer))
    {
      if peer !in outs[q].peers { return; }
      DidDisconnect();
      outs := outs[q := outs[q].(peers := Without(outs[q].peers, peer))];
    }

    /** Every endpoint of the port goes. */
    method DisconnectOut(q: nat)
      requires q < |outs|
      modifies this
      ensures View() == Step(old(View()), Event.DisconnectOut(q))
    {
      DidDisconnect();
      outs := outs[q := outs[q].(peers := [])];
    }
  }
}
