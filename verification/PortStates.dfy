/** Ports being attached and detached, and the actor's status that follows (actor.py:473-518,
    actorport.py:94-113, 166-212). */
module PortStates {
  import opened Wrappers

  type PortId = string

  datatype Status = Loaded | Ready | Pending | Enabled

  /** An outport: how many peers it is to have, the peers of its endpoints, and its FIFO's readers. */
  datatype OutEnd = OutEnd(fanout: nat, peers: seq<PortId>, readers: set<PortId>)

  /** An actor's status and ports; an inport has the peer of its endpoint, or none. */
  datatype Ports = Ports(status: Status, ins: seq<Option<PortId>>, outs: seq<OutEnd>)

  predicate OutConnected(o: OutEnd) { |o.peers| >= o.fanout }

  predicate AllConnected(s: Ports) {
    && (forall p :: 0 <= p < |s.ins| ==> s.ins[p].Some?)
    && (forall q :: 0 <= q < |s.outs| ==> OutConnected(s.outs[q]))
  }

  predicate NoneConnected(s: Ports) {
    && (forall p :: 0 <= p < |s.ins| ==> s.ins[p].None?)
    && (forall q :: 0 <= q < |s.outs| ==> !OutConnected(s.outs[q]))
  }

  function DidConnect(s: Ports): Ports {
    var s1 := if s.status.Ready? then s.(status := Pending) else s;
    if AllConnected(s1) then s1.(status := Enabled) else s1
  }

  function DidDisconnect(s: Ports): Ports {
    var s1 := if s.status.Enabled? then s.(status := Pending) else s;
    if NoneConnected(s1) then s1.(status := Ready) else s1
  }

  /** Without the first occurrence of x. */
  function Without(xs: seq<PortId>, x: PortId): (r: seq<PortId>)
    ensures forall i :: 0 <= i < |r| ==> r[i] in xs
    ensures x in xs ==> |r| == |xs| - 1
    ensures x !in xs ==> r == xs
  {
    if xs == [] then [] else if xs[0] == x then xs[1..] else [xs[0]] + Without(xs[1..], x)
  }

  datatype Event =
    | AttachIn(p: nat, peer: PortId) | DetachIn(p: nat, peer: PortId) | DisconnectIn(p: nat)
    | AttachOut(q: nat, peer: PortId) | DetachOut(q: nat, peer: PortId) | DisconnectOut(q: nat)

  function InDetached(s: Ports, p: nat, peer: PortId): Ports
    requires p < |s.ins|
  {
    if s.ins[p] != Some(peer) then s else DidDisconnect(s).(ins := s.ins[p := None])
  }

  function InAttached(s: Ports, p: nat, peer: PortId): Ports
    requires p < |s.ins|
  {
    var s1 := if s.ins[p].Some? then InDetached(s, p, s.ins[p].value) else s;
    DidConnect(s1.(ins := s.ins[p := Some(peer)]))
  }

  function InDisconnected(s: Ports, p: nat): Ports
    requires p < |s.ins|
  {
    DidDisconnect(s).(ins := s.ins[p := None])
  }

  function WithPeers(s: Ports, q: nat, peers: seq<PortId>): Ports
    requires q < |s.outs|
  {
    s.(outs := s.outs[q := s.outs[q].(peers := peers)])
  }

  function OutDetached(s: Ports, q: nat, peer: PortId): Ports
    requires q < |s.outs|
  {
    if peer !in s.outs[q].peers then s else WithPeers(DidDisconnect(s), q, Without(s.outs[q].peers, peer))
  }

  function OutAttached(s: Ports, q: nat, peer: PortId): Ports
    requires q < |s.outs|
  {
    var s1 := OutDetached(s, q, peer);
    var o := s1.outs[q];
    DidConnect(s1.(outs := s1.outs[q := o.(peers := o.peers + [peer], readers := o.readers + {peer})]))
  }

  function OutDisconnected(s: Ports, q: nat): Ports
    requires q < |s.outs|
  {
    WithPeers(DidDisconnect(s), q, [])
  }

  predicate Addresses(s: Ports, e: Event) {
    if e.AttachIn? || e.DetachIn? || e.DisconnectIn? then e.p < |s.ins| else e.q < |s.outs|
  }

  function Step(s: Ports, e: Event): Ports
    requires Addresses(s, e)
  {
    match e
    case AttachIn(p, peer) => InAttached(s, p, peer)
    case DetachIn(p, peer) => InDetached(s, p, peer)
    case DisconnectIn(p) => InDisconnected(s, p)
    case AttachOut(q, peer) => OutAttached(s, q, peer)
    case DetachOut(q, peer) => OutDetached(s, q, peer)
    case DisconnectOut(q) => OutDisconnected(s, q)
  }

  // ------------------------------------------------------------ what every run keeps

  predicate NoTwice(xs: seq<PortId>) { forall i, j :: 0 <= i < j < |xs| ==> xs[i] != xs[j] }

  predicate OutSound(o: OutEnd) {
    NoTwice(o.peers) && forall i :: 0 <= i < |o.peers| ==> o.peers[i] in o.readers
  }

  predicate Sound(s: Ports) {
    && (s.status.Enabled? ==> AllConnected(s))
    && (forall q :: 0 <= q < |s.outs| ==> OutSound(s.outs[q]))
  }

  lemma {:induction false} WithoutKeeps(xs: seq<PortId>, x: PortId)
    requires NoTwice(xs)
    ensures NoTwice(Without(xs, x)) && x !in Without(xs, x)
    decreases |xs|
  {
    if xs != [] && xs[0] != x {
      WithoutKeeps(xs[1..], x);
      assert xs[0] !in xs[1..];
    }
  }

  lemma DidDisconnectIs(s: Ports)
    ensures DidDisconnect(s) == s.(status := DidDisconnect(s).status) && !DidDisconnect(s).status.Enabled?
  {
  }

  lemma DidConnectIs(s: Ports)
    ensures DidConnect(s) == s.(status := DidConnect(s).status)
    ensures DidConnect(s).status.Enabled? ==> AllConnected(s) || s.status.Enabled?
    ensures AllConnected(DidConnect(s)) <==> AllConnected(s)
  {
  }

  lemma DetachKeepsSound(s: Ports, q: nat, peer: PortId)
    requires Sound(s) && q < |s.outs|
    ensures var t := OutDetached(s, q, peer);
            && Sound(t) && |t.ins| == |s.ins| && |t.outs| == |s.outs| && peer !in t.outs[q].peers
            && (forall k :: 0 <= k < |s.outs| ==> t.outs[k].fanout == s.outs[k].fanout && t.outs[k].readers == s.outs[k].readers)
            && (t.status.Enabled? ==> t == s)
  {
    hide NoneConnected;
    WithoutKeeps(s.outs[q].peers, peer);
    DidDisconnectIs(s);
    if peer in s.outs[q].peers {
      var t := OutDetached(s, q, peer);
      assert OutSound(t.outs[q]);
    }
  }

  lemma AppendKeepsSound(s: Ports, q: nat, peer: PortId)
    requires Sound(s) && q < |s.outs| && peer !in s.outs[q].peers
    ensures var o := s.outs[q];
            var t := s.(outs := s.outs[q := o.(peers := o.peers + [peer], readers := o.readers + {peer})]);
            && Sound(DidConnect(t)) && DidConnect(t) == t.(status := DidConnect(t).status)
  {
    var o := s.outs[q];
    var t := s.(outs := s.outs[q := o.(peers := o.peers + [peer], readers := o.readers + {peer})]);
    DidConnectIs(t);
  }

  lemma InKeepsSound(s: Ports, e: Event)
    requires Sound(s) && Addresses(s, e) && !e.AttachOut? && !e.DetachOut?
    ensures var t := Step(s, e);
            && Sound(t) && |t.ins| == |s.ins| && |t.outs| == |s.outs|
            && (forall q :: 0 <= q < |s.outs| ==> t.outs[q].fanout == s.outs[q].fanout && t.outs[q].readers == s.outs[q].readers)
  {
    hide NoneConnected;
    DidDisconnectIs(s);
    if e.AttachIn? {
      var s1 := if s.ins[e.p].Some? then InDetached(s, e.p, s.ins[e.p].value) else s;
      DidConnectIs(s1.(ins := s.ins[e.p := Some(e.peer)]));
    }
  }

  lemma StepKeepsSound(s: Ports, e: Event)
    requires Sound(s) && Addresses(s, e)
    ensures Sound(Step(s, e))
    ensures |Step(s, e).ins| == |s.ins| && |Step(s, e).outs| == |s.outs|
    ensures forall q :: 0 <= q < |s.outs| ==>
              Step(s, e).outs[q].fanout == s.outs[q].fanout && s.outs[q].readers <= Step(s, e).outs[q].readers
  {
    hide AllConnected, NoneConnected;
    if e.AttachOut? {
      DetachKeepsSound(s, e.q, e.peer);
      AppendKeepsSound(OutDetached(s, e.q, e.peer), e.q, e.peer);
    } else if e.DetachOut? {
      DetachKeepsSound(s, e.q, e.peer);
    } else {
      InKeepsSound(s, e);
    }
  }

  lemma StepSizes(s: Ports, e: Event)
    requires Addresses(s, e)
    ensures |Step(s, e).ins| == |s.ins| && |Step(s, e).outs| == |s.outs|
  {
  }

  function Run(s: Ports, es: seq<Event>): Ports
    requires forall i :: 0 <= i < |es| ==> Addresses(s, es[i])
    decreases |es|
  {
    if es == [] then s
    else
      var s1 := Step(s, es[0]);
      StepSizes(s, es[0]);
      assert forall i :: 0 <= i < |es[1..]| ==> Addresses(s1, es[1..][i]) by {
        assert forall i :: 0 <= i < |es[1..]| ==> es[1..][i] == es[i + 1] && Addresses(s, es[i + 1]);
      }
      Run(s1, es[1..])
  }

  /** However its ports are attached, detached and disconnected, an actor is enabled only while every
      port is connected. */
  lemma {:induction false} EnabledOnlyConnected(s: Ports, es: seq<Event>)
    requires Sound(s) && forall i :: 0 <= i < |es| ==> Addresses(s, es[i])
    ensures Sound(Run(s, es)) && |Run(s, es).outs| == |s.outs|
    ensures Run(s, es).status.Enabled? ==> AllConnected(Run(s, es))
    ensures forall q :: 0 <= q < |s.outs| ==> Run(s, es).outs[q].fanout == s.outs[q].fanout
    decreases |es|
  {
    if es == [] {
      assert Run(s, es) == s;
      SoundEnabled(s);
    } else {
      StepKeepsSound(s, es[0]);
      var s1 := Step(s, es[0]);
      assert forall i :: 0 <= i < |es[1..]| ==> es[1..][i] == es[i + 1] && Addresses(s, es[i + 1]);
      EnabledOnlyConnected(s1, es[1..]);
      assert Run(s, es) == Run(s1, es[1..]);
    }
  }

  lemma SoundEnabled(s: Ports)
    requires Sound(s)
    ensures s.status.Enabled? ==> AllConnected(s)
  {
  }

  lemma {:induction false} DistinctFill(xs: seq<PortId>, all: set<PortId>)
    requires NoTwice(xs) && (forall i :: 0 <= i < |xs| ==> xs[i] in all) && |xs| >= |all|
    ensures forall x :: x in all ==> x in xs
    decreases |xs|
  {
    if xs == [] {
      assert all == {};
    } else {
      var rest := xs[1..];
      assert xs[0] in all && forall i :: 0 <= i < |rest| ==> rest[i] == xs[i + 1] && rest[i] != xs[0];
      DistinctFill(rest, all - {xs[0]});
      forall x | x in all ensures x in xs {
        if x != xs[0] {
          assert x in all - {xs[0]};
          assert xs == [xs[0]] + rest;
        }
      }
    }
  }

  /** With the fanout set to the number of peers there are to be, an enabled actor's outports have all
      of them registered as readers: nothing is written before that. */
  lemma EnabledHasAllReaders(s: Ports, q: nat, all: set<PortId>)
    requires Sound(s) && s.status.Enabled? && q < |s.outs| && s.outs[q].fanout == |all|
    requires forall i :: 0 <= i < |s.outs[q].peers| ==> s.outs[q].peers[i] in all
    ensures all <= s.outs[q].readers
  {
    DistinctFill(s.outs[q].peers, all);
  }

  // ------------------------------------------------------------ disconnecting

  /** A port being disconnected, whether it is connected or not. */
  predicate Leaves(s: Ports, e: Event) { (e.DisconnectIn? || e.DisconnectOut?) && Addresses(s, e) }

  predicate AllLeave(s: Ports, es: seq<Event>) {
    && (forall i :: 0 <= i < |es| ==> Addresses(s, es[i]))
    && (forall i :: 0 <= i < |es| ==> Leaves(s, es[i]))
  }

  /** The status an actor has after its ports have begun to go. */
  predicate Settled(s: Ports) {
    s.status.Enabled? || s.status.Pending? || (s.status.Ready? && NoneConnected(s))
  }

  /** did_disconnect runs before the endpoint is dropped: it asks the ports as they were. */
  lemma LeavingReadyIff(s: Ports, e: Event)
    requires Settled(s) && Leaves(s, e)
    ensures Step(s, e).status == if NoneConnected(s) then Ready else Pending
    ensures NoneConnected(s) ==> NoneConnected(Step(s, e))
  {
  }

  lemma LeavesStill(s: Ports, es: seq<Event>)
    requires es != [] && AllLeave(s, es)
    ensures AllLeave(Step(s, es[0]), es[1..]) && Run(s, es) == Run(Step(s, es[0]), es[1..])
    ensures AllLeave(s, es[..|es| - 1])
  {
    hide Step;
    var s1, rest := Step(s, es[0]), es[1..];
    StepSizes(s, es[0]);
    forall i | 0 <= i < |rest| ensures Leaves(s1, rest[i]) && Addresses(s1, rest[i]) {
      assert rest[i] == es[i + 1] && Leaves(s, es[i + 1]) && Addresses(s, es[i + 1]);
    }
    var init := es[..|es| - 1];
    assert forall i :: 0 <= i < |init| ==> init[i] == es[i];
  }

  /** Disconnecting ports in any order, connected ones or not: the actor ends READY if and only if no port is
      connected any more when the last of them goes, and PENDING otherwise. */
  lemma {:induction false} DisconnectedReadyIff(s: Ports, es: seq<Event>)
    requires Settled(s) && es != [] && AllLeave(s, es)
    ensures AllLeave(s, es[..|es| - 1])
    ensures Run(s, es).status == if NoneConnected(Run(s, es[..|es| - 1])) then Ready else Pending
    decreases |es|
  {
    hide AllLeave, NoneConnected, Step;
    LeavesStill(s, es);
    LeavesFirst(s, es);
    var s1, rest := Step(s, es[0]), es[1..];
    LeavingReadyIff(s, es[0]);
    if rest == [] {
      assert Run(s1, rest) == s1 && es[..|es| - 1] == [] && Run(s, es[..|es| - 1]) == s;
    } else {
      DisconnectedReadyIff(s1, rest);
      var init := es[..|es| - 1];
      LeavesStill(s, init);
      assert init[0] == es[0] && init[1..] == rest[..|rest| - 1];
    }
  }

  lemma LeavesFirst(s: Ports, es: seq<Event>)
    requires es != [] && AllLeave(s, es)
    ensures Leaves(s, es[0])
  {
  }

  /** The ports connected to begin with. */
  predicate Goes(s: Ports, es: seq<Event>) {
    && (forall p: nat :: p < |s.ins| && s.ins[p].Some? ==> DisconnectIn(p) in es)
    && (forall q: nat :: q < |s.outs| && OutConnected(s.outs[q]) ==> s.outs[q].fanout > 0 && DisconnectOut(q) in es)
  }

  lemma GoesNext(s: Ports, es: seq<Event>)
    requires es != [] && Leaves(s, es[0])
    ensures Goes(s, es) <==> Goes(Step(s, es[0]), es[1..])
  {
    assert es == [es[0]] + es[1..];
    var s1 := Step(s, es[0]);
    if Goes(s1, es[1..]) {
      forall p: nat | p < |s.ins| && s.ins[p].Some? ensures DisconnectIn(p) in es {
        if es[0] != DisconnectIn(p) { assert s1.ins[p].Some?; }
      }
      forall q: nat | q < |s.outs| && OutConnected(s.outs[q]) ensures s.outs[q].fanout > 0 && DisconnectOut(q) in es {
        if es[0] != DisconnectOut(q) || s.outs[q].fanout == 0 { assert OutConnected(s1.outs[q]); }
      }
    }
    if Goes(s, es) {
      forall q: nat | q < |s1.outs| && OutConnected(s1.outs[q])
        ensures s1.outs[q].fanout > 0 && DisconnectOut(q) in es[1..]
      {
        assert OutConnected(s.outs[q]);
      }
    }
  }

  /** After disconnects no port is connected if and only if each port connected before was among them; an
      outport that is to have no peer at all always counts as connected. */
  lemma {:induction false} NoneLeftIff(s: Ports, es: seq<Event>)
    requires AllLeave(s, es)
    ensures NoneConnected(Run(s, es)) <==> Goes(s, es)
    decreases |es|
  {
    hide AllLeave, Step;
    if es != [] {
      hide NoneConnected, Goes;
      LeavesStill(s, es);
      LeavesFirst(s, es);
      GoesNext(s, es);
      NoneLeftIff(Step(s, es[0]), es[1..]);
    }
  }

  /** So the order decides: READY needs every connected port to go before the last disconnect. */
  lemma DisconnectedReadyIfGone(s: Ports, es: seq<Event>)
    requires Settled(s) && es != [] && AllLeave(s, es)
    ensures Run(s, es).status.Ready? <==> Goes(s, es[..|es| - 1])
  {
    hide AllLeave, NoneConnected, Goes, Settled;
    DisconnectedReadyIff(s, es);
    NoneLeftIff(s, es[..|es| - 1]);
  }

  predicate NoneRepeated(es: seq<Event>) { forall i, j :: 0 <= i < j < |es| ==> es[i] != es[j] }

  predicate WasConnected(s: Ports, e: Event)
    requires Leaves(s, e)
  {
    if e.DisconnectIn? then s.ins[e.p].Some? else OutConnected(s.outs[e.q])
  }

  /** Each port once, the last of them connected to begin with, as when all are: the actor is left PENDING,
      though no port is connected any more. */
  lemma DisconnectedIsPending(s: Ports, es: seq<Event>)
    requires Settled(s) && es != [] && AllLeave(s, es) && NoneRepeated(es)
    requires Leaves(s, es[|es| - 1]) && WasConnected(s, es[|es| - 1])
    ensures Run(s, es).status.Pending?
  {
    hide AllLeave, NoneConnected;
    DisconnectedReadyIff(s, es);
    NoneLeftIff(s, es[..|es| - 1]);
    assert es[|es| - 1] !in es[..|es| - 1];
  }

  /** What has been disconnected, or never was connected, is not connected in the end. */
  lemma {:induction false} DisconnectedIsGone(s: Ports, es: seq<Event>)
    requires AllLeave(s, es)
    ensures |Run(s, es).ins| == |s.ins| && |Run(s, es).outs| == |s.outs|
    ensures forall p: nat :: p < |s.ins| && (s.ins[p].None? || DisconnectIn(p) in es) ==> Run(s, es).ins[p].None?
    ensures forall q: nat :: q < |s.outs| && (s.outs[q].peers == [] || DisconnectOut(q) in es) ==>
              Run(s, es).outs[q].peers == []
    decreases |es|
  {
    if es != [] {
      LeavesStill(s, es);
      LeavesFirst(s, es);
      DisconnectedIsGone(Step(s, es[0]), es[1..]);
      assert es == [es[0]] + es[1..];
    }
  }

  /** One port connected, one not: READY or PENDING is a matter of which goes last. */
  lemma OrderDecides(peer: PortId)
    ensures var s := Ports(Pending, [Some(peer), None], []);
            && AllLeave(s, [DisconnectIn(0), DisconnectIn(1)]) && AllLeave(s, [DisconnectIn(1), DisconnectIn(0)])
            && Run(s, [DisconnectIn(0), DisconnectIn(1)]).status.Ready?
            && Run(s, [DisconnectIn(1), DisconnectIn(0)]).status.Pending?
  {
    var s := Ports(Pending, [Some(peer), None], []);
    var a, b := [DisconnectIn(0), DisconnectIn(1)], [DisconnectIn(1), DisconnectIn(0)];
    assert a[..1] == [DisconnectIn(0)] && b[..1] == [DisconnectIn(1)];
    DisconnectedReadyIfGone(s, a);
    assert Goes(s, a[..1]);
    DisconnectedReadyIff(s, b);
    NoneLeftIff(s, b[..1]);
    assert s.ins[0].Some? && DisconnectIn(0) !in b[..1];
  }

  // ------------------------------------------------------------ fan-out

  /** Peers of an outport are those it had, or attached since. */
  lemma StepPeers(s: Ports, e: Event, q: nat, x: PortId)
    requires Addresses(s, e) && q < |s.outs|
    ensures q < |Step(s, e).outs|
    ensures x in Step(s, e).outs[q].peers ==> x in s.outs[q].peers || e == AttachOut(q, x)
  {
  }

  lemma {:induction false} RunPeers(s: Ports, es: seq<Event>, q: nat, x: PortId)
    requires (forall i :: 0 <= i < |es| ==> Addresses(s, es[i])) && q < |s.outs|
    ensures q < |Run(s, es).outs|
    ensures x in Run(s, es).outs[q].peers ==> x in s.outs[q].peers || AttachOut(q, x) in es
    decreases |es|
  {
    hide Step;
    if es != [] {
      StepPeers(s, es[0], q, x);
      StepSizes(s, es[0]);
      var s1 := Step(s, es[0]);
      assert forall i :: 0 <= i < |es[1..]| ==> es[1..][i] == es[i + 1] && Addresses(s, es[i + 1]);
      assert forall i :: 0 <= i < |es[1..]| ==> Addresses(s1, es[1..][i]);
      RunPeers(s1, es[1..], q, x);
      assert Run(s, es) == Run(s1, es[1..]);
      assert es == [es[0]] + es[1..];
    }
  }

  /** One consumer's disconnect request, local or from another node, drops every endpoint of the outport it
      reads from. The actor is not enabled again before each of the outport's inports has been attached
      again, those nobody asked to disconnect included. */
  lemma SiblingsAttachAgain(s: Ports, q: nat, es: seq<Event>, all: set<PortId>)
    requires Sound(s) && q < |s.outs| && s.outs[q].fanout == |all|
    requires forall i :: 0 <= i < |es| ==> Addresses(s, es[i])
    requires forall i :: 0 <= i < |es| && es[i].AttachOut? && es[i].q == q ==> es[i].peer in all
    ensures forall i :: 0 <= i < |es| ==> Addresses(Step(s, DisconnectOut(q)), es[i])
    ensures Run(Step(s, DisconnectOut(q)), es).status.Enabled? ==> forall x :: x in all ==> AttachOut(q, x) in es
  {
    hide AllConnected, NoneConnected;
    var s1 := Step(s, DisconnectOut(q));
    StepSizes(s, DisconnectOut(q));
    StepKeepsSound(s, DisconnectOut(q));
    var t := Run(s1, es);
    EnabledOnlyConnected(s1, es);
    if t.status.Enabled? {
      var peers := t.outs[q].peers;
      forall i | 0 <= i < |peers| ensures peers[i] in all { RunPeers(s1, es, q, peers[i]); }
      PeersFill(t, q, all);
      forall x | x in all ensures AttachOut(q, x) in es { RunPeers(s1, es, q, x); }
    }
  }

  lemma PeersFill(s: Ports, q: nat, all: set<PortId>)
    requires Sound(s) && AllConnected(s) && q < |s.outs| && s.outs[q].fanout == |all|
    requires forall i :: 0 <= i < |s.outs[q].peers| ==> s.outs[q].peers[i] in all
    ensures forall x :: x in all ==> x in s.outs[q].peers
  {
    DistinctFill(s.outs[q].peers, all);
  }

  // ------------------------------------------------------------ becoming ENABLED

  predicate Attaches(s: Ports, e: Event) { (e.AttachIn? || e.AttachOut?) && Addresses(s, e) }

  predicate AllAttach(s: Ports, es: seq<Event>) {
    && (forall i :: 0 <= i < |es| ==> Addresses(s, es[i]))
    && (forall i :: 0 <= i < |es| ==> Attaches(s, es[i]))
  }

  lemma EnablesIff(s: Ports)
    requires s.status.Enabled? ==> AllConnected(s)
    ensures DidConnect(s).status.Enabled? <==> AllConnected(s)
    ensures AllConnected(DidConnect(s)) <==> AllConnected(s)
    ensures !DidConnect(s).status.Ready? && (!s.status.Loaded? ==> !DidConnect(s).status.Loaded?)
  {
  }

  /** An attach leaves the actor ENABLED if and only if all its ports are connected then; otherwise it is
      PENDING, or LOADED if it was never made ready. */
  lemma AttachEnablesIff(s: Ports, e: Event)
    requires Sound(s) && Attaches(s, e)
    ensures Step(s, e).status.Enabled? <==> AllConnected(Step(s, e))
    ensures !Step(s, e).status.Ready? && (!s.status.Loaded? ==> !Step(s, e).status.Loaded?)
  {
    hide NoneConnected;
    StepKeepsSound(s, e);
    if e.AttachIn? {
      var s1 := if s.ins[e.p].Some? then InDetached(s, e.p, s.ins[e.p].value) else s;
      DidDisconnectIs(s);
      EnablesIff(s1.(ins := s.ins[e.p := Some(e.peer)]));
    } else {
      var s1 := OutDetached(s, e.q, e.peer);
      var o := s1.outs[e.q];
      DidDisconnectIs(s);
      EnablesIff(s1.(outs := s1.outs[e.q := o.(peers := o.peers + [e.peer], readers := o.readers + {e.peer})]));
    }
  }

  lemma AttachesNext(s: Ports, es: seq<Event>)
    requires es != [] && AllAttach(s, es)
    ensures Attaches(s, es[0]) && AllAttach(Step(s, es[0]), es[1..])
    ensures Run(s, es) == Run(Step(s, es[0]), es[1..])
  {
    hide Step;
    var s1, rest := Step(s, es[0]), es[1..];
    StepSizes(s, es[0]);
    forall i | 0 <= i < |rest| ensures Attaches(s1, rest[i]) && Addresses(s1, rest[i]) {
      assert rest[i] == es[i + 1] && Attaches(s, es[i + 1]) && Addresses(s, es[i + 1]);
    }
  }

  /** Along attaches the status at the end says whether all ports are connected. */
  lemma {:induction false} AttachedEnabledIff(s: Ports, es: seq<Event>)
    requires Sound(s) && es != [] && AllAttach(s, es)
    ensures Run(s, es).status.Enabled? <==> AllConnected(Run(s, es))
    decreases |es|
  {
    hide AllConnected, AllAttach, Step;
    AttachesNext(s, es);
    var s1 := Step(s, es[0]);
    StepKeepsSound(s, es[0]);
    if |es| == 1 {
      AttachEnablesIff(s, es[0]);
      assert Run(s1, es[1..]) == s1;
    } else {
      AttachedEnabledIff(s1, es[1..]);
    }
  }

  /** What an attach leaves connected. */
  lemma AttachStep(s: Ports, e: Event)
    requires Attaches(s, e)
    ensures var t := Step(s, e);
            && |t.ins| == |s.ins| && |t.outs| == |s.outs|
            && (forall p :: 0 <= p < |s.ins| ==> (t.ins[p].Some? <==> s.ins[p].Some? || (e.AttachIn? && e.p == p)))
            && (forall q :: 0 <= q < |s.outs| ==> t.outs[q].fanout == s.outs[q].fanout)
            && (forall q, x :: 0 <= q < |s.outs| ==>
                  (x in t.outs[q].peers <==> x in s.outs[q].peers || e == AttachOut(q, x)))
  {
    hide NoneConnected, AllConnected;
    if e.AttachOut? { OthersKept(s.outs[e.q].peers, e.peer); }
  }

  lemma {:induction false} OthersKept(xs: seq<PortId>, x: PortId)
    ensures forall y :: y != x ==> (y in Without(xs, x) <==> y in xs)
    decreases |xs|
  {
    if xs != [] {
      OthersKept(xs[1..], x);
      assert xs == [xs[0]] + xs[1..];
    }
  }

  predicate AttachedIn(es: seq<Event>, p: nat) { exists i :: 0 <= i < |es| && es[i].AttachIn? && es[i].p == p }

  /** After attaches exactly the ports connected before or attached since are connected, and exactly their
      peers are there. */
  lemma {:induction false} AttachedPorts(s: Ports, es: seq<Event>)
    requires AllAttach(s, es)
    ensures var t := Run(s, es);
            && |t.ins| == |s.ins| && |t.outs| == |s.outs|
            && (forall p :: 0 <= p < |s.ins| ==> (t.ins[p].Some? <==> s.ins[p].Some? || AttachedIn(es, p)))
            && (forall q :: 0 <= q < |s.outs| ==> t.outs[q].fanout == s.outs[q].fanout)
            && (forall q, x :: 0 <= q < |s.outs| ==>
                  (x in t.outs[q].peers <==> x in s.outs[q].peers || AttachOut(q, x) in es))
    decreases |es|
  {
    hide AllAttach, Step;
    if es != [] {
      AttachesNext(s, es);
      AttachStep(s, es[0]);
      AttachedPorts(Step(s, es[0]), es[1..]);
      assert es == [es[0]] + es[1..];
      forall p | 0 <= p < |s.ins|
        ensures AttachedIn(es, p) <==> AttachedIn(es[1..], p) || (es[0].AttachIn? && es[0].p == p)
      {
        AttachedInNext(es, p);
      }
    }
  }

  lemma AttachedInNext(es: seq<Event>, p: nat)
    requires es != []
    ensures AttachedIn(es, p) <==> AttachedIn(es[1..], p) || (es[0].AttachIn? && es[0].p == p)
  {
    if AttachedIn(es, p) {
      var i :| 0 <= i < |es| && es[i].AttachIn? && es[i].p == p;
      if i > 0 { assert es[1..][i - 1] == es[i]; }
    }
    if AttachedIn(es[1..], p) {
      var i :| 0 <= i < |es[1..]| && es[1..][i].AttachIn? && es[1..][i].p == p;
      assert es[i + 1] == es[1..][i];
    }
  }

  lemma {:induction false} AtLeast(xs: seq<PortId>, all: set<PortId>)
    requires forall x :: x in all ==> x in xs
    ensures |xs| >= |all|
    decreases |xs|
  {
    if xs == [] {
      assert all == {};
    } else {
      forall x | x in all - {xs[0]} ensures x in xs[1..] { assert xs == [xs[0]] + xs[1..]; }
      AtLeast(xs[1..], all - {xs[0]});
    }
  }

  predicate OthersConnected(s: Ports, q: nat) {
    && (forall p :: 0 <= p < |s.ins| ==> s.ins[p].Some?)
    && (forall k :: 0 <= k < |s.outs| && k != q ==> OutConnected(s.outs[k]))
  }

  lemma {:induction false} PeersStay(s: Ports, es: seq<Event>, k: nat)
    requires AllAttach(s, es) && k < |s.outs| && NoTwice(s.outs[k].peers)
    ensures k < |Run(s, es).outs| && |Run(s, es).outs[k].peers| >= |s.outs[k].peers|
    decreases |es|
  {
    AttachedPorts(s, es);
    var before := s.outs[k].peers;
    DistinctSize(before);
    AtLeast(Run(s, es).outs[k].peers, set x | x in before);
  }

  lemma {:induction false} DistinctSize(xs: seq<PortId>)
    requires NoTwice(xs)
    ensures |set x | x in xs| == |xs|
    decreases |xs|
  {
    if xs == [] {
      assert (set x | x in xs) == {};
    } else {
      var rest := xs[1..];
      assert forall i :: 0 <= i < |rest| ==> rest[i] == xs[i + 1] && rest[i] != xs[0];
      DistinctSize(rest);
      assert (set x | x in xs) == (set x | x in rest) + {xs[0]};
    }
  }

  /** With all other ports connected, the actor is ENABLED again after a disconnect request for an outport
      exactly when every one of its peers has been attached again. */
  lemma SiblingsAttachedIff(s: Ports, q: nat, es: seq<Event>, all: set<PortId>)
    requires Sound(s) && q < |s.outs| && s.outs[q].fanout == |all| && all != {} && OthersConnected(s, q)
    requires AllAttach(s, es)
    requires forall i :: 0 <= i < |es| && es[i].AttachOut? && es[i].q == q ==> es[i].peer in all
    ensures AllAttach(Step(s, DisconnectOut(q)), es)
    ensures Run(Step(s, DisconnectOut(q)), es).status.Enabled? <==> forall x :: x in all ==> AttachOut(q, x) in es
  {
    hide AllConnected, NoneConnected, OutSound, AllAttach, Run;
    var s1 := Step(s, DisconnectOut(q));
    StillAttach(s, q, es);
    StepKeepsSound(s, DisconnectOut(q));
    SiblingsAttachAgain(s, q, es, all);
    if forall x :: x in all ==> AttachOut(q, x) in es {
      var x :| x in all;
      assert AttachOut(q, x) in es;
      AllBack(s1, q, es, all);
      AttachedEnabledIff(s1, es);
    }
  }

  lemma StillAttach(s: Ports, q: nat, es: seq<Event>)
    requires q < |s.outs| && AllAttach(s, es)
    ensures forall i :: 0 <= i < |es| ==> Addresses(s, es[i])
    ensures AllAttach(Step(s, DisconnectOut(q)), es)
    ensures OthersConnected(s, q) ==> OthersConnected(Step(s, DisconnectOut(q)), q)
  {
    hide NoneConnected;
    var s1 := Step(s, DisconnectOut(q));
    assert s1.ins == s.ins && |s1.outs| == |s.outs| && forall k :: 0 <= k < |s.outs| && k != q ==> s1.outs[k] == s.outs[k];
    StepSizes(s, DisconnectOut(q));
    assert forall i :: 0 <= i < |es| ==> Attaches(s, es[i]) && Addresses(s1, es[i]);
  }

  lemma AllBack(s: Ports, q: nat, es: seq<Event>, all: set<PortId>)
    requires Sound(s) && q < |s.outs| && s.outs[q].fanout == |all| && OthersConnected(s, q)
    requires AllAttach(s, es) && forall x :: x in all ==> AttachOut(q, x) in es
    ensures AllConnected(Run(s, es))
  {
    hide Run;
    AttachedPorts(s, es);
    AtLeast(Run(s, es).outs[q].peers, all);
    forall k | 0 <= k < |s.outs| && k != q ensures OutConnected(Run(s, es).outs[k]) {
      assert OutSound(s.outs[k]);
      PeersStay(s, es, k);
    }
  }

  // ------------------------------------------------------------ every actor can become ENABLED

  function Peer(k: nat): PortId { seq(k + 1, i => 'p') }

  /** One endpoint for each inport, and for each outport as many as it is to have. */
  function InAttaches(n: nat): (r: seq<Event>)
    ensures |r| == n && forall i :: 0 <= i < n ==> r[i] == AttachIn(i, "p")
  {
    seq(n, i requires 0 <= i < n => AttachIn(i, "p"))
  }

  function OutAttaches(q: nat, n: nat): (r: seq<Event>)
    ensures |r| == n && forall k :: 0 <= k < n ==> r[k] == AttachOut(q, Peer(k))
  {
    seq(n, k requires 0 <= k < n => AttachOut(q, Peer(k)))
  }

  function AllOutAttaches(s: Ports, q: nat): seq<Event>
    requires q <= |s.outs|
  {
    if q == 0 then [] else AllOutAttaches(s, q - 1) + OutAttaches(q - 1, s.outs[q - 1].fanout + 1)
  }

  lemma {:induction false} AllOutAttached(s: Ports, q: nat)
    requires q <= |s.outs|
    ensures forall i :: 0 <= i < |AllOutAttaches(s, q)| ==>
              AllOutAttaches(s, q)[i].AttachOut? && AllOutAttaches(s, q)[i].q < q
    ensures forall k, x: nat :: 0 <= k < q && x <= s.outs[k].fanout ==> AttachOut(k, Peer(x)) in AllOutAttaches(s, q)
  {
    if q > 0 {
      AllOutAttached(s, q - 1);
      var last := OutAttaches(q - 1, s.outs[q - 1].fanout + 1);
      forall x: nat | x <= s.outs[q - 1].fanout ensures AttachOut(q - 1, Peer(x)) in AllOutAttaches(s, q) {
        assert last[x] == AttachOut(q - 1, Peer(x));
      }
    }
  }

  lemma {:induction false} PeersEnough(xs: seq<PortId>, n: nat)
    requires forall k: nat :: k < n ==> Peer(k) in xs
    ensures |xs| >= n
  {
    var all := set k: nat | k < n :: Peer(k);
    PeersDistinct(n);
    AtLeast(xs, all);
  }

  lemma {:induction false} PeersDistinct(n: nat)
    ensures |set k: nat | k < n :: Peer(k)| == n
  {
    if n == 0 {
      assert (set k: nat | k < n :: Peer(k)) == {};
    } else {
      PeersDistinct(n - 1);
      forall k: nat | k < n - 1 ensures Peer(k) != Peer(n - 1) {
        assert |Peer(k)| == k + 1 && |Peer(n - 1)| == n;
      }
      assert (set k: nat | k < n :: Peer(k)) == (set k: nat | k < n - 1 :: Peer(k)) + {Peer(n - 1)};
    }
  }

  /** From every state an actor with a port can be in, attaching endpoints gets it ENABLED. */
  lemma CanBeEnabled(s: Ports) returns (es: seq<Event>)
    requires Sound(s) && |s.ins| + |s.outs| > 0
    ensures AllAttach(s, es) && Run(s, es).status.Enabled?
  {
    hide Sound;
    var ins, outs := InAttaches(|s.ins|), AllOutAttaches(s, |s.outs|);
    AllOutAttached(s, |s.outs|);
    es := ins + outs;
    forall i | 0 <= i < |es| ensures Addresses(s, es[i]) && Attaches(s, es[i]) {
      assert es[i] == if i < |ins| then ins[i] else outs[i - |ins|];
    }
    if |s.ins| == 0 { assert s.outs[0].fanout >= 0 && AttachOut(0, Peer(0)) in outs; }
    AttachedPorts(s, es);
    forall p | 0 <= p < |s.ins| ensures AttachedIn(es, p) { assert es[p].AttachIn? && es[p].p == p; }
    forall q | 0 <= q < |s.outs| ensures OutConnected(Run(s, es).outs[q]) {
      PeersEnough(Run(s, es).outs[q].peers, s.outs[q].fanout);
    }
    AttachedEnabledIff(s, es);
  }
}
