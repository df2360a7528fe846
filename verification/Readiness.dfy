/** An actor's status and the stream of one of its outports together: no token is written before every
    inport the outport is to feed has been registered with its FIFO. Here an actor writes when it is ENABLED
    and has room; that its outport is connected then, as Transport asks, is derived. */
module Readiness {
  import opened Wrappers
  import opened Tokens
  import opened FifoSpec
  import opened EndpointSpec
  import PortStates
  import Transport
  import TransportProof
  import TransportTheorems

  /** The outport as the actor sees it and as the stream's system sees it. */
  predicate Mirrors(o: PortStates.OutEnd, s: Transport.System) {
    && o.fanout == s.fanout && o.readers == s.out.readers
    && (set p | p in o.peers) == Transport.AttachedPeers(s)
  }

  lemma {:induction false} DistinctCount(xs: seq<PortId>)
    requires PortStates.NoTwice(xs)
    ensures |set p | p in xs| == |xs|
    decreases |xs|
  {
    if xs == [] {
      assert (set p | p in xs) == {};
    } else {
      var rest := xs[1..];
      assert forall i :: 0 <= i < |rest| ==> rest[i] == xs[i + 1] && rest[i] != xs[0];
      DistinctCount(rest);
      assert (set p | p in xs) == (set p | p in rest) + {xs[0]};
    }
  }

  lemma EnabledIsConnected(o: PortStates.OutEnd, s: Transport.System)
    requires PortStates.OutSound(o) && PortStates.OutConnected(o) && Mirrors(o, s)
    ensures Transport.Connected(s)
  {
    DistinctCount(o.peers);
  }

  // ------------------------------------------------------------ both together

  /** An actor and what its outport number q is attached to. */
  datatype World = World(actor: PortStates.Ports, s: Transport.System)

  /** Something at another port of the actor, or an event of the outport's stream. */
  datatype Event = Elsewhere(port: PortStates.Event) | Here(stream: Transport.Event)

  predicate Touches(e: PortStates.Event, q: nat) {
    (e.AttachOut? || e.DetachOut? || e.DisconnectOut?) && e.q == q
  }

  /** The peer whose endpoint the event attaches to the outport. */
  function Attached(e: Transport.Event): Option<PortId> {
    match e
    case OkToOut(p, here) => if here then Some(p) else None
    case AcceptOut(p) => Some(p)
    case ConnectLocal(p) => Some(p)
    case RenewOut(p) => Some(p)
    case _ => None
  }

  /** The actor as it is set up on the node it migrates to. */
  function Rebuilt(a: PortStates.Ports): (r: PortStates.Ports)
    ensures |r.ins| == |a.ins| && |r.outs| == |a.outs| && r.status.Ready?
    ensures forall k :: 0 <= k < |a.outs| ==> r.outs[k] == a.outs[k].(peers := [])
  {
    PortStates.Ports(PortStates.Ready, seq(|a.ins|, i => None),
                     seq(|a.outs|, k requires 0 <= k < |a.outs| => a.outs[k].(peers := [])))
  }

  /** What the actor sees of an event of the stream. */
  function Noticed(a: PortStates.Ports, q: nat, e: Transport.Event): PortStates.Ports
    requires q < |a.outs|
  {
    if Attached(e).Some? then PortStates.Step(a, PortStates.AttachOut(q, Attached(e).value))
    else if e.DisconnectOut? then PortStates.Step(a, PortStates.DisconnectOut(q))
    else if e.MigrateOut? then Rebuilt(a) else a
  }

  ghost predicate Enabled(w: World, q: nat, e: Event) {
    && q < |w.actor.outs|
    && match e
       case Elsewhere(port) => PortStates.Addresses(w.actor, port) && !Touches(port, q)
       case Here(stream) =>
         if stream.WriteToken? then w.actor.status.Enabled? && w.s.out.WellFormed() && CanWrite(w.s.out)
         else Transport.Enabled(w.s, stream)
  }

  /** A write is a step of the stream once its guard there is known to hold. */
  ghost function Step(w: World, q: nat, e: Event): World
    requires Enabled(w, q, e) && Inv(w, q)
  {
    match e
    case Elsewhere(port) => w.(actor := PortStates.Step(w.actor, port))
    case Here(stream) =>
      StreamEnabled(w, q, stream);
      World(Noticed(w.actor, q, stream), Transport.Apply(w.s, stream))
  }

  ghost predicate Inv(w: World, q: nat) {
    PortStates.Sound(w.actor) && Transport.Inv(w.s) && q < |w.actor.outs| && Mirrors(w.actor.outs[q], w.s)
  }

  lemma StreamEnabled(w: World, q: nat, e: Transport.Event)
    requires Inv(w, q) && Enabled(w, q, Here(e))
    ensures Transport.Enabled(w.s, e)
  {
    hide Transport.Inv, Mirrors;
    if e.WriteToken? { EnabledIsConnected(w.actor.outs[q], w.s); }
  }

  lemma ElsewhereKeeps(a: PortStates.Ports, q: nat, e: PortStates.Event)
    requires PortStates.Sound(a) && q < |a.outs| && PortStates.Addresses(a, e) && !Touches(e, q)
    ensures PortStates.Sound(PortStates.Step(a, e)) && |PortStates.Step(a, e).outs| == |a.outs|
    ensures PortStates.Step(a, e).outs[q] == a.outs[q]
  {
    PortStates.StepKeepsSound(a, e);
  }

  lemma AttachNoticed(a: PortStates.Ports, q: nat, p: PortId)
    requires PortStates.Sound(a) && q < |a.outs|
    ensures var t := PortStates.Step(a, PortStates.AttachOut(q, p));
            && PortStates.Sound(t) && |t.outs| == |a.outs|
            && t.outs[q].fanout == a.outs[q].fanout && t.outs[q].readers == a.outs[q].readers + {p}
            && (set x | x in t.outs[q].peers) == (set x | x in a.outs[q].peers) + {p}
  {
    PortStates.StepKeepsSound(a, PortStates.AttachOut(q, p));
    var t := PortStates.Step(a, PortStates.AttachOut(q, p));
    PortStates.OthersKept(a.outs[q].peers, p);
    assert t.outs[q].peers == PortStates.Without(a.outs[q].peers, p) + [p];
  }

  /** Ends of the outport come and go in step with the actor's list of endpoints. */
  lemma AttachMirrors(s: Transport.System, e: Transport.Event)
    requires Transport.Inv(s) && Transport.Enabled(s, e) && Attached(e).Some?
    ensures var s' := Transport.Apply(s, e);
            && s'.fanout == s.fanout && s'.out.readers == s.out.readers + {Attached(e).value}
            && Transport.AttachedPeers(s') == Transport.AttachedPeers(s) + {Attached(e).value}
  {
    hide Transport.Inv, Transport.NoStaleRefusal, Transport.Overtaken, Transport.Unhindered, Transport.Drained;
    assert s.out.readers + {Attached(e).value} == AddReader(s.out, Attached(e).value).readers;
  }

  lemma OtherMirrors(s: Transport.System, e: Transport.Event)
    requires Transport.Enabled(s, e) && Attached(e).None? && !e.DisconnectOut? && !e.MigrateOut?
    ensures var s' := Transport.Apply(s, e);
            && s'.fanout == s.fanout && s'.out.readers == s.out.readers
            && Transport.AttachedPeers(s') == Transport.AttachedPeers(s)
  {
    hide Transport.Sent, Transport.ReplyDelivered, Transport.Polled, Transport.Consumed, Transport.Rewound,
      Transport.OneRead, RecvToken, Restore, ImageOf, Transport.NoStaleRefusal, Transport.StillComing,
      Transport.Overtaken, Transport.Available, Transport.Connected, Transport.AttachedPeers;
    var s' := Transport.Apply(s, e);
    match e {
      case Send(p, mayNow) => SendMirrors(s, p, mayNow);
      case DeliverReply(p) => ReplyMirrors(s, p);
      case Poll(p) => ConsumeMirrors(s, p, 0);
      case Consume(p, k) => ConsumeMirrors(s, p, k);
      case PeekAndRewind(p, k) => ConsumeMirrors(s, p, k);
      case ReadOne(p) => ConsumeMirrors(s, p, 0);
      case _ =>
    }
    SameEnds(s, s');
  }

  lemma SameEnds(s: Transport.System, s': Transport.System)
    requires s'.links.Keys == s.links.Keys
    requires forall p :: p in s.links ==> (s'.links[p].outEnd.OutDetached? <==> s.links[p].outEnd.OutDetached?)
    ensures Transport.AttachedPeers(s') == Transport.AttachedPeers(s)
  {
  }

  /** The outport's readers stay, and no link's outport end comes or goes. */
  predicate SameSide(s: Transport.System, s': Transport.System) {
    && s'.fanout == s.fanout && s'.out.readers == s.out.readers && s'.links.Keys == s.links.Keys
    && forall p :: p in s.links ==> (s'.links[p].outEnd.OutDetached? <==> s.links[p].outEnd.OutDetached?)
  }

  lemma SendMirrors(s: Transport.System, p: PortId, mayNow: bool)
    requires Transport.CanTalk(s, p)
    ensures SameSide(s, Transport.Sent(s, p, mayNow))
  {
    hide SendAll;
  }

  lemma ReplyMirrors(s: Transport.System, p: PortId)
    requires Transport.ReplyWaiting(s, p)
    ensures SameSide(s, Transport.ReplyDelivered(s, p))
  {
    hide DrainAcks, RollbackTo;
  }

  lemma LocalReaders(s: LocalIn, q: PortId, k: nat)
    requires Positioned(s, q)
    ensures Positioned(LocalAvailable(s, q).0, q)
    ensures LocalAvailable(s, q).0.theirs.readers == s.theirs.readers
    ensures LocalRead(s, q).0.theirs.readers == s.theirs.readers
    ensures var peeked := LocalPeekMany(LocalAvailable(s, q).0, q, k).0;
            && LocalCommit(peeked, q).theirs.readers == s.theirs.readers
            && LocalRewind(peeked, q).theirs.readers == s.theirs.readers
  {
    hide Fixed, LocalPeekMany, Front;
  }

  lemma FireMirrors(s: Transport.System, p: PortId, k: nat)
    requires Transport.CanConsume(s, p)
    ensures SameSide(s, Transport.Consumed(s, p, k)) && SameSide(s, Transport.Rewound(s, p, k))
  {
    hide LocalAvailable, LocalPeekMany, LocalCommit, LocalRewind, PeekMany, Transport.Handed, CommitReads;
    if s.links[p].inEnd.LocalInEnd? { LocalReaders(Transport.LocalOf(s, p), p, k); }
  }

  lemma ReadMirrors(s: Transport.System, p: PortId)
    requires Transport.CanConsume(s, p)
    ensures SameSide(s, Transport.Polled(s, p)) && SameSide(s, Transport.OneRead(s, p))
  {
    hide LocalAvailable, LocalRead, Transport.Handed, Front, Read, CommitReads;
    if s.links[p].inEnd.LocalInEnd? { LocalReaders(Transport.LocalOf(s, p), p, 0); }
  }

  lemma ConsumeMirrors(s: Transport.System, p: PortId, k: nat)
    requires Transport.CanConsume(s, p)
    ensures SameSide(s, Transport.Polled(s, p)) && SameSide(s, Transport.Consumed(s, p, k))
    ensures SameSide(s, Transport.Rewound(s, p, k)) && SameSide(s, Transport.OneRead(s, p))
  {
    hide SameSide, Transport.Polled, Transport.OneRead, Transport.Consumed, Transport.Rewound, Transport.CanConsume;
    FireMirrors(s, p, k);
    ReadMirrors(s, p);
  }

  lemma StepKeeps(w: World, q: nat, e: Event)
    requires Inv(w, q) && Enabled(w, q, e)
    ensures Inv(Step(w, q, e), q)
  {
    hide Transport.Inv, PortStates.Sound, Transport.Apply, Transport.Enabled, PortStates.Step;
    match e {
      case Elsewhere(port) => ElsewhereKeeps(w.actor, q, port);
      case Here(stream) =>
        StreamEnabled(w, q, stream);
        TransportProof.StepKeeps(w.s, stream);
        if Attached(stream).Some? {
          AttachNoticed(w.actor, q, Attached(stream).value);
          AttachMirrors(w.s, stream);
        } else if stream.DisconnectOut? {
          DisconnectMirrors(w.actor, q, w.s);
        } else if stream.MigrateOut? {
          MigrateMirrors(w.actor, q, w.s, stream);
        } else {
          OtherMirrors(w.s, stream);
        }
    }
  }

  lemma DisconnectMirrors(a: PortStates.Ports, q: nat, s: Transport.System)
    requires PortStates.Sound(a) && q < |a.outs| && Mirrors(a.outs[q], s)
    requires Transport.Enabled(s, Transport.DisconnectOut)
    ensures var t := PortStates.Step(a, PortStates.DisconnectOut(q));
            PortStates.Sound(t) && q < |t.outs| && Mirrors(t.outs[q], Transport.Apply(s, Transport.DisconnectOut))
  {
    PortStates.StepKeepsSound(a, PortStates.DisconnectOut(q));
    var t := PortStates.Step(a, PortStates.DisconnectOut(q));
    assert t.outs[q].peers == [];
    assert Transport.AttachedPeers(Transport.OutDisconnected(s)) == {};
  }

  lemma MigrateMirrors(a: PortStates.Ports, q: nat, s: Transport.System, e: Transport.Event)
    requires PortStates.Sound(a) && q < |a.outs| && Mirrors(a.outs[q], s)
    requires Transport.Inv(s) && Transport.Enabled(s, e) && e.MigrateOut?
    ensures PortStates.Sound(Rebuilt(a)) && q < |Rebuilt(a).outs| && Mirrors(Rebuilt(a).outs[q], Transport.Apply(s, e))
  {
    hide Transport.Inv;
    TransportProof.MigrationKeeps(s, e);
    assert Transport.AttachedPeers(s) == {};
    assert Rebuilt(a).outs[q].peers == [];
  }

  /** Nothing attached, nothing written; the actor is not enabled on the strength of ports it does not have. */
  ghost predicate Init(w: World, q: nat) {
    && PortStates.Sound(w.actor) && Transport.Init(w.s)
    && q < |w.actor.outs| && w.actor.outs[q] == PortStates.OutEnd(|w.s.links|, [], {})
  }

  /** `w` leads to `w'` by the events `es`. */
  ghost predicate Run(w: World, q: nat, es: seq<Event>, w': World)
    requires Inv(w, q)
    decreases |es|
  {
    if es == [] then w == w'
    else Enabled(w, q, es[0]) && (StepKeeps(w, q, es[0]); Run(Step(w, q, es[0]), q, es[1..], w'))
  }

  lemma InitInv(w: World, q: nat)
    requires Init(w, q)
    ensures Inv(w, q)
  {
    TransportProof.InitInv(w.s);
    assert Transport.AttachedPeers(w.s) == {};
  }

  /** The events of the stream among them. */
  function Streams(es: seq<Event>): seq<Transport.Event> {
    if es == [] then [] else (if es[0].Here? then [es[0].stream] else []) + Streams(es[1..])
  }

  lemma {:induction false} RunIsRun(w: World, q: nat, es: seq<Event>, w': World)
    requires Inv(w, q) && Run(w, q, es, w')
    ensures Inv(w', q) && Transport.Run(w.s, Streams(es), w'.s)
    decreases |es|
  {
    hide Inv, Enabled, Transport.Enabled, Transport.Apply;
    if es != [] {
      StepKeeps(w, q, es[0]);
      var w1 := Step(w, q, es[0]);
      RunIsRun(w1, q, es[1..], w');
      StreamStep(w, q, es[0]);
      if es[0].Here? {
        TransportTheorems.RunAppend(w.s, [es[0].stream], w1.s, Streams(es[1..]), w'.s);
      } else {
        assert [] + Streams(es[1..]) == Streams(es[1..]);
      }
    }
  }

  lemma StreamStep(w: World, q: nat, e: Event)
    requires Inv(w, q) && Enabled(w, q, e)
    ensures e.Here? ==> Transport.Run(w.s, [e.stream], Step(w, q, e).s)
    ensures e.Elsewhere? ==> Step(w, q, e).s == w.s
  {
    hide Inv, Transport.Apply, Transport.Enabled;
    if e.Here? {
      StreamEnabled(w, q, e.stream);
      TransportTheorems.RunOne(w.s, e.stream);
    }
  }

  /** What the actor goes through at its ports: events elsewhere, and those of the stream that come and go at the
      outport. */
  function AtPorts(e: Event, q: nat): seq<PortStates.Event> {
    match e
    case Elsewhere(port) => [port]
    case Here(stream) =>
      if Attached(stream).Some? then [PortStates.AttachOut(q, Attached(stream).value)]
      else if stream.DisconnectOut? then [PortStates.DisconnectOut(q)] else []
  }

  function AllAtPorts(es: seq<Event>, q: nat): seq<PortStates.Event> {
    if es == [] then [] else AtPorts(es[0], q) + AllAtPorts(es[1..], q)
  }

  lemma ActorStep(w: World, q: nat, e: Event)
    requires Inv(w, q) && Enabled(w, q, e) && !(e.Here? && e.stream.MigrateOut?)
    ensures forall i :: 0 <= i < |AtPorts(e, q)| ==> PortStates.Addresses(w.actor, AtPorts(e, q)[i])
    ensures PortStates.Run(w.actor, AtPorts(e, q)) == Step(w, q, e).actor
  {
    hide Inv, Transport.Enabled, Transport.Apply, PortStates.Step;
    assert q < |w.actor.outs|;
    if AtPorts(e, q) != [] {
      var port := AtPorts(e, q)[0];
      assert AtPorts(e, q) == [port];
      assert PortStates.Run(PortStates.Step(w.actor, port), []) == PortStates.Step(w.actor, port);
    }
  }

  lemma {:induction false} PortsAppend(a: PortStates.Ports, es: seq<PortStates.Event>, fs: seq<PortStates.Event>)
    requires forall i :: 0 <= i < |es| ==> PortStates.Addresses(a, es[i])
    requires forall i :: 0 <= i < |fs| ==> PortStates.Addresses(a, fs[i])
    ensures forall i :: 0 <= i < |fs| ==> PortStates.Addresses(PortStates.Run(a, es), fs[i])
    ensures forall i :: 0 <= i < |es + fs| ==> PortStates.Addresses(a, (es + fs)[i])
    ensures PortStates.Run(a, es + fs) == PortStates.Run(PortStates.Run(a, es), fs)
    decreases |es|
  {
    hide PortStates.Step;
    if es == [] {
      assert es + fs == fs;
    } else {
      PortStates.StepSizes(a, es[0]);
      PortsAppend(PortStates.Step(a, es[0]), es[1..], fs);
      assert (es + fs)[1..] == es[1..] + fs;
    }
  }

  lemma {:induction false} RunSizes(a: PortStates.Ports, es: seq<PortStates.Event>)
    requires forall i :: 0 <= i < |es| ==> PortStates.Addresses(a, es[i])
    ensures |PortStates.Run(a, es).ins| == |a.ins| && |PortStates.Run(a, es).outs| == |a.outs|
    decreases |es|
  {
    hide PortStates.Step;
    if es != [] {
      PortStates.StepSizes(a, es[0]);
      RunSizes(PortStates.Step(a, es[0]), es[1..]);
    }
  }

  /** Between migrations the actor's part of a run is what its port events make of it, as the stream's part is a
      run of Transport: neither holds the other back. */
  lemma {:induction false} ActorIsRun(w: World, q: nat, es: seq<Event>, w': World)
    requires Inv(w, q) && Run(w, q, es, w')
    requires forall i :: 0 <= i < |es| ==> !(es[i].Here? && es[i].stream.MigrateOut?)
    ensures forall i :: 0 <= i < |AllAtPorts(es, q)| ==> PortStates.Addresses(w.actor, AllAtPorts(es, q)[i])
    ensures w'.actor == PortStates.Run(w.actor, AllAtPorts(es, q))
    decreases |es|
  {
    hide Inv, Enabled, Step, AtPorts, PortStates.Step, PortStates.Run;
    if es != [] {
      StepKeeps(w, q, es[0]);
      ActorStep(w, q, es[0]);
      var w1 := Step(w, q, es[0]);
      ActorIsRun(w1, q, es[1..], w');
      RunSizes(w.actor, AtPorts(es[0], q));
      PortsAppend(w.actor, AtPorts(es[0], q), AllAtPorts(es[1..], q));
    } else {
      RunNothing(w.actor);
    }
  }

  lemma RunNothing(a: PortStates.Ports)
    ensures PortStates.Run(a, []) == a
  {
  }

  /** `w` is reached from a start by the events `es`. */
  ghost predicate Reached(w0: World, q: nat, es: seq<Event>, w: World) {
    Init(w0, q) && (InitInv(w0, q); Run(w0, q, es, w))
  }

  /** However the actor's ports are attached, detached, disconnected and migrated: when it is ENABLED, its
      outport has all its inports registered and may be written to as soon as there is room; and what the
      stream goes through when the actor writes in that state only is a run of Transport, so that all that
      holds of those holds here. */
  lemma EnabledMeansRegistered(w0: World, q: nat, es: seq<Event>, w: World, data: Token)
    requires Reached(w0, q, es, w)
    ensures Transport.Reachable(w.s)
    ensures w.actor.status.Enabled? ==>
              && Transport.Connected(w.s) && w.s.out.readers == w.s.links.Keys && w.s.out.WellFormed()
              && (CanWrite(w.s.out) ==> Transport.Enabled(w.s, Transport.WriteToken(data)))
  {
    hide Transport.Inv, Transport.Run, Transport.Init;
    InitInv(w0, q);
    RunIsRun(w0, q, es, w);
    assert Transport.Init(w0.s) && Transport.Run(w0.s, Streams(es), w.s);
    if w.actor.status.Enabled? {
      EnabledIsConnected(w.actor.outs[q], w.s);
      TransportProof.AllRegistered(w.s);
      Written(w.s);
    }
  }

  lemma Written(s: Transport.System)
    requires Transport.Inv(s)
    ensures s.out.WellFormed()
  {
  }
}
