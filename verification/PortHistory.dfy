/** What an actor's ports are connected to after any events, told by the events alone (actorport.py:94-113,
    166-212), and the status an event at a port leaves (actor.py:473-518). */
module PortHistory {
  import opened Wrappers
  import opened PortStates

  /** An endpoint: a port and its peer. */
  datatype End = InOf(p: nat, peer: PortId) | OutOf(q: nat, peer: PortId)

  predicate Among(s: Ports, h: End) {
    match h
    case InOf(p, _) => p < |s.ins|
    case OutOf(q, _) => q < |s.outs|
  }

  predicate Has(s: Ports, h: End)
    requires Among(s, h)
  {
    match h
    case InOf(p, x) => s.ins[p] == Some(x)
    case OutOf(q, x) => x in s.outs[q].peers
  }

  function Attach(h: End): Event {
    match h
    case InOf(p, x) => AttachIn(p, x)
    case OutOf(q, x) => AttachOut(q, x)
  }

  /** The endpoint is detached, its port is disconnected, or an inport gets another peer. */
  predicate Drops(e: Event, h: End) {
    match h
    case InOf(p, x) => e == DetachIn(p, x) || e == DisconnectIn(p) || (e.AttachIn? && e.p == p && e.peer != x)
    case OutOf(q, x) => e == DetachOut(q, x) || e == DisconnectOut(q)
  }

  predicate KeptFrom(es: seq<Event>, i: nat, h: End) { forall j :: i <= j < |es| ==> !Drops(es[j], h) }

  /** It was there or has been attached, and has not been dropped since. */
  predicate Stands(s: Ports, es: seq<Event>, h: End)
    requires Among(s, h)
  {
    || (Has(s, h) && KeptFrom(es, 0, h))
    || exists i :: 0 <= i < |es| && es[i] == Attach(h) && KeptFrom(es, i + 1, h)
  }

  /** Only the ports matter for what is attached, not the status. */
  lemma StatusOnly(s: Ports)
    ensures DidConnect(s).ins == s.ins && DidConnect(s).outs == s.outs
    ensures DidDisconnect(s).ins == s.ins && DidDisconnect(s).outs == s.outs
  {
  }

  lemma InNext(s: Ports, e: Event, p: nat, x: PortId)
    requires Addresses(s, e) && p < |s.ins|
    ensures |Step(s, e).ins| == |s.ins|
    ensures Step(s, e).ins[p] == Some(x) <==> e == AttachIn(p, x) || (s.ins[p] == Some(x) && !Drops(e, InOf(p, x)))
  {
    hide DidConnect, DidDisconnect, Without;
    StatusOnly(s);
    match e {
      case AttachIn(q, y) =>
        var s1 := if s.ins[q].Some? then InDetached(s, q, s.ins[q].value) else s;
        StatusOnly(s1.(ins := s.ins[q := Some(y)]));
      case AttachOut(q, y) =>
        var s1 := OutDetached(s, q, y);
        var o := s1.outs[q];
        StatusOnly(s1.(outs := s1.outs[q := o.(peers := o.peers + [y], readers := o.readers + {y})]));
      case _ =>
    }
  }

  lemma OutNext(s: Ports, e: Event, q: nat, x: PortId)
    requires Sound(s) && Addresses(s, e) && q < |s.outs|
    ensures |Step(s, e).outs| == |s.outs|
    ensures x in Step(s, e).outs[q].peers <==>
              e == AttachOut(q, x) || (x in s.outs[q].peers && !Drops(e, OutOf(q, x)))
  {
    hide DidConnect, DidDisconnect, AllConnected, Without, NoTwice;
    StatusOnly(s);
    if e.AttachOut? || e.DetachOut? {
      WithoutKeeps(s.outs[e.q].peers, e.peer);
      OthersKept(s.outs[e.q].peers, e.peer);
    }
    if e.AttachOut? {
      var s1 := OutDetached(s, e.q, e.peer);
      var o := s1.outs[e.q];
      StatusOnly(s1.(outs := s1.outs[e.q := o.(peers := o.peers + [e.peer], readers := o.readers + {e.peer})]));
    } else if e.AttachIn? {
      var s1 := if s.ins[e.p].Some? then InDetached(s, e.p, s.ins[e.p].value) else s;
      StatusOnly(s1.(ins := s.ins[e.p := Some(e.peer)]));
    }
  }

  lemma HasNext(s: Ports, e: Event, h: End)
    requires Sound(s) && Addresses(s, e) && Among(s, h)
    ensures Among(Step(s, e), h) && (Has(Step(s, e), h) <==> e == Attach(h) || (Has(s, h) && !Drops(e, h)))
  {
    hide Step, Drops;
    match h {
      case InOf(p, x) => InNext(s, e, p, x);
      case OutOf(q, x) => OutNext(s, e, q, x);
    }
  }

  lemma KeptNext(es: seq<Event>, i: nat, h: End)
    requires i < |es|
    ensures KeptFrom(es, i, h) <==> KeptFrom(es[..|es| - 1], i, h) && !Drops(es[|es| - 1], h)
    ensures KeptFrom(es, |es|, h)
  {
    var init := es[..|es| - 1];
    assert forall j :: 0 <= j < |init| ==> init[j] == es[j];
    if KeptFrom(es, i, h) { forall j | i <= j < |init| ensures !Drops(init[j], h) { assert !Drops(es[j], h); } }
    if KeptFrom(init, i, h) && !Drops(es[|es| - 1], h) {
      forall j | i <= j < |es| ensures !Drops(es[j], h) { if j < |init| { assert !Drops(init[j], h); } }
    }
  }

  lemma StandsNext(s: Ports, es: seq<Event>, h: End)
    requires es != [] && Among(s, h)
    ensures var n := |es| - 1;
            Stands(s, es, h) <==> es[n] == Attach(h) || (Stands(s, es[..n], h) && !Drops(es[n], h))
  {
    hide KeptFrom, Drops, Has;
    var n := |es| - 1;
    var init := es[..n];
    KeptNext(es, 0, h);
    forall i: nat | i < |es|
      ensures i < n ==> init[i] == es[i] && (KeptFrom(es, i + 1, h) <==> KeptFrom(init, i + 1, h) && !Drops(es[n], h))
    {
      if i < n { KeptNext(es, i + 1, h); }
    }
    if Stands(s, init, h) && !Drops(es[n], h) && !(Has(s, h) && KeptFrom(init, 0, h)) {
      var i :| 0 <= i < n && init[i] == Attach(h) && KeptFrom(init, i + 1, h);
      assert es[i] == Attach(h) && KeptFrom(es, i + 1, h);
    }
    if Stands(s, es, h) && es[n] != Attach(h) && !(Has(s, h) && KeptFrom(es, 0, h)) {
      var i :| 0 <= i < |es| && es[i] == Attach(h) && KeptFrom(es, i + 1, h);
      assert init[i] == Attach(h) && KeptFrom(init, i + 1, h);
    }
  }

  lemma StandsNothing(s: Ports, h: End)
    requires Among(s, h)
    ensures Stands(s, [], h) <==> Has(s, h)
  {
  }

  lemma {:induction false} RunLast(s: Ports, es: seq<Event>)
    requires es != [] && forall i :: 0 <= i < |es| ==> Addresses(s, es[i])
    ensures var n := |es| - 1;
            && (forall i :: 0 <= i < n ==> Addresses(s, es[..n][i]))
            && Addresses(Run(s, es[..n]), es[n]) && Run(s, es) == Step(Run(s, es[..n]), es[n])
    decreases |es|
  {
    hide Step;
    var n := |es| - 1;
    var init := es[..n];
    StepSizes(s, es[0]);
    var s1, rest := Step(s, es[0]), es[1..];
    assert forall i :: 0 <= i < |rest| ==> rest[i] == es[i + 1] && Addresses(s, es[i + 1]);
    if n == 0 {
      assert rest == [] && Run(s1, rest) == s1 && Run(s, init) == s;
    } else {
      RunLast(s1, rest);
      assert rest[..n - 1] == init[1..] && rest[n - 1] == es[n];
      assert forall i :: 0 <= i < |init| ==> init[i] == es[i];
      assert Run(s, init) == Run(s1, init[1..]);
    }
  }

  /** However ports are attached, detached and disconnected: an endpoint is there at the end if and only if it was
      there or was attached, and has not been dropped since. */
  lemma {:induction false} HasIff(s: Ports, es: seq<Event>, h: End)
    requires Sound(s) && Among(s, h) && forall i :: 0 <= i < |es| ==> Addresses(s, es[i])
    ensures Sound(Run(s, es)) && Among(Run(s, es), h)
    ensures Has(Run(s, es), h) <==> Stands(s, es, h)
    decreases |es|
  {
    hide Step, Has, Stands, Drops, Sound;
    if es == [] {
      StandsNothing(s, h);
    } else {
      var n := |es| - 1;
      RunLast(s, es);
      HasIff(s, es[..n], h);
      HasNext(Run(s, es[..n]), es[n], h);
      StepKeepsSound(Run(s, es[..n]), es[n]);
      StandsNext(s, es, h);
    }
  }

  /** What was ever attached to an outport stays a reader of its FIFO, and nothing else becomes one. */
  lemma {:induction false} RegisteredIff(s: Ports, es: seq<Event>, q: nat, x: PortId)
    requires q < |s.outs| && forall i :: 0 <= i < |es| ==> Addresses(s, es[i])
    ensures q < |Run(s, es).outs|
    ensures x in Run(s, es).outs[q].readers <==> x in s.outs[q].readers || AttachOut(q, x) in es
    decreases |es|
  {
    hide Step;
    if es != [] {
      var n := |es| - 1;
      RunLast(s, es);
      RegisteredIff(s, es[..n], q, x);
      ReadersNext(Run(s, es[..n]), es[n], q, x);
      assert es == es[..n] + [es[n]];
    }
  }

  lemma ReadersNext(s: Ports, e: Event, q: nat, x: PortId)
    requires q < |s.outs| && Addresses(s, e)
    ensures q < |Step(s, e).outs|
    ensures x in Step(s, e).outs[q].readers <==> x in s.outs[q].readers || e == AttachOut(q, x)
  {
    hide AllConnected, NoneConnected, Without;
  }

  /** An actor is ENABLED only while each inport has a peer and each outport as many as it is to have, by the
      events so far. */
  lemma EnabledStands(s: Ports, es: seq<Event>, p: nat, q: nat)
    requires Sound(s) && forall i :: 0 <= i < |es| ==> Addresses(s, es[i])
    ensures Run(s, es).status.Enabled? && p < |s.ins| ==> exists x :: Stands(s, es, InOf(p, x))
    ensures Run(s, es).status.Enabled? && q < |s.outs| ==>
              && q < |Run(s, es).outs| && |Run(s, es).outs[q].peers| >= s.outs[q].fanout
              && forall x :: x in Run(s, es).outs[q].peers ==> Stands(s, es, OutOf(q, x))
  {
    hide Run, Stands, Sound;
    EnabledOnlyConnected(s, es);
    var t := Run(s, es);
    if t.status.Enabled? && p < |s.ins| {
      HasIff(s, es, InOf(p, ""));
      var x := t.ins[p].value;
      HasIff(s, es, InOf(p, x));
      assert Stands(s, es, InOf(p, x));
    }
    if t.status.Enabled? && q < |s.outs| {
      forall x | x in t.outs[q].peers ensures Stands(s, es, OutOf(q, x)) { HasIff(s, es, OutOf(q, x)); }
    }
  }

  /** The status after a port loses an endpoint: READY if nothing was connected even before, otherwise PENDING for
      an actor that was ENABLED, and no change. A detach of what is not attached does nothing. */
  lemma DropStatus(s: Ports, e: Event)
    requires Addresses(s, e) && !e.AttachIn? && !e.AttachOut?
    ensures var nothing :=
              (e.DetachIn? && s.ins[e.p] != Some(e.peer)) || (e.DetachOut? && e.peer !in s.outs[e.q].peers);
            && (nothing ==> Step(s, e) == s)
            && (!nothing ==>
                  Step(s, e).status ==
                    if (forall p :: 0 <= p < |s.ins| ==> s.ins[p].None?)
                       && (forall q :: 0 <= q < |s.outs| ==> |s.outs[q].peers| < s.outs[q].fanout) then Ready
                    else if s.status.Enabled? then Pending else s.status)
  {
  }

  /** The status after an attach: ENABLED if each inport has a peer and each outport as many as it is to have;
      otherwise PENDING, unless the actor was never made ready. */
  lemma AttachStatus(s: Ports, e: Event)
    requires Sound(s) && Addresses(s, e) && (e.AttachIn? || e.AttachOut?)
    ensures var t := Step(s, e);
            var all := (forall p :: 0 <= p < |t.ins| ==> t.ins[p].Some?)
                       && (forall q :: 0 <= q < |t.outs| ==> |t.outs[q].peers| >= t.outs[q].fanout);
            && (all ==> t.status.Enabled?)
            && (!all && !s.status.Loaded? ==> t.status.Pending?)
            && (!all && s.status.Loaded? && e.AttachIn? ==> t.status.Loaded?)
  {
    AttachEnablesIff(s, e);
  }
}
