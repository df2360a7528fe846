/** Collecting the answers when all ports of an actor are disconnected (portmanager.py:501-663). */
module Disconnects {
  import opened Wrappers

  type PortId = string
  type PeerId = string

  /** disconnecting_ports; the shared list port_ids; and what the caller's callback was called with. */
  datatype State = State(waiting: map<PortId, set<PeerId>>, pending: set<PortId>, calls: seq<bool>)

  /** _disconnecting_actor_cb, called for one port. */
  function ActorCb(s: State, p: PortId, ok: bool): State {
    var s1 := if !ok && s.pending != {} then s.(pending := {}, calls := s.calls + [false]) else s;
    if p !in s1.pending then s1
    else
      var left := s1.pending - {p};
      s1.(pending := left, calls := if left == {} then s1.calls + [true] else s1.calls)
  }

  /** _disconnect_port: `ok` tells whether all local peers could be disconnected. */
  function PortStarted(s: State, p: PortId, remote: set<PeerId>, ok: bool): State {
    if remote == {} || !ok then ActorCb(s.(waiting := s.waiting - {p}), p, ok)
    else s.(waiting := s.waiting[p := remote])
  }

  /** _disconnected_port: one remote peer has answered. A failure for a port that is not waiting any more
      raises. */
  function PeerAnswered(s: State, p: PortId, peer: PeerId, ok: bool): Result<State> {
    if p !in s.waiting then if ok then Ok(s) else Raised("KeyError")
    else
      var left := s.waiting[p] - {peer};
      if !ok then Ok(ActorCb(s.(waiting := s.waiting - {p}), p, false))
      else if left == {} then Ok(ActorCb(s.(waiting := s.waiting - {p}), p, true))
      else Ok(s.(waiting := s.waiting[p := left]))
  }

  datatype Event = Start(port: PortId, remote: set<PeerId>, ok: bool) | Answer(port: PortId, peer: PeerId, ok: bool)

  /** The manager, with the ports it has still to start on and the answers still to come. */
  datatype World = World(s: State, todo: set<PortId>, due: map<PortId, set<PeerId>>)

  predicate Enabled(w: World, e: Event) {
    match e
    case Start(p, _, _) => p in w.todo
    case Answer(p, peer, _) => p in w.due && peer in w.due[p]
  }

  /** An exception changes nothing and is not passed on. */
  function Step(w: World, e: Event): World
    requires Enabled(w, e)
  {
    match e
    case Start(p, remote, ok) => World(PortStarted(w.s, p, remote, ok), w.todo - {p}, w.due[p := remote])
    case Answer(p, peer, ok) =>
      var r := PeerAnswered(w.s, p, peer, ok);
      World(if r.Ok? then r.value else w.s, w.todo, w.due[p := w.due[p] - {peer}])
  }

  predicate Finished(w: World) { w.todo == {} && forall p :: p in w.due ==> w.due[p] == {} }

  // ------------------------------------------------------------ what every order of answers keeps

  /** Nothing has failed so far: a port is pending until it is started and all its peers have answered. */
  predicate AllWell(w: World) {
    && w.s.pending == w.todo + w.s.waiting.Keys
    && w.s.calls == (if w.s.pending == {} then [true] else [])
    && w.todo !! w.due.Keys
    && (forall p :: p in w.s.waiting ==> p in w.due && w.s.waiting[p] == w.due[p] && w.due[p] != {})
    && (forall p :: p in w.due && p !in w.s.waiting ==> w.due[p] == {})
  }

  predicate Inv(w: World, failed: bool) {
    if failed then w.s.pending == {} && w.s.calls == [false] else AllWell(w)
  }

  lemma StartKeeps(w: World, e: Event)
    requires AllWell(w) && Enabled(w, e) && e.Start?
    ensures Inv(Step(w, e), !e.ok)
  {
    var w' := Step(w, e);
    assert e.port in w.s.pending;
    if e.ok {
      if e.remote == {} {
        assert w.s.waiting - {e.port} == w.s.waiting;
        assert w'.s.pending == w'.todo + w'.s.waiting.Keys;
      } else {
        assert w'.s.pending == w'.todo + w'.s.waiting.Keys;
      }
    }
  }

  lemma AnswerKeeps(w: World, e: Event)
    requires AllWell(w) && Enabled(w, e) && e.Answer?
    ensures Inv(Step(w, e), !e.ok)
  {
    var p := e.port;
    assert p in w.s.waiting;
    var w' := Step(w, e);
    if e.ok {
      var left := w.s.waiting[p] - {e.peer};
      if left == {} {
        assert w'.s.waiting.Keys == w.s.waiting.Keys - {p};
        assert w'.s.pending == w'.todo + w'.s.waiting.Keys;
      } else {
        assert w'.s.waiting.Keys == w.s.waiting.Keys;
      }
    }
  }

  lemma StepKeeps(w: World, e: Event, failed: bool)
    requires Inv(w, failed) && Enabled(w, e)
    ensures Inv(Step(w, e), failed || !e.ok)
  {
    if !failed {
      if e.Start? { StartKeeps(w, e); } else { AnswerKeeps(w, e); }
    }
  }

  predicate Allowed(w: World, es: seq<Event>)
    decreases |es|
  {
    es == [] || (Enabled(w, es[0]) && Allowed(Step(w, es[0]), es[1..]))
  }

  function Run(w: World, es: seq<Event>): World
    requires Allowed(w, es)
    decreases |es|
  {
    if es == [] then w else Run(Step(w, es[0]), es[1..])
  }

  predicate AllOk(es: seq<Event>) { forall i :: 0 <= i < |es| ==> es[i].ok }

  lemma {:induction false} RunKeeps(w: World, es: seq<Event>, failed: bool)
    requires Inv(w, failed) && Allowed(w, es)
    ensures Inv(Run(w, es), failed || !AllOk(es))
    decreases |es|
  {
    hide Inv;
    if es != [] {
      StepKeeps(w, es[0], failed);
      RunKeeps(Step(w, es[0]), es[1..], failed || !es[0].ok);
      assert AllOk(es) <==> es[0].ok && AllOk(es[1..]) by {
        assert forall i :: 0 <= i < |es| - 1 ==> es[1..][i] == es[i + 1];
        assert forall i :: 1 <= i < |es| ==> es[i] == es[1..][i - 1];
      }
    }
  }

  function Began(ports: set<PortId>): World { World(State(map[], ports, []), ports, map[]) }

  /** Whatever the order: a callback by the first failure, or after the last answer, never both and never
      twice; it reports success if and only if every port and every peer succeeded. */
  lemma CalledOnce(ports: set<PortId>, es: seq<Event>)
    requires ports != {} && Allowed(Began(ports), es)
    ensures var w := Run(Began(ports), es);
            && |w.s.calls| <= 1
            && (!AllOk(es) ==> w.s.calls == [false])
            && (Finished(w) ==> w.s.calls == [AllOk(es)])
            && (AllOk(es) && !Finished(w) ==> w.s.calls == [])
  {
    RunKeeps(Began(ports), es, false);
    var w := Run(Began(ports), es);
    if AllOk(es) && !Finished(w) && w.todo == {} {
      var p :| p in w.due && w.due[p] != {};
      assert p in w.s.waiting.Keys;
    }
    if AllOk(es) && Finished(w) {
      assert w.s.waiting.Keys == {};
    }
  }

  /** An actor without ports is never answered for. */
  lemma NoPortsNoCall(es: seq<Event>)
    requires Allowed(Began({}), es)
    ensures Run(Began({}), es).s.calls == []
  {
    assert es == [];
  }

  // ------------------------------------------------------------ answers that raise

  /** The ports something has failed for. */
  function FailedPorts(es: seq<Event>): set<PortId> {
    set i | 0 <= i < |es| && !es[i].ok :: es[i].port
  }

  /** A port with answers due is waiting, exactly unless something has failed for it. */
  predicate Tracked(w: World, failed: set<PortId>) {
    && failed <= w.due.Keys && w.todo !! w.due.Keys && w.s.waiting.Keys <= w.due.Keys
    && forall p :: p in w.due ==>
         && (p in w.s.waiting ==> w.s.waiting[p] == w.due[p] && w.due[p] != {} && p !in failed)
         && (p !in w.s.waiting ==> p in failed || w.due[p] == {})
  }

  lemma CbKeepsWaiting(s: State, p: PortId, ok: bool)
    ensures ActorCb(s, p, ok).waiting == s.waiting
  {
  }

  lemma StepTracks(w: World, e: Event, failed: set<PortId>)
    requires Tracked(w, failed) && Enabled(w, e)
    ensures Tracked(Step(w, e), failed + if e.ok then {} else {e.port})
    ensures e.Answer? ==> (PeerAnswered(w.s, e.port, e.peer, e.ok).Raised? <==> !e.ok && e.port in failed)
  {
    hide ActorCb;
    CbKeepsWaiting(w.s.(waiting := w.s.waiting - {e.port}), e.port, e.ok);
  }

  lemma FailedNext(es: seq<Event>)
    requires es != []
    ensures FailedPorts(es) == (if es[0].ok then {} else {es[0].port}) + FailedPorts(es[1..])
  {
    var rest := es[1..];
    forall p | p in FailedPorts(es) ensures p in (if es[0].ok then {} else {es[0].port}) + FailedPorts(rest) {
      var i :| 0 <= i < |es| && !es[i].ok && es[i].port == p;
      if i > 0 { assert rest[i - 1] == es[i]; }
    }
    forall p | p in FailedPorts(rest) ensures p in FailedPorts(es) {
      var i :| 0 <= i < |rest| && !rest[i].ok && rest[i].port == p;
      assert es[i + 1] == rest[i];
    }
  }

  lemma {:induction false} RunTracks(w: World, es: seq<Event>, failed: set<PortId>)
    requires Tracked(w, failed) && Allowed(w, es)
    ensures Tracked(Run(w, es), failed + FailedPorts(es))
    decreases |es|
  {
    hide Tracked, Step, FailedPorts;
    if es == [] {
      assert failed + FailedPorts([]) == failed by { NoneFailed(); }
    } else {
      StepTracks(w, es[0], failed);
      var now := failed + if es[0].ok then {} else {es[0].port};
      RunTracks(Step(w, es[0]), es[1..], now);
      FailedNext(es);
      assert now + FailedPorts(es[1..]) == failed + FailedPorts(es);
    }
  }

  lemma NoneFailed()
    ensures FailedPorts([]) == {}
  {
  }

  /** Whatever has happened so far, an answer raises if and only if it reports a failure and something has
      failed before for the same port: a peer of it, or disconnecting it locally. */
  lemma AnswerRaisesIff(ports: set<PortId>, es: seq<Event>, p: PortId, peer: PeerId, ok: bool)
    requires Allowed(Began(ports), es) && Enabled(Run(Began(ports), es), Answer(p, peer, ok))
    ensures PeerAnswered(Run(Began(ports), es).s, p, peer, ok).Raised? <==>
              !ok && exists i :: 0 <= i < |es| && es[i].port == p && !es[i].ok
  {
    hide Run, Allowed, PeerAnswered;
    RunTracks(Began(ports), es, {});
    assert {} + FailedPorts(es) == FailedPorts(es);
    StepTracks(Run(Began(ports), es), Answer(p, peer, ok), FailedPorts(es));
    assert p in FailedPorts(es) <==> exists i :: 0 <= i < |es| && es[i].port == p && !es[i].ok;
  }

  /** Two failing peers of one outport: the second answer raises. */
  lemma SecondFailureRaises(p: PortId, a: PeerId, b: PeerId)
    requires a != b
    ensures var s := PortStarted(State(map[], {p}, []), p, {a, b}, true);
            var r := PeerAnswered(s, p, a, false);
            r.Ok? && r.value.calls == [false] && PeerAnswered(r.value, p, b, false).Raised?
  {
    var s := PortStarted(State(map[], {p}, []), p, {a, b}, true);
    assert a in {a, b};
  }
}
