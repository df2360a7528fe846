/** The manager's lists, updated by the calls and callbacks in place (portmanager.py:540-663). */
module PortManager {
  import opened Wrappers
  import opened Disconnects

  class Manager {
    var disconnecting: map<PortId, set<PeerId>>
    var portIds: set<PortId>
    /** What the caller's callback was called with. */
    var calls: seq<bool>

    ghost function View(): State
      reads this
    {
      State(disconnecting, portIds, calls)
    }

    constructor (ports: set<PortId>)
      ensures View() == Began(ports).s
    {
      disconnecting, portIds, calls := map[], ports, [];
    }

    method DisconnectingActorCb(p: PortId, ok: bool)
      modifies `portIds, `calls
      ensures View() == ActorCb(old(View()), p, ok)
    {
      if !ok && portIds != {} {
        portIds := {};
        calls := calls + [false];
      }
      if p in portIds {
        portIds := portIds - {p};
        if portIds == {} { calls := calls + [true]; }
      }
    }

    method DisconnectPort(p: PortId, remote: set<PeerId>, ok: bool)
      modifies this
      ensures View() == PortStarted(old(View()), p, remote, ok)
    {
      ghost var was := disconnecting;
      disconnecting := disconnecting[p := remote];
      if remote == {} || !ok {
        disconnecting := disconnecting - {p};
        assert disconnecting == was - {p};
        DisconnectingActorCb(p, ok);
      }
    }

    method DisconnectedPort(p: PortId, peer: PeerId, ok: bool) returns (r: Result<()>)
      modifies this
      ensures r.Ok? <==> PeerAnswered(old(View()), p, peer, ok).Ok?
      ensures View() == if r.Ok? then PeerAnswered(old(View()), p, peer, ok).value else old(View())
    {
      ghost var was := disconnecting;
      if p in disconnecting { disconnecting := disconnecting[p := disconnecting[p] - {peer}]; }
      if !ok {
        if p !in disconnecting { return Raised("KeyError"); }
        disconnecting := disconnecting - {p};
        assert disconnecting == was - {p};
        DisconnectingActorCb(p, false);
      }
      if p in disconnecting && disconnecting[p] == {} {
        disconnecting := disconnecting - {p};
        assert disconnecting == was - {p};
        DisconnectingActorCb(p, true);
      }
      r := Ok(());
    }
  }
}
