/** A node's tunnels to one peer, updated in place (calvin_proto.py:72-94, 330-428). */
module TunnelProto {
  import opened Wrappers
  import opened Handshake

  class Node {
    var tunnels: Table

    constructor ()
      ensures tunnels == map[]
    {
      tunnels := map[];
    }

    method GetTunnel(kind: string) returns (e: Option<End>)
      requires OnePerKind(tunnels)
      ensures e == EndOf(tunnels, kind)
    {
      var todo := tunnels.Keys;
      while todo != {}
        invariant todo <= tunnels.Keys
        invariant forall i :: i in tunnels && i !in todo ==> tunnels[i].kind != kind
      {
        var i :| i in todo;
        if tunnels[i].kind == kind {
          EndUnique(tunnels, i);
          return Some(End(i, tunnels[i].status));
        }
        todo := todo - {i};
      }
      NoneOf(tunnels, kind);
      e := None;
    }

    method UpdateId(was: Id, id: Id)
      requires was in tunnels
      modifies this
      ensures tunnels == (old(tunnels) - {was})[id := old(tunnels)[was]]
    {
      var tunnel := tunnels[was];
      tunnels := tunnels - {was};
      tunnels := tunnels[id := tunnel];
    }

    /** _setup_ack with a positive reply for the tunnel now stored under `own`. */
    method SetupAck(own: Id, id: Id)
      requires own in tunnels && OnePerKind(tunnels)
      modifies this
      ensures tunnels == Acknowledged(old(tunnels), old(tunnels)[own].kind, id)
    {
      EndUnique(tunnels, own);
      if id != own { UpdateId(own, id); }
      tunnels := tunnels[id := tunnels[id].(status := Working)];
    }

    method TunnelNew(kind: string, mine: Id) returns (sent: seq<Msg>)
      requires OnePerKind(tunnels) && mine !in tunnels
      modifies this
      ensures (tunnels, sent) == Asked(old(tunnels), kind, mine)
    {
      var e := GetTunnel(kind);
      if e.Some? { return []; }
      assert tunnels - {mine} == tunnels;
      tunnels := tunnels[mine := Tunnel(kind, Pending)];
      sent := [New(kind, mine)];
    }

    method TunnelNewHandler(kind: string, id: Id) returns (sent: seq<Msg>)
      requires OnePerKind(tunnels) && (id in tunnels ==> tunnels[id].kind == kind)
      modifies this
      ensures (tunnels, sent) == Heard(old(tunnels), kind, id)
    {
      var e := GetTunnel(kind);
      if e.Some? {
        sent := [];
        if !e.value.status.Working? {
          if e.value.id < id {
            sent := [Reply(kind, id)];
            SetupAck(e.value.id, id);
          } else {
            sent := [Reply(kind, e.value.id)];
            SetupAck(e.value.id, e.value.id);
          }
        }
      } else {
        assert tunnels - {id} == tunnels;
        tunnels := tunnels[id := Tunnel(kind, Working)];
        sent := [Reply(kind, id)];
      }
    }
  }
}
