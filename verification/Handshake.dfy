/** Setting up a tunnel when both ends may ask for one at once (calvin_proto.py:31-94, 337-428). */
module Handshake {
  import opened Wrappers

  /** Tunnel ids are compared by their order. */
  type Id = nat

  datatype Status = Pending | Working

  datatype Tunnel = Tunnel(kind: string, status: Status)

  /** A node's tunnels to one peer, by id. */
  type Table = map<Id, Tunnel>

  /** TUNNEL_NEW and its reply. A reply reaches the tunnel object that asked, named here by its kind. */
  datatype Msg = New(kind: string, id: Id) | Reply(kind: string, id: Id)

  datatype End = End(id: Id, status: Status)

  ghost predicate OnePerKind(t: Table) {
    forall i, j :: i in t && j in t && t[i].kind == t[j].kind ==> i == j
  }

  /** _get_tunnel: the tunnel of a kind. */
  ghost function EndOf(t: Table, kind: string): (e: Option<End>)
    ensures e.Some? ==> e.value.id in t && t[e.value.id] == Tunnel(kind, e.value.status)
    ensures e.None? ==> forall i :: i in t ==> t[i].kind != kind
  {
    if exists i :: i in t && t[i].kind == kind then
      var i :| i in t && t[i].kind == kind;
      Some(End(i, t[i].status))
    else None
  }

  /** The tunnel stored under `was`, if there is one, is now stored under `id` with this status. */
  function Stored(t: Table, was: Id, id: Id, kind: string, status: Status): Table {
    (t - {was})[id := Tunnel(kind, status)]
  }

  function Max(i: Id, j: Id): Id { if i < j then j else i }

  /** tunnel_new, with a link in place: the table, and what is sent. */
  ghost function Asked(t: Table, kind: string, mine: Id): (Table, seq<Msg>) {
    if EndOf(t, kind).Some? then (t, []) else (Stored(t, mine, mine, kind, Pending), [New(kind, mine)])
  }

  /** tunnel_new_handler, the handler accepting. */
  ghost function Heard(t: Table, kind: string, id: Id): (Table, seq<Msg>) {
    var e := EndOf(t, kind);
    if e.None? then (Stored(t, id, id, kind, Working), [Reply(kind, id)])
    else if e.value.status.Working? then (t, [])
    else
      var m := Max(e.value.id, id);
      (Stored(t, e.value.id, m, kind, Working), [Reply(kind, m)])
  }

  /** _setup_ack with a positive reply. */
  ghost function Acknowledged(t: Table, kind: string, id: Id): Table {
    var e := EndOf(t, kind);
    if e.None? then t else Stored(t, e.value.id, id, kind, Working)
  }

  ghost function Received(t: Table, m: Msg): (Table, seq<Msg>) {
    match m
    case New(kind, id) => Heard(t, kind, id)
    case Reply(kind, id) => (Acknowledged(t, kind, id), [])
  }

  // ------------------------------------------------------------ two nodes and their link

  /** Both nodes' tables, what is under way in each direction, and who asked with which id. */
  datatype Pair = Pair(a: Table, b: Table, ab: seq<Msg>, ba: seq<Msg>, askedA: map<string, Id>, askedB: map<string, Id>)

  function Swap(p: Pair): Pair { Pair(p.b, p.a, p.ba, p.ab, p.askedB, p.askedA) }

  datatype Event = AskA(kind: string, mine: Id) | AskB(kind: string, mine: Id) | ToB | ToA

  predicate Unused(p: Pair, id: Id) {
    (forall k :: k in p.askedA ==> p.askedA[k] != id) && (forall k :: k in p.askedB ==> p.askedB[k] != id)
  }

  predicate Enabled(p: Pair, e: Event) {
    match e
    case AskA(_, mine) => Unused(p, mine)
    case AskB(_, mine) => Unused(p, mine)
    case ToB => p.ab != []
    case ToA => p.ba != []
  }

  ghost function AskStep(p: Pair, kind: string, mine: Id): Pair {
    var (a, sent) := Asked(p.a, kind, mine);
    p.(a := a, ab := p.ab + sent, askedA := if sent == [] then p.askedA else p.askedA[kind := mine])
  }

  ghost function ToBStep(p: Pair): Pair
    requires p.ab != []
  {
    var (b, sent) := Received(p.b, p.ab[0]);
    p.(b := b, ab := p.ab[1..], ba := p.ba + sent)
  }

  ghost function Step(p: Pair, e: Event): Pair
    requires Enabled(p, e)
  {
    match e
    case AskA(kind, mine) => AskStep(p, kind, mine)
    case AskB(kind, mine) => Swap(AskStep(Swap(p), kind, mine))
    case ToB => ToBStep(p)
    case ToA => Swap(ToBStep(Swap(p)))
  }

  /** The messages about one kind, in order. */
  function Only(ms: seq<Msg>, kind: string): seq<Msg> {
    if ms == [] then [] else (if ms[0].kind == kind then [ms[0]] else []) + Only(ms[1..], kind)
  }

  // ------------------------------------------------------------ where a handshake can be

  /** One end asked, with i; x and y are the ends of the asking and the other node. */
  predicate OneAsked(x: Option<End>, y: Option<End>, xy: seq<Msg>, yx: seq<Msg>, k: string, i: Id) {
    || (x == Some(End(i, Pending)) && y == None && xy == [New(k, i)] && yx == [])
    || (x == Some(End(i, Pending)) && y == Some(End(i, Working)) && xy == [] && yx == [Reply(k, i)])
    || (x == Some(End(i, Working)) && y == Some(End(i, Working)) && xy == [] && yx == [])
  }

  predicate OnReply(ms: seq<Msg>, k: string, m: Id) { ms == [] || ms == [Reply(k, m)] }

  /** y has heard x's request; its own request is still under way, ahead of its reply. */
  predicate HeardFirst(x: Option<End>, y: Option<End>, xy: seq<Msg>, yx: seq<Msg>, k: string, i: Id, j: Id) {
    x == Some(End(i, Pending)) && y == Some(End(Max(i, j), Working)) && xy == []
    && yx == [New(k, j), Reply(k, Max(i, j))]
  }

  predicate BothAsked(x: Option<End>, y: Option<End>, xy: seq<Msg>, yx: seq<Msg>, k: string, i: Id, j: Id) {
    || (x == Some(End(i, Pending)) && y == Some(End(j, Pending)) && xy == [New(k, i)] && yx == [New(k, j)])
    || HeardFirst(x, y, xy, yx, k, i, j)
    || HeardFirst(y, x, yx, xy, k, j, i)
    || (x == Some(End(Max(i, j), Working)) && y == x && OnReply(xy, k, Max(i, j)) && OnReply(yx, k, Max(i, j)))
  }

  ghost predicate KindInv(p: Pair, k: string) {
    var x, y, xy, yx := EndOf(p.a, k), EndOf(p.b, k), Only(p.ab, k), Only(p.ba, k);
    if k in p.askedA then
      if k in p.askedB then BothAsked(x, y, xy, yx, k, p.askedA[k], p.askedB[k])
      else OneAsked(x, y, xy, yx, k, p.askedA[k])
    else if k in p.askedB then OneAsked(y, x, yx, xy, k, p.askedB[k])
    else x == None && y == None && xy == [] && yx == []
  }

  /** No id was asked with twice. */
  predicate DistinctIds(p: Pair) {
    && (forall k, l :: k in p.askedA && l in p.askedA && p.askedA[k] == p.askedA[l] ==> k == l)
    && (forall k, l :: k in p.askedB && l in p.askedB && p.askedB[k] == p.askedB[l] ==> k == l)
    && (forall k, l :: k in p.askedA && l in p.askedB ==> p.askedA[k] != p.askedB[l])
  }

  ghost predicate Inv(p: Pair) {
    && DistinctIds(p) && OnePerKind(p.a) && OnePerKind(p.b)
    && forall k :: KindInv(p, k)
  }

  lemma SwapInv(p: Pair)
    requires Inv(p)
    ensures Inv(Swap(p))
  {
    forall k ensures KindInv(Swap(p), k) { assert KindInv(p, k); }
  }

  lemma EndUnique(t: Table, i: Id)
    requires OnePerKind(t) && i in t
    ensures EndOf(t, t[i].kind) == Some(End(i, t[i].status))
  {
  }

  lemma NoneOf(t: Table, k: string)
    requires forall i :: i in t ==> t[i].kind != k
    ensures EndOf(t, k) == None
  {
  }

  /** Storing the one tunnel of a kind under an id no other kind uses. */
  lemma StoredEnds(t: Table, was: Id, id: Id, kind: string, status: Status, l: string)
    requires OnePerKind(t)
    requires if EndOf(t, kind).Some? then was == EndOf(t, kind).value.id else was == id
    requires id in t ==> t[id].kind == kind
    ensures var t' := Stored(t, was, id, kind, status);
            && OnePerKind(t') && EndOf(t', kind) == Some(End(id, status))
            && (l != kind ==> EndOf(t', l) == EndOf(t, l))
  {
    var t' := Stored(t, was, id, kind, status);
    assert OnePerKind(t') by {
      assert forall i :: i in t && t[i].kind == kind ==> i == was;
    }
    assert t'[id] == Tunnel(kind, status);
    EndUnique(t', id);
    if l != kind {
      if EndOf(t, l).Some? {
        var i := EndOf(t, l).value.id;
        assert i in t' && t'[i] == t[i];
        EndUnique(t', i);
      } else {
        NoneOf(t', l);
      }
    }
  }

  lemma OnlyHead(ms: seq<Msg>, k: string)
    requires ms != []
    ensures Only(ms, k) == (if ms[0].kind == k then [ms[0]] else []) + Only(ms[1..], k)
  {
  }

  lemma {:induction false} OnlyAppend(ms: seq<Msg>, ns: seq<Msg>, k: string)
    ensures Only(ms + ns, k) == Only(ms, k) + Only(ns, k)
    decreases |ms|
  {
    hide Only;
    OnlyNothing(k);
    if ms == [] {
      assert ms + ns == ns;
    } else {
      assert (ms + ns)[1..] == ms[1..] + ns;
      OnlyAppend(ms[1..], ns, k);
      OnlyHead(ms, k);
      OnlyHead(ms + ns, k);
      var h := if ms[0].kind == k then [ms[0]] else [];
      assert h + (Only(ms[1..], k) + Only(ns, k)) == (h + Only(ms[1..], k)) + Only(ns, k);
    }
  }

  lemma OnlyNothing(k: string)
    ensures Only([], k) == []
  {
  }

  lemma OnlyOne(m: Msg, k: string)
    ensures Only([m], k) == if m.kind == k then [m] else []
  {
    assert [m][1..] == [];
  }


  /** An id held for a kind was asked with for that kind. */
  lemma IdWasAsked(p: Pair, k: string, id: Id)
    requires KindInv(p, k)
    requires (EndOf(p.a, k).Some? && EndOf(p.a, k).value.id == id) || (EndOf(p.b, k).Some? && EndOf(p.b, k).value.id == id)
    ensures (k in p.askedA && p.askedA[k] == id) || (k in p.askedB && p.askedB[k] == id)
  {
  }

  /** An id on the move for a kind was asked with for that kind. */
  lemma HeadWasAsked(p: Pair, k: string)
    requires KindInv(p, k) && p.ab != [] && p.ab[0].kind == k
    ensures (k in p.askedA && p.askedA[k] == p.ab[0].id) || (k in p.askedB && p.askedB[k] == p.ab[0].id)
  {
    OnlyHead(p.ab, k);
    assert Only(p.ab, k)[0] == p.ab[0];
  }

  /** So an id asked with for kind k is not the key of another kind's tunnel. */
  lemma IdIsFree(p: Pair, k: string, id: Id)
    requires Inv(p)
    requires Unused(p, id) || (k in p.askedA && p.askedA[k] == id) || (k in p.askedB && p.askedB[k] == id)
    ensures id in p.a ==> p.a[id].kind == k
    ensures id in p.b ==> p.b[id].kind == k
  {
    hide KindInv;
    if id in p.a {
      EndUnique(p.a, id);
      IdWasAsked(p, p.a[id].kind, id);
    }
    if id in p.b {
      EndUnique(p.b, id);
      IdWasAsked(p, p.b[id].kind, id);
    }
  }

  lemma AskKeeps(p: Pair, kind: string, mine: Id)
    requires Inv(p) && Unused(p, mine)
    ensures Inv(AskStep(p, kind, mine))
  {
    hide KindInv, Only;
    var q := AskStep(p, kind, mine);
    if EndOf(p.a, kind).Some? {
      assert p.ab + [] == p.ab && q == p;
    } else {
      IdIsFree(p, kind, mine);
      StoredEnds(p.a, mine, mine, kind, Pending, kind);
      forall k ensures KindInv(q, k) {
        StoredEnds(p.a, mine, mine, kind, Pending, k);
        OnlyAppend(p.ab, [New(kind, mine)], k);
        OnlyOne(New(kind, mine), k);
        assert KindInv(p, k);
        AskKind(p, kind, mine, k);
      }
    }
  }

  lemma AskKind(p: Pair, kind: string, mine: Id, k: string)
    requires KindInv(p, k) && EndOf(p.a, kind).None?
    requires var q := AskStep(p, kind, mine);
             && EndOf(q.a, k) == (if k == kind then Some(End(mine, Pending)) else EndOf(p.a, k))
             && Only(q.ab, k) == Only(p.ab, k) + (if k == kind then [New(kind, mine)] else [])
    ensures KindInv(AskStep(p, kind, mine), k)
  {
    hide Only, EndOf;
    if k != kind { assert Only(p.ab, k) + [] == Only(p.ab, k); }
  }

  /** What the receiving end's tunnel becomes, and what it sends back. */
  function HeardEnd(y: Option<End>, m: Msg): (Option<End>, seq<Msg>) {
    match m
    case New(k, id) =>
      if y.None? then (Some(End(id, Working)), [Reply(k, id)])
      else if y.value.status.Working? then (y, [])
      else (Some(End(Max(y.value.id, id), Working)), [Reply(k, Max(y.value.id, id))])
    case Reply(k, id) => (if y.None? then y else Some(End(id, Working)), [])
  }

  lemma ReceivedEnds(t: Table, m: Msg, l: string)
    requires OnePerKind(t) && (m.id in t ==> t[m.id].kind == m.kind)
    ensures var (t', sent) := Received(t, m);
            && OnePerKind(t') && sent == HeardEnd(EndOf(t, m.kind), m).1
            && EndOf(t', m.kind) == HeardEnd(EndOf(t, m.kind), m).0
            && (l != m.kind ==> EndOf(t', l) == EndOf(t, l))
  {
    hide OnePerKind, Stored;
    var e := EndOf(t, m.kind);
    if e.None? {
      StoredEnds(t, m.id, m.id, m.kind, Working, l);
    } else {
      StoredEnds(t, e.value.id, if m.New? then Max(e.value.id, m.id) else m.id, m.kind, Working, l);
    }
  }

  /** The kind of the message delivered. */
  lemma DeliverOwn(p: Pair, y': Option<End>, xy': seq<Msg>, yx': seq<Msg>, k: string)
    requires KindInv(p, k) && p.ab != [] && p.ab[0].kind == k
    requires var (y1, sent) := HeardEnd(EndOf(p.b, k), p.ab[0]);
             y' == y1 && yx' == Only(p.ba, k) + sent
    requires Only(p.ab, k) == [p.ab[0]] + xy'
    ensures var x := EndOf(p.a, k);
            if k in p.askedA then
              if k in p.askedB then BothAsked(x, y', xy', yx', k, p.askedA[k], p.askedB[k])
              else OneAsked(x, y', xy', yx', k, p.askedA[k])
            else k in p.askedB && OneAsked(y', x, yx', xy', k, p.askedB[k])
  {
    hide EndOf, Only;
    var ms := Only(p.ab, k);
    assert ms[0] == p.ab[0] && ms[1..] == xy';
    assert Only(p.ba, k) + [] == Only(p.ba, k);
  }

  lemma DeliverKeeps(p: Pair)
    requires Inv(p) && p.ab != []
    ensures Inv(ToBStep(p))
  {
    hide KindInv, Only, HeardEnd, Received;
    var m, q := p.ab[0], ToBStep(p);
    HeadWasAsked(p, m.kind);
    IdIsFree(p, m.kind, m.id);
    ReceivedEnds(p.b, m, m.kind);
    forall k ensures KindInv(q, k) {
      ReceivedEnds(p.b, m, k);
      OnlyHead(p.ab, k);
      OnlyAppend(p.ba, Received(p.b, m).1, k);
      assert KindInv(p, k);
      DeliverKind(p, k);
    }
  }

  lemma SentKind(y: Option<End>, m: Msg, k: string)
    ensures Only(HeardEnd(y, m).1, k) == if m.kind == k then HeardEnd(y, m).1 else []
  {
    var sent := HeardEnd(y, m).1;
    if sent != [] { OnlyOne(sent[0], k); assert sent == [sent[0]]; }
  }

  lemma DeliverKind(p: Pair, k: string)
    requires KindInv(p, k) && p.ab != []
    requires var (m, q) := (p.ab[0], ToBStep(p));
             && EndOf(q.b, k) == (if k == m.kind then HeardEnd(EndOf(p.b, k), m).0 else EndOf(p.b, k))
             && Only(p.ab, k) == (if m.kind == k then [m] else []) + Only(q.ab, k)
             && Only(q.ba, k) == Only(p.ba, k) + Only(HeardEnd(EndOf(p.b, m.kind), m).1, k)
    ensures KindInv(ToBStep(p), k)
  {
    hide EndOf, Only, HeardEnd, Received, BothAsked, OneAsked;
    var m, q := p.ab[0], ToBStep(p);
    SentKind(EndOf(p.b, m.kind), m, k);
    if k == m.kind {
      DeliverOwn(p, EndOf(q.b, k), Only(q.ab, k), Only(q.ba, k), k);
    } else {
      assert [] + Only(q.ab, k) == Only(q.ab, k);
      assert Only(p.ba, k) + [] == Only(p.ba, k);
    }
  }

  lemma StepKeeps(p: Pair, e: Event)
    requires Inv(p) && Enabled(p, e)
    ensures Inv(Step(p, e))
  {
    hide Inv;
    SwapInv(p);
    match e
    case AskA(kind, mine) => AskKeeps(p, kind, mine);
    case AskB(kind, mine) =>
      AskKeeps(Swap(p), kind, mine);
      SwapInv(AskStep(Swap(p), kind, mine));
    case ToB => DeliverKeeps(p);
    case ToA =>
      DeliverKeeps(Swap(p));
      SwapInv(ToBStep(Swap(p)));
  }

  const START := Pair(map[], map[], [], [], map[], map[])

  ghost predicate Runs(p: Pair, es: seq<Event>, q: Pair)
    decreases |es|
  {
    if es == [] then q == p else Enabled(p, es[0]) && Runs(Step(p, es[0]), es[1..], q)
  }

  lemma {:induction false} RunKeeps(p: Pair, es: seq<Event>, q: Pair)
    requires Inv(p) && Runs(p, es, q)
    ensures Inv(q)
    decreases |es|
  {
    hide Inv;
    if es != [] {
      StepKeeps(p, es[0]);
      RunKeeps(Step(p, es[0]), es[1..], q);
    }
  }

  lemma ReachableInv(es: seq<Event>, q: Pair)
    requires Runs(START, es, q)
    ensures Inv(q)
  {
    forall k ensures KindInv(START, k) { NoneOf(START.a, k); }
    RunKeeps(START, es, q);
  }

  // ------------------------------------------------------------ the results

  function Agreed(p: Pair, k: string): Id
    requires k in p.askedA || k in p.askedB
  {
    if k !in p.askedB then p.askedA[k] else if k !in p.askedA then p.askedB[k] else Max(p.askedA[k], p.askedB[k])
  }

  /** Whoever asked, and whenever: once nothing is under way both ends have one tunnel of the kind,
      working, under the same id, the larger one if both asked. */
  lemma BothEndsAgree(es: seq<Event>, p: Pair, k: string)
    requires Runs(START, es, p) && p.ab == [] && p.ba == [] && (k in p.askedA || k in p.askedB)
    ensures EndOf(p.a, k) == EndOf(p.b, k) == Some(End(Agreed(p, k), Working))
    ensures OnePerKind(p.a) && OnePerKind(p.b)
  {
    ReachableInv(es, p);
    assert KindInv(p, k);
  }

  /** A request never finds a working tunnel, so none is dropped without an answer. */
  lemma NoRequestDropped(es: seq<Event>, p: Pair)
    requires Runs(START, es, p) && p.ab != [] && p.ab[0].New?
    ensures EndOf(p.b, p.ab[0].kind).None? || EndOf(p.b, p.ab[0].kind).value.status.Pending?
    ensures Received(p.b, p.ab[0]).1 != []
  {
    ReachableInv(es, p);
    var k := p.ab[0].kind;
    assert KindInv(p, k);
    OnlyHead(p.ab, k);
    assert Only(p.ab, k)[0] == p.ab[0];
  }

  function Weight(ms: seq<Msg>): nat {
    if ms == [] then 0 else (if ms[0].New? then 2 else 1) + Weight(ms[1..])
  }

  lemma {:induction false} WeightAppend(ms: seq<Msg>, ns: seq<Msg>)
    ensures Weight(ms + ns) == Weight(ms) + Weight(ns)
    decreases |ms|
  {
    if ms == [] {
      assert ms + ns == ns;
    } else {
      assert (ms + ns)[1..] == ms[1..] + ns;
      WeightAppend(ms[1..], ns);
    }
  }

  lemma DeliveryToB(p: Pair)
    requires p.ab != []
    ensures Weight(ToBStep(p).ab) + Weight(ToBStep(p).ba) < Weight(p.ab) + Weight(p.ba)
  {
    var sent := Received(p.b, p.ab[0]).1;
    WeightAppend(p.ba, sent);
    if sent != [] { assert sent[1..] == []; }
  }

  /** Every delivery, in either direction, brings the link closer to being empty, and asks for nothing. */
  lemma DeliveriesEnd(p: Pair, e: Event)
    requires Enabled(p, e) && (e.ToB? || e.ToA?)
    ensures Weight(Step(p, e).ab) + Weight(Step(p, e).ba) < Weight(p.ab) + Weight(p.ba)
    ensures Step(p, e).askedA == p.askedA && Step(p, e).askedB == p.askedB
  {
    if e.ToB? { DeliveryToB(p); } else { DeliveryToB(Swap(p)); }
  }

  lemma {:induction false} DeliverAll(p: Pair) returns (es: seq<Event>, q: Pair)
    requires Inv(p)
    ensures Runs(p, es, q) && q.ab == [] && q.ba == [] && Inv(q)
    ensures q.askedA == p.askedA && q.askedB == p.askedB
    decreases Weight(p.ab) + Weight(p.ba)
  {
    hide Inv;
    if p.ab == [] && p.ba == [] {
      es, q := [], p;
    } else {
      var e := if p.ab != [] then ToB else ToA;
      StepKeeps(p, e);
      DeliveriesEnd(p, e);
      var more, last := DeliverAll(Step(p, e));
      es, q := [e] + more, last;
      assert es[1..] == more;
    }
  }

  /** From every reachable state deliveries alone complete every setup that was begun. */
  lemma SetupsComplete(es: seq<Event>, p: Pair) returns (more: seq<Event>, q: Pair)
    requires Runs(START, es, p)
    ensures Runs(p, more, q) && q.ab == [] && q.ba == []
    ensures forall k :: k in p.askedA || k in p.askedB ==>
              EndOf(q.a, k) == EndOf(q.b, k) == Some(End(Agreed(p, k), Working))
  {
    ReachableInv(es, p);
    more, q := DeliverAll(p);
    forall k | k in p.askedA || k in p.askedB
      ensures EndOf(q.a, k) == EndOf(q.b, k) == Some(End(Agreed(p, k), Working))
    {
      assert KindInv(q, k);
    }
  }

  /** On a link that let a reply overtake a request, the request would find a working tunnel and get no
      answer: the order of the link is needed. */
  lemma OvertakenRequestIsDropped(k: string, i: Id, j: Id)
    requires i < j
    ensures var mine := Stored(map[], i, i, k, Pending);
            var overtaken := Acknowledged(mine, k, j);
            Heard(overtaken, k, j) == (overtaken, [])
  {
    var mine := Stored(map[], i, i, k, Pending);
    assert i in mine;
    EndUnique(mine, i);
    StoredEnds(mine, i, j, k, Working, k);
  }
}
