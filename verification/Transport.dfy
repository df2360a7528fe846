/** An outport, the inports it feeds, and the tunnels between them, as a state machine.

    Every event is one uninterrupted piece of the runtime's work on one node: a token written,
    one pass of `communicate`, one message taken off a link, one firing's worth of consumption,
    one attach, disconnect or migration. */
module Transport {
  import opened Wrappers
  import opened Tokens
  import opened FifoSpec
  import opened EndpointSpec
  import opened Streams

  datatype InEnd = InDetached | TunnelIn | LocalInEnd(dataInLocal: bool, mismatch: bool)

  datatype OutEnd = OutDetached | TunnelOut(acked: seq<nat>, bulk: bool) | LocalOut

  /** One inport: its own FIFO, both ends of its connection, the messages in flight each way,
      and all tokens its actor has consumed so far. A node that accepts a connection answers OK on
      the link that carries the tokens: `okFwd` and `okBack` are such answers on their way to the
      inport and to the outport, each with the number of messages ahead of it. */
  datatype Link = Link(
    fifo: FifoState,
    inEnd: InEnd,
    outEnd: OutEnd,
    fwd: seq<TokenMsg>,
    back: seq<ReplyMsg>,
    okFwd: Option<nat>,
    okBack: Option<nat>,
    got: seq<Token>)

  /** `hist` is everything the outport's actor has written. */
  datatype System = System(out: FifoState, hist: seq<Token>, fanout: nat, links: map<PortId, Link>)

  datatype Event =
    | WriteToken(data: Token)
    | Send(p: PortId, mayNow: bool)
    | DeliverToken(p: PortId)
    | DeliverReply(p: PortId)
    | Poll(p: PortId)
    | Consume(p: PortId, k: nat)
    | PeekAndRewind(p: PortId, k: nat)
    | ReadOne(p: PortId)
    | DisconnectOut
    | DisconnectIn(p: PortId)
    | AcceptIn(p: PortId)
    | OkToOut(p: PortId, here: bool)
    | AcceptOut(p: PortId)
    | OkToIn(p: PortId, here: bool)
    | ConnectLocal(p: PortId)
    | RenewOut(p: PortId)
    | RenewIn(p: PortId)
    | MigrateIn(p: PortId, image: FifoImage)
    | MigrateOut(image: FifoImage)

  // -------------------------------------------------------------------- events

  function AttachedPeers(s: System): set<PortId> {
    set p | p in s.links && !s.links[p].outEnd.OutDetached?
  }

  /** OutPort.is_connected */
  predicate Connected(s: System) {
    |AttachedPeers(s)| >= s.fanout
  }

  predicate Drained(l: Link) {
    l.fwd == [] && l.back == [] && l.okFwd.None? && l.okBack.None?
  }

  /** The place of an OK after one message ahead of it has been taken off the link. */
  function Ahead(ok: Option<nat>): Option<nat>
    requires ok != Some(0)
  {
    if ok.Some? then Some(ok.value - 1) else None
  }

  function SenderOf(s: System, p: PortId): Sender
    requires p in s.links && s.links[p].outEnd.TunnelOut?
  {
    Sender(s.out, s.links[p].outEnd.acked, s.links[p].outEnd.bulk)
  }

  function LocalOf(s: System, p: PortId): LocalIn
    requires p in s.links && s.links[p].inEnd.LocalInEnd?
  {
    LocalIn(s.links[p].fifo, s.out, s.links[p].inEnd.dataInLocal, s.links[p].inEnd.mismatch)
  }

  predicate CanTalk(s: System, p: PortId) {
    && p in s.links && s.links[p].outEnd.TunnelOut?
    && Reads(s.out, p) && s.out.tpos[p] <= s.out.wpos
  }

  predicate CanConsume(s: System, p: PortId) {
    && p in s.links
    && match s.links[p].inEnd
       case InDetached => false
       case TunnelIn => Reads(s.links[p].fifo, p)
       case LocalInEnd(_, _) => Positioned(LocalOf(s, p), p)
  }

  function Available(s: System, p: PortId): int
    requires CanConsume(s, p)
  {
    if s.links[p].inEnd.TunnelIn? then AvailableTokens(s.links[p].fifo, p)
    else LocalAvailable(LocalOf(s, p), p).1
  }

  predicate TokenWaiting(s: System, p: PortId) {
    p in s.links && s.links[p].fwd != [] && s.links[p].okFwd != Some(0) && s.links[p].fifo.WellFormed()
  }

  predicate ReplyWaiting(s: System, p: PortId) {
    && p in s.links && s.links[p].back != [] && s.links[p].okBack != Some(0)
    && (s.links[p].outEnd.TunnelOut? ==> Reads(s.out, p))
  }

  /** The tokens a peek found; None would be a peek past the end. */
  function Handed(ts: seq<Option<Token>>): seq<Token> {
    if ts == [] then []
    else (if ts[0].Some? then [ts[0].value] else []) + Handed(ts[1..])
  }

  function WithSender(s: System, p: PortId, snd: Sender, l: Link): System {
    s.(out := snd.fifo, links := s.links[p := l.(outEnd := TunnelOut(snd.acked, snd.bulk))])
  }

  function WithLocal(s: System, p: PortId, loc: LocalIn, got: seq<Token>): System
    requires p in s.links
  {
    s.(out := loc.theirs,
       links := s.links[p := s.links[p].(fifo := loc.mine,
                                         inEnd := LocalInEnd(loc.dataInLocal, loc.mismatch),
                                         got := s.links[p].got + got)])
  }

  function WithLink(s: System, p: PortId, l: Link): System {
    s.(links := s.links[p := l])
  }

  /** Same ports, same stream. */
  predicate SamePorts(s: System, s': System) {
    s'.links.Keys == s.links.Keys && s'.hist == s.hist && s'.fanout == s.fanout
  }

  function Sent(s: System, p: PortId, mayNow: bool): (s': System)
    requires CanTalk(s, p)
    ensures SamePorts(s, s')
  {
    var (snd, ms) := Communicate(SenderOf(s, p), p, mayNow);
    WithSender(s, p, snd, s.links[p].(fwd := s.links[p].fwd + ms))
  }

  ghost function TokenDelivered(s: System, p: PortId): (s': System)
    requires TokenWaiting(s, p)
    ensures SamePorts(s, s')
  {
    var l := s.links[p];
    var m := l.fwd[0];
    var (fifo, verdict) := if l.inEnd.TunnelIn? then RecvToken(l.fifo, m) else (l.fifo, Abort);
    WithLink(s, p, l.(fifo := fifo, fwd := l.fwd[1..], okFwd := Ahead(l.okFwd),
                      back := l.back + [ReplyMsg(m.seqnr, verdict)]))
  }

  function ReplyDelivered(s: System, p: PortId): (s': System)
    requires ReplyWaiting(s, p)
    ensures SamePorts(s, s')
  {
    var l := s.links[p];
    var l' := l.(back := l.back[1..], okBack := Ahead(l.okBack));
    if l.outEnd.TunnelOut? then WithSender(s, p, Reply(SenderOf(s, p), p, l.back[0]), l')
    else WithLink(s, p, l')
  }

  function Polled(s: System, p: PortId): (s': System)
    requires CanConsume(s, p)
    ensures SamePorts(s, s')
  {
    if s.links[p].inEnd.TunnelIn? then s
    else WithLocal(s, p, LocalAvailable(LocalOf(s, p), p).0, [])
  }

  /** One firing on the inport: available_tokens, k times peek_token, commit_peek_as_read. */
  function Consumed(s: System, p: PortId, k: nat): (s': System)
    requires CanConsume(s, p)
    ensures SamePorts(s, s')
  {
    var l := s.links[p];
    if l.inEnd.TunnelIn? then
      var (f, ts) := PeekMany(l.fifo, p, k);
      WithLink(s, p, l.(fifo := CommitReads(f, p, true), got := l.got + Handed(ts)))
    else
      var (loc, ts) := LocalPeekMany(LocalAvailable(LocalOf(s, p), p).0, p, k);
      WithLocal(s, p, LocalCommit(loc, p), Handed(ts))
  }

  /** The same when the action does not fire: peek_rewind instead of the commit. */
  function Rewound(s: System, p: PortId, k: nat): (s': System)
    requires CanConsume(s, p)
    ensures SamePorts(s, s')
  {
    var l := s.links[p];
    if l.inEnd.TunnelIn? then WithLink(s, p, l.(fifo := CommitReads(PeekMany(l.fifo, p, k).0, p, false)))
    else
      var loc := LocalPeekMany(LocalAvailable(LocalOf(s, p), p).0, p, k).0;
      WithLocal(s, p, LocalRewind(loc, p), [])
  }

  function OneRead(s: System, p: PortId): (s': System)
    requires CanConsume(s, p)
    ensures SamePorts(s, s')
  {
    var l := s.links[p];
    if l.inEnd.TunnelIn? then
      var t := Front(l.fifo, p);
      WithLink(s, p, l.(fifo := CommitReads(Read(l.fifo, p), p, t.Some?), got := l.got + Handed([t])))
    else
      var (loc, t) := LocalRead(LocalOf(s, p), p);
      WithLocal(s, p, loc, Handed([t]))
  }

  /** OutPort.disconnect: every endpoint goes, tentative reads go back to the acked position. */
  function Unsent(s: System): FifoState
    requires s.out.WellFormed()
  {
    s.out.(tpos := map q | q in s.out.tpos ::
                     if q in AttachedPeers(s) then s.out.rpos[q] else s.out.tpos[q])
  }

  function OutDisconnected(s: System): (s': System)
    requires s.out.WellFormed()
    ensures SamePorts(s, s')
  {
    s.(out := Unsent(s), links := map q | q in s.links :: s.links[q].(outEnd := OutDetached))
  }

  /** An endpoint for p is attached to the outport, which registers p as a reader. */
  function OutAttached(s: System, p: PortId, l: Link): System {
    s.(out := AddReader(s.out, p), links := s.links[p := l])
  }

  /** The outport's node asks the inport's: the inport's end is attached at once, the outport's
      when the OK comes back. */
  function InAccepted(s: System, p: PortId): System
    requires p in s.links
  {
    WithLink(s, p, s.links[p].(inEnd := TunnelIn, okBack := Some(|s.links[p].back|)))
  }

  /** The OK reaches the outport's node; when the port has left that node, it is lost. */
  function OkAtOut(s: System, p: PortId, here: bool): System
    requires p in s.links
  {
    if here then OutAttached(s, p, s.links[p].(outEnd := TunnelOut([], true), okBack := None))
    else WithLink(s, p, s.links[p].(okBack := None))
  }

  /** The inport's node asks the outport's, as after a consumer has migrated: the outport's end is
      attached first and may send before the OK has reached the inport. */
  function OutAccepted(s: System, p: PortId): System
    requires p in s.links
  {
    OutAttached(s, p, s.links[p].(outEnd := TunnelOut([], true), okFwd := Some(|s.links[p].fwd|)))
  }

  function OkAtIn(s: System, p: PortId, here: bool): System
    requires p in s.links
  {
    WithLink(s, p, s.links[p].(inEnd := if here then TunnelIn else s.links[p].inEnd, okFwd := None))
  }

  function Committed(f: FifoState, p: PortId): nat { if p in f.rpos then f.rpos[p] else 0 }

  function Tentative(f: FifoState, p: PortId): nat { if p in f.tpos then f.tpos[p] else 0 }

  /** Sequence number of the i-th outstanding exchange, replies in flight first. */
  function Nr(back: seq<ReplyMsg>, fwd: seq<TokenMsg>, i: nat): nat
    requires i < |back| + |fwd|
  {
    if i < |back| then back[i].seqnr else fwd[i - |back|].seqnr
  }

  /** Every token in flight will find the inport attached to the tunnel: it is, or the OK that
      attaches it travels ahead. */
  predicate Receiving(l: Link) {
    l.inEnd.TunnelIn? || l.okFwd.Some?
  }

  /** No end yet and nothing in flight, or an end that is still in place. */
  predicate Unhindered(l: Link) {
    l.outEnd.OutDetached? ==> l.fwd == [] && l.back == []
  }

  /** Both ports on one node now: what `connect` puts in the place of whatever ends there are. */
  function LocalConnected(s: System, p: PortId): System
    requires p in s.links
  {
    OutAttached(s, p, s.links[p].(inEnd := LocalInEnd(true, true), outEnd := LocalOut))
  }

  /** The outport's node puts a new end where one is still in place. Nothing is rolled back. */
  function OutRenewed(s: System, p: PortId): System
    requires p in s.links
  {
    OutAttached(s, p, s.links[p].(outEnd := TunnelOut([], true)))
  }

  /** The inport's node puts a new end, while the outport's has been in place all along. */
  function InRenewed(s: System, p: PortId): System
    requires p in s.links
  {
    WithLink(s, p, s.links[p].(inEnd := TunnelIn))
  }

  /** Nothing is tentative, or the inport already has all that is, and more. */
  predicate Overtaken(s: System, p: PortId)
    requires p in s.links
  {
    Tentative(s.out, p) == Committed(s.out, p) || Tentative(s.out, p) < s.links[p].fifo.wpos
  }

  /** The oldest exchange that still matters, if there is one, is about r. */
  predicate Leads(r: nat, back: seq<ReplyMsg>, fwd: seq<TokenMsg>, live: bool) {
    if live then |back| + |fwd| > 0 ==> Nr(back, fwd, 0) == r
    else back != [] && back[0].verdict != Abort ==> back[0].seqnr == r
  }

  /** All of [r, t) is on its way to be answered: nothing aborted, each number once and in order, or one
      retry of r behind refusals of later numbers. */
  predicate Coming(r: nat, t: nat, bulk: bool, back: seq<ReplyMsg>, fwd: seq<TokenMsg>) {
    var n := |back| + |fwd|;
    && (forall i :: 0 <= i < |back| ==> back[i].verdict != Abort)
    && if bulk then r + n == t && forall i :: 0 <= i < n ==> Nr(back, fwd, i) == r + i
       else
         var j := if t == r then n else n - 1;
         && (t != r ==> n > 0 && Nr(back, fwd, n - 1) == r)
         && forall i :: 0 <= i < j ==> Nr(back, fwd, i) > r
  }

  /** No refusal of a number later than the committed position is about to arrive. */
  predicate NoStaleRefusal(s: System, p: PortId)
    requires p in s.links && s.links[p].outEnd.TunnelOut?
  {
    var l := s.links[p];
    l.outEnd.bulk || Leads(Committed(s.out, p), l.back, l.fwd, Receiving(l))
  }

  /** All that is tentative is still on its way. */
  predicate StillComing(s: System, p: PortId)
    requires p in s.links && s.links[p].outEnd.TunnelOut?
  {
    var l := s.links[p];
    Coming(Committed(s.out, p), Tentative(s.out, p), l.outEnd.bulk, l.back, l.fwd)
  }

  ghost predicate Enabled(s: System, e: Event) {
    match e
    case WriteToken(_) => Connected(s) && s.out.WellFormed() && CanWrite(s.out)
    case Send(p, _) => CanTalk(s, p)
    case DeliverToken(p) => TokenWaiting(s, p)
    case DeliverReply(p) => ReplyWaiting(s, p)
    case Poll(p) => CanConsume(s, p)
    case Consume(p, k) => CanConsume(s, p) && 0 < k <= Available(s, p)
    case PeekAndRewind(p, k) => CanConsume(s, p) && 0 < k <= Available(s, p)
    case ReadOne(p) => CanConsume(s, p)
    case DisconnectOut => s.out.WellFormed() && AttachedPeers(s) <= s.out.readers
    case DisconnectIn(p) => p in s.links && !s.links[p].inEnd.InDetached?
    case AcceptIn(p) =>
      && p in s.links && s.links[p].okBack.None?
      && if s.links[p].outEnd.OutDetached? then Drained(s.links[p])
         else s.links[p].outEnd.TunnelOut? && s.links[p].okFwd.Some?
    case OkToOut(p, here) => p in s.links && s.links[p].okBack == Some(0) && (here ==> Unhindered(s.links[p]))
    case AcceptOut(p) =>
      && p in s.links && s.links[p].outEnd.OutDetached? && !s.links[p].inEnd.LocalInEnd?
      && s.links[p].okFwd.None? && Unhindered(s.links[p])
    case OkToIn(p, _) => p in s.links && s.links[p].okFwd == Some(0)
    case ConnectLocal(p) =>
      && p in s.links && s.links[p].okFwd.None? && s.links[p].okBack.None?
      && (s.links[p].outEnd.TunnelOut? ==> Overtaken(s, p))
    case RenewOut(p) => p in s.links && s.links[p].outEnd.TunnelOut? && NoStaleRefusal(s, p)
    case RenewIn(p) =>
      && p in s.links && s.links[p].outEnd.TunnelOut? && !s.links[p].inEnd.LocalInEnd?
      && (!Receiving(s.links[p]) ==> StillComing(s, p))
    case MigrateIn(p, image) =>
      p in s.links && s.links[p].inEnd.InDetached? && ImageOf(image, s.links[p].fifo)
    case MigrateOut(image) =>
      && ImageOf(image, s.out)
      && forall p :: p in s.links ==> s.links[p].outEnd.OutDetached? && !s.links[p].inEnd.LocalInEnd?
  }

  ghost function Apply(s: System, e: Event): System
    requires Enabled(s, e)
  {
    match e
    case WriteToken(data) => s.(out := Write(s.out, data), hist := s.hist + [data])
    case Send(p, mayNow) => Sent(s, p, mayNow)
    case DeliverToken(p) => TokenDelivered(s, p)
    case DeliverReply(p) => ReplyDelivered(s, p)
    case Poll(p) => Polled(s, p)
    case Consume(p, k) => Consumed(s, p, k)
    case PeekAndRewind(p, k) => Rewound(s, p, k)
    case ReadOne(p) => OneRead(s, p)
    case DisconnectOut => OutDisconnected(s)
    case DisconnectIn(p) => WithLink(s, p, s.links[p].(inEnd := InDetached))
    case AcceptIn(p) => InAccepted(s, p)
    case OkToOut(p, here) => OkAtOut(s, p, here)
    case AcceptOut(p) => OutAccepted(s, p)
    case OkToIn(p, here) => OkAtIn(s, p, here)
    case ConnectLocal(p) => LocalConnected(s, p)
    case RenewOut(p) => OutRenewed(s, p)
    case RenewIn(p) => InRenewed(s, p)
    case MigrateIn(p, image) => WithLink(s, p, s.links[p].(fifo := Restore(image)))
    case MigrateOut(image) => s.(out := Restore(image))
  }

  /** Nothing connected yet, nothing written. */
  ghost predicate Init(s: System) {
    && s.out.WellFormed() && s.out.readers == {} && s.out.wpos == 0
    && s.hist == [] && s.fanout == |s.links|
    && forall p :: p in s.links ==>
         && s.links[p].fifo.WellFormed() && s.links[p].fifo.readers == {p}
         && s.links[p].fifo.wpos == 0 && s.links[p].fifo.rpos[p] == 0 && s.links[p].fifo.tpos[p] == 0
         && s.links[p].inEnd.InDetached? && s.links[p].outEnd.OutDetached?
         && Drained(s.links[p]) && s.links[p].got == []
  }

  /** `s` leads to `s'` by the events `es`. */
  ghost predicate Run(s: System, es: seq<Event>, s': System)
    decreases |es|
  {
    if es == [] then s == s'
    else Enabled(s, es[0]) && Run(Apply(s, es[0]), es[1..], s')
  }

  ghost predicate Reachable(s: System) {
    exists s0, es :: Init(s0) && Run(s0, es, s)
  }

  // ---------------------------------------------------------------- invariant

  ghost predicate InboxAtRest(hist: seq<Token>, p: PortId, l: Link) {
    && l.fifo.WellFormed() && l.fifo.readers == {p}
    && Inbox(l.fifo, hist, p, l.fifo.rpos[p]) && l.fifo.tpos[p] == l.fifo.rpos[p]
    && l.got == hist[..l.fifo.rpos[p]]
  }

  ghost predicate Genuine(hist: seq<Token>, fwd: seq<TokenMsg>) {
    forall i :: 0 <= i < |fwd| ==> fwd[i].seqnr < |hist| && fwd[i].token == Encode(hist[fwd[i].seqnr])
  }

  /** The first v replies are real ones, the rest ABORTs; `count` exchanges still matter. With
      the inport attached to the tunnel, all of them do. */
  ghost predicate Outstanding(back: seq<ReplyMsg>, fwd: seq<TokenMsg>, live: bool, v: nat, count: nat) {
    && v <= |back| && v <= count <= |back| + |fwd|
    && (forall i :: 0 <= i < |back| ==> (back[i].verdict == Abort <==> v <= i))
    && (if live then v == |back| && count == |back| + |fwd| else count == v)
  }

  /** Sending in bulk: the outstanding numbers are exactly r, r+1, ..; the replies are k ACKs
      and then NACKs, and the first number refused is the receiver's write position. */
  ghost predicate Bulk(r: nat, t: nat, w: nat, back: seq<ReplyMsg>, fwd: seq<TokenMsg>, live: bool,
                       v: nat, count: nat, k: nat)
  {
    && Outstanding(back, fwd, live, v, count)
    && k <= v
    && (forall i :: 0 <= i < k ==> back[i].verdict == Ack)
    && (forall i :: k <= i < v ==> back[i].verdict == Nack)
    && (forall i :: 0 <= i < count ==> Nr(back, fwd, i) == r + i)
    && r + count <= t && (live ==> r + count == t)
    && w >= r + k && (k < v ==> w == r + k)
  }

  /** After a NACK: j stale exchanges, all refused, and behind them at most one retry of r. */
  ghost predicate Retry(r: nat, t: nat, w: nat, back: seq<ReplyMsg>, fwd: seq<TokenMsg>, live: bool,
                        v: nat, count: nat, j: nat)
  {
    && Outstanding(back, fwd, live, v, count)
    && j <= count <= j + 1 && r <= t <= r + 1
    && (forall i :: 0 <= i < j ==> Nr(back, fwd, i) > r)
    && (forall i :: 0 <= i < j && i < v ==> back[i].verdict == Nack)
    && (count == j + 1 ==> Nr(back, fwd, j) == r && t == r + 1)
    && (live && t == r + 1 ==> count == j + 1)
    && (if j < v && back[j].verdict == Ack then w == r + 1 else w == r)
  }

  ghost predicate Phase(r: nat, t: nat, w: nat, bulk: bool, back: seq<ReplyMsg>, fwd: seq<TokenMsg>, live: bool) {
    if bulk then exists v, count, k :: Bulk(r, t, w, back, fwd, live, v, count, k)
    else exists v, count, j :: Retry(r, t, w, back, fwd, live, v, count, j)
  }

  /** An OK is never behind a message, and no reply has come from the connection it announces. */
  predicate OksFirst(l: Link) {
    && (l.okFwd.Some? ==>
          && l.okFwd == Some(0) && l.back == [] && !l.inEnd.LocalInEnd?
          && (l.outEnd.TunnelOut? ==> l.outEnd.bulk))
    && (l.okBack.Some? ==>
          && l.okBack == Some(0) && !l.inEnd.LocalInEnd? && !l.outEnd.LocalOut?
          && (l.outEnd.TunnelOut? ==> l.outEnd.bulk))
  }

  /** `known`: the outport has registered p as a reader; r and t are then p's positions. */
  ghost predicate LinkInv(hist: seq<Token>, known: bool, r: nat, t: nat, p: PortId, l: Link) {
    && InboxAtRest(hist, p, l) && Genuine(hist, l.fwd) && OksFirst(l)
    && r <= l.fifo.wpos
    && (!known ==> r == t == 0 && l.outEnd.OutDetached? && !l.inEnd.LocalInEnd?)
    && (!l.outEnd.TunnelOut? ==> t == r || (l.outEnd.LocalOut? && t < l.fifo.wpos))
    && (l.inEnd.LocalInEnd? ==>
          && !l.outEnd.TunnelOut?
          && (!l.inEnd.mismatch ==> r == l.fifo.wpos)
          && (!l.inEnd.dataInLocal ==> !l.inEnd.mismatch && l.fifo.rpos[p] == l.fifo.wpos))
    && (l.outEnd.TunnelOut? ==>
          l.outEnd.acked == [] && Phase(r, t, l.fifo.wpos, l.outEnd.bulk, l.back, l.fwd, Receiving(l)))
  }

  ghost predicate PeerInv(s: System, p: PortId)
    requires p in s.links
  {
    LinkInv(s.hist, p in s.out.readers, Committed(s.out, p), Tentative(s.out, p), p, s.links[p])
  }

  ghost predicate Inv(s: System) {
    && Implements(s.out, s.hist)
    && s.out.readers <= s.links.Keys && s.fanout == |s.links|
    && (s.hist != [] ==> s.out.readers == s.links.Keys)
    && forall p :: p in s.links ==> PeerInv(s, p)
  }
}
