/** What the endpoint operations of endpoint.py do, as functions on values. */
module EndpointSpec {
  import opened Wrappers
  import opened Tokens
  import opened FifoSpec

  datatype Verdict = Ack | Nack | Abort

  datatype TokenMsg = TokenMsg(seqnr: nat, token: Coded)

  datatype ReplyMsg = ReplyMsg(seqnr: nat, verdict: Verdict)

  // ------------------------------------------------ the sending end of a tunnel

  /** A TunnelOutEndpoint for one peer together with the outport FIFO it reads. */
  datatype Sender = Sender(fifo: FifoState, acked: seq<nat>, bulk: bool)

  predicate Reads(f: FifoState, p: PortId) {
    f.WellFormed() && p in f.readers
  }

  function RemoveFirst(s: seq<nat>, x: nat): (r: seq<nat>)
    requires x in s
    ensures |r| == |s| - 1
  {
    if s[0] == x then s[1..] else [s[0]] + RemoveFirst(s[1..], x)
  }

  /** The loop of `_reply_ack`: `pos` is the committed position read once, before the loop. */
  function DrainAcks(f: FifoState, p: PortId, acked: seq<nat>, pos: nat): (r: (FifoState, seq<nat>))
    requires Reads(f, p)
    ensures Reads(r.0, p) && r.0.readers == f.readers
    decreases |acked|
  {
    if pos in acked then DrainAcks(CommitOneRead(f, p, true), p, RemoveFirst(acked, pos), pos)
    else (f, acked)
  }

  function ReplyAck(s: Sender, p: PortId, nr: nat): Sender
    requires Reads(s.fifo, p)
  {
    var acked := if nr < s.fifo.tpos[p] then s.acked + [nr] else s.acked;
    var (fifo, rest) := DrainAcks(s.fifo, p, acked, s.fifo.rpos[p]);
    Sender(fifo, rest, true)
  }

  function Below(s: seq<nat>, bound: nat): (r: seq<nat>)
    ensures forall x :: x in r ==> x in s && x < bound
  {
    if s == [] then []
    else if s[0] < bound then [s[0]] + Below(s[1..], bound)
    else Below(s[1..], bound)
  }

  /** The loop of `_reply_nack`. It ends because positions from `nr` up are still tentative. */
  function RollbackTo(f: FifoState, p: PortId, nr: nat): (r: FifoState)
    requires Reads(f, p) && f.rpos[p] <= nr
    ensures Reads(r, p) && r.readers == f.readers
    decreases f.tpos[p]
  {
    if f.tpos[p] > nr then RollbackTo(CommitOneRead(f, p, false), p, nr) else f
  }

  function ReplyNack(s: Sender, p: PortId, nr: nat): Sender
    requires Reads(s.fifo, p)
  {
    if nr < s.fifo.tpos[p] && nr >= s.fifo.rpos[p] then
      Sender(RollbackTo(s.fifo, p, nr), Below(s.acked, nr), false)
    else s.(bulk := false)
  }

  function Reply(s: Sender, p: PortId, r: ReplyMsg): Sender
    requires Reads(s.fifo, p)
  {
    match r.verdict
    case Ack => ReplyAck(s, p, r.seqnr)
    case Nack => ReplyNack(s, p, r.seqnr)
    case Abort => s
  }

  function SendOne(f: FifoState, p: PortId): (FifoState, TokenMsg)
    requires Reads(f, p) && CanRead(f, p)
  {
    (Read(f, p), TokenMsg(f.tpos[p], Encode(f.slots[f.tpos[p] % f.n])))
  }

  function SendAll(f: FifoState, p: PortId): (r: (FifoState, seq<TokenMsg>))
    requires Reads(f, p) && f.tpos[p] <= f.wpos
    ensures Reads(r.0, p) && r.0.readers == f.readers
    decreases f.wpos - f.tpos[p]
  {
    if CanRead(f, p) then
      var (g, m) := SendOne(f, p);
      var (h, ms) := SendAll(g, p);
      (h, [m] + ms)
    else (f, [])
  }

  lemma SendAllStep(f: FifoState, p: PortId)
    requires Reads(f, p) && f.tpos[p] <= f.wpos
    ensures !CanRead(f, p) ==> SendAll(f, p) == (f, [])
    ensures CanRead(f, p) ==>
              var (g, m) := SendOne(f, p);
              Reads(g, p) && g.tpos[p] <= g.wpos && SendAll(f, p) == (SendAll(g, p).0, [m] + SendAll(g, p).1)
  {
  }

  /** `mayNow` stands for time.time() >= self.time_cont. */
  function Communicate(s: Sender, p: PortId, mayNow: bool): (Sender, seq<TokenMsg>)
    requires Reads(s.fifo, p) && s.fifo.tpos[p] <= s.fifo.wpos
  {
    if s.bulk then
      var (f, ms) := SendAll(s.fifo, p);
      (s.(fifo := f), ms)
    else if CanRead(s.fifo, p) && s.fifo.tpos[p] == s.fifo.rpos[p] && mayNow then
      var (f, m) := SendOne(s.fifo, p);
      (s.(fifo := f), [m])
    else (s, [])
  }

  // ---------------------------------------------- the receiving end of a tunnel

  ghost function RecvToken(f: FifoState, m: TokenMsg): (r: (FifoState, Verdict))
    requires f.WellFormed()
    ensures r.0.n == f.n && r.1 != Abort
  {
    if CanWrite(f) && f.wpos == m.seqnr then (Write(f, Decode(m.token)), Ack)
    else if f.wpos > m.seqnr then (f, Ack)
    else (f, Nack)
  }

  /** `k` calls of peek_token at the receiving end of a tunnel. */
  function PeekMany(f: FifoState, p: PortId, k: nat): (r: (FifoState, seq<Option<Token>>))
    requires Reads(f, p)
    ensures Reads(r.0, p) && |r.1| == k
    decreases k
  {
    if k == 0 then (f, [])
    else
      var (g, ts) := PeekMany(Read(f, p), p, k - 1);
      (g, [Front(f, p)] + ts)
  }

  // ----------------------------------------------------------- a local connection

  /** A LocalInEndpoint with both FIFOs it works on: the inport's own and the peer outport's. */
  datatype LocalIn = LocalIn(mine: FifoState, theirs: FifoState, dataInLocal: bool, mismatch: bool)
  {
    predicate Linked(me: PortId) {
      Reads(mine, me) && Reads(theirs, me)
    }
  }

  predicate Positioned(s: LocalIn, me: PortId) {
    s.Linked(me) && s.theirs.rpos[me] <= s.theirs.tpos[me] <= s.theirs.wpos
  }

  function SkipDuplicates(mine: FifoState, theirs: FifoState, me: PortId): (r: FifoState)
    requires Reads(mine, me) && Reads(theirs, me)
    requires theirs.rpos[me] <= theirs.tpos[me] <= theirs.wpos
    ensures Reads(r, me) && r.rpos[me] <= r.tpos[me] <= r.wpos && r.readers == theirs.readers
    decreases theirs.wpos - theirs.tpos[me]
  {
    if CanRead(theirs, me) && mine.wpos > theirs.rpos[me] then
      SkipDuplicates(mine, CommitReads(Read(theirs, me), me, true), me)
    else theirs
  }

  lemma SkipOnce(mine: FifoState, theirs: FifoState, me: PortId)
    requires Reads(mine, me) && Reads(theirs, me) && theirs.rpos[me] <= theirs.tpos[me] <= theirs.wpos
    ensures CanRead(theirs, me) && mine.wpos > theirs.rpos[me] ==>
              var next := CommitReads(Read(theirs, me), me, true);
              && Reads(next, me) && next.rpos[me] <= next.tpos[me] <= next.wpos && next.tpos[me] == theirs.tpos[me] + 1
              && next.wpos == theirs.wpos && next.n == theirs.n && next.slots == theirs.slots
              && SkipDuplicates(mine, theirs, me) == SkipDuplicates(mine, next, me)
    ensures !(CanRead(theirs, me) && mine.wpos > theirs.rpos[me]) ==> SkipDuplicates(mine, theirs, me) == theirs
  {
  }

  /** The tests `if self.fifo_mismatch: self._fifo_mismatch_fix()`. */
  function Fixed(s: LocalIn, me: PortId): (r: LocalIn)
    requires Positioned(s, me)
    ensures Positioned(r, me) && r.theirs.readers == s.theirs.readers
  {
    if s.mismatch then s.(theirs := SkipDuplicates(s.mine, s.theirs, me), mismatch := false) else s
  }

  function Synced(s: LocalIn, me: PortId): (r: LocalIn)
    requires s.Linked(me)
    ensures r.Linked(me)
  {
    var w := s.theirs.rpos[me];
    s.(mine := s.mine.(wpos := w, rpos := s.mine.rpos[me := w], tpos := s.mine.tpos[me := w]))
  }

  function LocalRead(s: LocalIn, me: PortId): (LocalIn, Option<Token>)
    requires Positioned(s, me)
  {
    var s1 := Fixed(s, me);
    var own := if s1.dataInLocal then Front(s1.mine, me) else None;
    if own.Some? then (s1.(mine := CommitReads(Read(s1.mine, me), me, true)), own)
    else
      var token := Front(s1.theirs, me);
      var theirs := CommitReads(Read(s1.theirs, me), me, token.Some?);
      (Synced(s1.(theirs := theirs, dataInLocal := false), me), token)
  }

  function LocalPeek(s: LocalIn, me: PortId): (r: (LocalIn, Option<Token>))
    requires Positioned(s, me)
    ensures Positioned(r.0, me) && r.0.theirs.readers == s.theirs.readers
  {
    var s1 := Fixed(s, me);
    var own := if s1.dataInLocal then Front(s1.mine, me) else None;
    if own.Some? then (s1.(mine := Read(s1.mine, me)), own)
    else (s1.(theirs := Read(s1.theirs, me)), Front(s1.theirs, me))
  }

  function LocalRewind(s: LocalIn, me: PortId): LocalIn
    requires s.Linked(me)
  {
    s.(mine := if s.dataInLocal then CommitReads(s.mine, me, false) else s.mine,
       theirs := CommitReads(s.theirs, me, false))
  }

  function LocalCommit(s: LocalIn, me: PortId): LocalIn
    requires s.Linked(me)
  {
    var mine := if s.dataInLocal then CommitReads(s.mine, me, true) else s.mine;
    if s.dataInLocal && CanRead(mine, me) then s.(mine := mine)
    else
      Synced(s.(mine := mine, dataInLocal := false, theirs := CommitReads(s.theirs, me, true)), me)
  }

  function LocalAvailable(s: LocalIn, me: PortId): (LocalIn, int)
    requires Positioned(s, me)
  {
    var s1 := Fixed(s, me);
    var own := if s1.dataInLocal then AvailableTokens(s1.mine, me) else 0;
    (s1.(dataInLocal := s1.dataInLocal && own != 0), own + AvailableTokens(s1.theirs, me))
  }

  /** `k` calls of peek_token on a local connection. */
  function LocalPeekMany(s: LocalIn, me: PortId, k: nat): (r: (LocalIn, seq<Option<Token>>))
    requires Positioned(s, me)
    ensures Positioned(r.0, me) && |r.1| == k && r.0.theirs.readers == s.theirs.readers
    decreases k
  {
    if k == 0 then (s, [])
    else
      var (s1, t) := LocalPeek(s, me);
      var (s2, ts) := LocalPeekMany(s1, me, k - 1);
      (s2, [t] + ts)
  }
}
