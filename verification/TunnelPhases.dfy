/** The go-back-N exchange seen through its outstanding numbers: how each event of the tunnel
    moves the sender's positions r and t, the receiver's position w, and the messages. */
module TunnelPhases {
  import opened Wrappers
  import opened Tokens
  import opened FifoSpec
  import opened EndpointSpec
  import opened Streams
  import opened Transport

  // --------------------------------------------------- what the sender's operations do

  lemma AckOfCommitted(s: Sender, p: PortId, nr: nat)
    requires Reads(s.fifo, p) && s.acked == [] && nr == s.fifo.rpos[p] < s.fifo.tpos[p]
    ensures ReplyAck(s, p, nr) == Sender(At(s.fifo, p, nr + 1, s.fifo.tpos[p]), [], true)
  {
    ReadingMoves(s.fifo, p);
    assert s.acked + [nr] == [nr];
    var g := CommitOneRead(s.fifo, p, true);
    assert RemoveFirst([nr], nr) == [];
    assert DrainAcks(s.fifo, p, [nr], nr) == DrainAcks(g, p, [], nr) == (g, []);
  }

  lemma {:induction false} RollbackMoves(f: FifoState, p: PortId, nr: nat)
    requires Reads(f, p) && f.rpos[p] <= nr <= f.tpos[p]
    ensures RollbackTo(f, p, nr) == At(f, p, f.rpos[p], nr)
    decreases f.tpos[p]
  {
    ReadingMoves(f, p);
    if f.tpos[p] > nr {
      var g := CommitOneRead(f, p, false);
      RollbackMoves(g, p, nr);
      AtAt(f, p, f.rpos[p], f.tpos[p] - 1, f.rpos[p], nr);
    } else {
      AtSelf(f, p);
    }
  }

  lemma NackMoves(s: Sender, p: PortId, nr: nat)
    requires Reads(s.fifo, p) && s.acked == []
    ensures s.fifo.rpos[p] <= nr < s.fifo.tpos[p] ==>
              ReplyNack(s, p, nr) == Sender(At(s.fifo, p, s.fifo.rpos[p], nr), [], false)
    ensures !(s.fifo.rpos[p] <= nr < s.fifo.tpos[p]) ==> ReplyNack(s, p, nr) == s.(bulk := false)
  {
    if s.fifo.rpos[p] <= nr < s.fifo.tpos[p] {
      RollbackMoves(s.fifo, p, nr);
    }
  }

  ghost function Stretch(hist: seq<Token>, lo: nat, hi: nat): (ms: seq<TokenMsg>)
    requires lo <= hi <= |hist|
    ensures |ms| == hi - lo
    ensures forall i :: 0 <= i < hi - lo ==> ms[i] == TokenMsg(lo + i, Encode(hist[lo + i]))
  {
    seq(hi - lo, i requires 0 <= i < hi - lo => TokenMsg(lo + i, Encode(hist[lo + i])))
  }

  lemma SendsNext(f: FifoState, hist: seq<Token>, p: PortId)
    requires Implements(f, hist) && p in f.readers && f.tpos[p] < f.wpos
    ensures SendOne(f, p) == (At(f, p, f.rpos[p], f.tpos[p] + 1), TokenMsg(f.tpos[p], Encode(hist[f.tpos[p]])))
  {
    ReadRefines(f, hist, p);
    ReadingMoves(f, p);
  }

  lemma {:induction false} SendsRest(f: FifoState, hist: seq<Token>, p: PortId)
    requires Implements(f, hist) && p in f.readers
    ensures f.tpos[p] <= f.wpos
    ensures SendAll(f, p) == (At(f, p, f.rpos[p], f.wpos), Stretch(hist, f.tpos[p], f.wpos))
    decreases f.wpos - f.tpos[p]
  {
    hide Implements;
    Positions(f, hist);
    var t := f.tpos[p];
    if t < f.wpos {
      SendsNext(f, hist, p);
      ReadRefines(f, hist, p);
      var g := Read(f, p);
      SendsRest(g, hist, p);
      AtAt(f, p, f.rpos[p], t + 1, f.rpos[p], f.wpos);
      assert [TokenMsg(t, Encode(hist[t]))] + Stretch(hist, t + 1, f.wpos) == Stretch(hist, t, f.wpos);
    } else {
      AtSelf(f, p);
      assert Stretch(hist, t, t) == [];
    }
  }

  /** communicate() sends nothing unless something is unsent and, out of bulk mode, nothing awaits an answer and
      the time has come; then it sends the next tokens of the stream under their positions, all of them in bulk
      mode and one otherwise. Only this reader's tentative position moves. */
  lemma CommunicateSends(s: Sender, hist: seq<Token>, p: PortId, mayNow: bool)
    requires Implements(s.fifo, hist) && p in s.fifo.readers
    ensures s.fifo.tpos[p] <= s.fifo.wpos
    ensures var t := s.fifo.tpos[p];
            var (s', ms) := Communicate(s, p, mayNow);
            && (ms != [] <==> t < |hist| && (s.bulk || (mayNow && t == s.fifo.rpos[p])))
            && (ms != [] ==> |ms| == if s.bulk then |hist| - t else 1)
            && (forall i :: 0 <= i < |ms| ==> ms[i] == TokenMsg(t + i, Encode(hist[t + i])))
            && s' == s.(fifo := At(s.fifo, p, s.fifo.rpos[p], t + |ms|))
  {
    hide Retains, Slowest;
    Positions(s.fifo, hist);
    AtSelf(s.fifo, p);
    SendsRest(s.fifo, hist, p);
    if s.fifo.tpos[p] < s.fifo.wpos { SendsNext(s.fifo, hist, p); }
  }

  /** What is left of a list of acknowledged numbers below a bound. */
  lemma {:induction false} BelowCounts(s: seq<nat>, bound: nat, x: nat)
    ensures multiset(Below(s, bound))[x] == if x < bound then multiset(s)[x] else 0
    decreases |s|
  {
    if s != [] {
      BelowCounts(s[1..], bound, x);
      assert s == [s[0]] + s[1..];
    }
  }

  /** A NACK for a number that is out takes back this reader's tentative reads down to it and forgets what was
      acknowledged beyond it, each number as often as it is there; any NACK ends bulk mode. */
  lemma NackForgets(s: Sender, p: PortId, nr: nat, x: nat)
    requires Reads(s.fifo, p)
    ensures var s' := ReplyNack(s, p, nr);
            var out := s.fifo.rpos[p] <= nr < s.fifo.tpos[p];
            && !s'.bulk
            && s'.fifo == (if out then At(s.fifo, p, s.fifo.rpos[p], nr) else s.fifo)
            && multiset(s'.acked)[x] == if out && x >= nr then 0 else multiset(s.acked)[x]
  {
    BelowCounts(s.acked, nr, x);
    if s.fifo.rpos[p] <= nr < s.fifo.tpos[p] { RollbackMoves(s.fifo, p, nr); }
  }

  // --------------------------------------------------------------- phases

  lemma NrAfterDeliver(back: seq<ReplyMsg>, fwd: seq<TokenMsg>, v: Verdict)
    requires fwd != []
    ensures var back' := back + [ReplyMsg(fwd[0].seqnr, v)];
            forall i: nat :: i < |back| + |fwd| ==> Nr(back', fwd[1..], i) == Nr(back, fwd, i)
  {
  }

  lemma NrAfterReply(back: seq<ReplyMsg>, fwd: seq<TokenMsg>)
    requires back != []
    ensures forall i: nat :: i + 1 < |back| + |fwd| ==> Nr(back[1..], fwd, i) == Nr(back, fwd, i + 1)
  {
  }

  lemma NrAfterSend(back: seq<ReplyMsg>, fwd: seq<TokenMsg>, ms: seq<TokenMsg>)
    ensures forall i: nat :: i < |back| + |fwd| ==> Nr(back, fwd + ms, i) == Nr(back, fwd, i)
    ensures forall i: nat :: i < |ms| ==> Nr(back, fwd + ms, |back| + |fwd| + i) == ms[i].seqnr
  {
  }

  /** The receiver's verdict on the oldest token in flight keeps the exchange in phase. */
  lemma PhaseDeliver(r: nat, t: nat, w: nat, bulk: bool, back: seq<ReplyMsg>, fwd: seq<TokenMsg>,
                     w': nat, verdict: Verdict)
    requires Phase(r, t, w, bulk, back, fwd, true) && fwd != []
    requires verdict == Ack ==> (fwd[0].seqnr == w && w' == w + 1) || (fwd[0].seqnr < w && w' == w)
    requires verdict == Nack ==> fwd[0].seqnr >= w && w' == w
    requires verdict != Abort
    ensures Phase(r, t, w', bulk, back + [ReplyMsg(fwd[0].seqnr, verdict)], fwd[1..], true)
  {
    var back' := back + [ReplyMsg(fwd[0].seqnr, verdict)];
    NrAfterDeliver(back, fwd, verdict);
    if bulk {
      var v: nat, count: nat, k: nat :| Bulk(r, t, w, back, fwd, true, v, count, k);
      assert Nr(back, fwd, v) == fwd[0].seqnr == r + v;
      assert Bulk(r, t, w', back', fwd[1..], true, v + 1, count, if verdict == Ack then k + 1 else k);
    } else {
      var v: nat, count: nat, j: nat :| Retry(r, t, w, back, fwd, true, v, count, j);
      assert Nr(back, fwd, v) == fwd[0].seqnr;
      assert Retry(r, t, w', back', fwd[1..], true, v + 1, count, j);
    }
  }

  lemma PhaseAbort(r: nat, t: nat, w: nat, bulk: bool, back: seq<ReplyMsg>, fwd: seq<TokenMsg>)
    requires Phase(r, t, w, bulk, back, fwd, false) && fwd != []
    ensures Phase(r, t, w, bulk, back + [ReplyMsg(fwd[0].seqnr, Abort)], fwd[1..], false)
  {
    var back' := back + [ReplyMsg(fwd[0].seqnr, Abort)];
    NrAfterDeliver(back, fwd, Abort);
    if bulk {
      var v: nat, count: nat, k: nat :| Bulk(r, t, w, back, fwd, false, v, count, k);
      assert Bulk(r, t, w, back', fwd[1..], false, v, count, k);
    } else {
      var v: nat, count: nat, j: nat :| Retry(r, t, w, back, fwd, false, v, count, j);
      assert Retry(r, t, w, back', fwd[1..], false, v, count, j);
    }
  }

  /** The oldest reply, when it is an ACK, acknowledges exactly the committed position. */
  lemma PhaseAck(r: nat, t: nat, w: nat, bulk: bool, back: seq<ReplyMsg>, fwd: seq<TokenMsg>, live: bool)
    requires Phase(r, t, w, bulk, back, fwd, live) && back != [] && back[0].verdict == Ack
    ensures back[0].seqnr == r < t && r < w
    ensures Phase(r + 1, t, w, true, back[1..], fwd, live)
  {
    NrAfterReply(back, fwd);
    if bulk {
      var v: nat, count: nat, k: nat :| Bulk(r, t, w, back, fwd, live, v, count, k);
      assert Nr(back, fwd, 0) == r;
      assert Bulk(r + 1, t, w, back[1..], fwd, live, v - 1, count - 1, k - 1);
    } else {
      var v: nat, count: nat, j: nat :| Retry(r, t, w, back, fwd, live, v, count, j);
      assert j == 0 && Nr(back, fwd, 0) == r;
      assert Bulk(r + 1, t, w, back[1..], fwd, live, v - 1, count - 1, 0);
    }
  }

  /** The oldest reply, when it is a NACK, refuses the committed position or is stale. */
  lemma PhaseNack(r: nat, t: nat, w: nat, bulk: bool, back: seq<ReplyMsg>, fwd: seq<TokenMsg>, live: bool)
    requires Phase(r, t, w, bulk, back, fwd, live) && back != [] && back[0].verdict == Nack
    ensures r <= back[0].seqnr < t ==>
              back[0].seqnr == r && Phase(r, r, w, false, back[1..], fwd, live)
    ensures !(r <= back[0].seqnr < t) ==> Phase(r, t, w, false, back[1..], fwd, live)
  {
    NrAfterReply(back, fwd);
    if bulk {
      var v: nat, count: nat, k: nat :| Bulk(r, t, w, back, fwd, live, v, count, k);
      assert k == 0 && Nr(back, fwd, 0) == r;
      assert Retry(r, r, w, back[1..], fwd, live, v - 1, count - 1, count - 1);
    } else {
      var v: nat, count: nat, j: nat :| Retry(r, t, w, back, fwd, live, v, count, j);
      if j == 0 {
        assert Nr(back, fwd, 0) == r;
        assert Retry(r, r, w, back[1..], fwd, live, v - 1, count - 1, 0);
      } else {
        assert Nr(back, fwd, 0) > r;
        assert Retry(r, t, w, back[1..], fwd, live, v - 1, count - 1, j - 1);
      }
    }
  }

  lemma PhaseSkipAbort(r: nat, t: nat, w: nat, bulk: bool, back: seq<ReplyMsg>, fwd: seq<TokenMsg>, live: bool)
    requires Phase(r, t, w, bulk, back, fwd, live) && back != [] && back[0].verdict == Abort
    ensures Phase(r, t, w, bulk, back[1..], fwd, live)
  {
    NrAfterReply(back, fwd);
    if bulk {
      var v: nat, count: nat, k: nat :| Bulk(r, t, w, back, fwd, live, v, count, k);
      assert Bulk(r, t, w, back[1..], fwd, live, 0, 0, 0);
    } else {
      var v: nat, count: nat, j: nat :| Retry(r, t, w, back, fwd, live, v, count, j);
      assert Retry(r, t, w, back[1..], fwd, live, 0, 0, 0);
    }
  }

  lemma PhaseSendBulk(r: nat, t: nat, w: nat, back: seq<ReplyMsg>, fwd: seq<TokenMsg>, live: bool,
                      ms: seq<TokenMsg>)
    requires Phase(r, t, w, true, back, fwd, live)
    requires forall i :: 0 <= i < |ms| ==> ms[i].seqnr == t + i
    ensures Phase(r, t + |ms|, w, true, back, fwd + ms, live)
  {
    NrAfterSend(back, fwd, ms);
    var v: nat, count: nat, k: nat :| Bulk(r, t, w, back, fwd, live, v, count, k);
    var count' := if live then count + |ms| else count;
    forall i | 0 <= i < count'
      ensures Nr(back, fwd + ms, i) == r + i
    {
      if i >= |back| + |fwd| { assert Nr(back, fwd + ms, |back| + |fwd| + (i - |back| - |fwd|)) == t + (i - count); }
    }
    assert Bulk(r, t + |ms|, w, back, fwd + ms, live, v, count', k);
  }

  lemma PhaseSendRetry(r: nat, w: nat, back: seq<ReplyMsg>, fwd: seq<TokenMsg>, live: bool, m: TokenMsg)
    requires Phase(r, r, w, false, back, fwd, live) && m.seqnr == r
    ensures Phase(r, r + 1, w, false, back, fwd + [m], live)
  {
    NrAfterSend(back, fwd, [m]);
    var v: nat, count: nat, j: nat :| Retry(r, r, w, back, fwd, live, v, count, j);
    if live {
      assert Nr(back, fwd + [m], |back| + |fwd| + 0) == r;
      assert Retry(r, r + 1, w, back, fwd + [m], live, v, count + 1, j);
    } else {
      assert Retry(r, r + 1, w, back, fwd + [m], live, v, count, j);
    }
  }

  /** Losing the receiver leaves the replies already on their way in order. */
  lemma PhaseDetach(r: nat, t: nat, w: nat, bulk: bool, back: seq<ReplyMsg>, fwd: seq<TokenMsg>)
    requires Phase(r, t, w, bulk, back, fwd, true)
    ensures Phase(r, t, w, bulk, back, fwd, false)
  {
    if bulk {
      var v: nat, count: nat, k: nat :| Bulk(r, t, w, back, fwd, true, v, count, k);
      assert Bulk(r, t, w, back, fwd, false, v, v, k);
    } else {
      var v: nat, count: nat, j: nat :| Retry(r, t, w, back, fwd, true, v, count, j);
      assert Retry(r, t, w, back, fwd, false, v, v, if j <= v then j else v);
    }
  }

  lemma PhaseStart(r: nat, w: nat, live: bool)
    requires r <= w
    ensures Phase(r, r, w, true, [], [], live)
  {
    assert Bulk(r, r, w, [], [], live, 0, 0, 0);
  }

  /** Before the first reply, what has been sent is the stretch from the committed position on. */
  lemma PhaseFresh(r: nat, t: nat, w: nat, fwd: seq<TokenMsg>)
    requires Phase(r, t, w, true, [], fwd, true)
    ensures r + |fwd| == t
    ensures forall i :: 0 <= i < |fwd| ==> fwd[i].seqnr == r + i
  {
    var v: nat, count: nat, k: nat :| Bulk(r, t, w, [], fwd, true, v, count, k);
    forall i | 0 <= i < |fwd|
      ensures fwd[i].seqnr == r + i
    {
      assert Nr([], fwd, i) == r + i;
    }
  }

  /** Going back to bulk mode at once keeps the exchange in phase exactly if it is about r. */
  lemma RenewedPhase(r: nat, t: nat, w: nat, bulk: bool, back: seq<ReplyMsg>, fwd: seq<TokenMsg>, live: bool)
    requires Phase(r, t, w, bulk, back, fwd, live)
    ensures Phase(r, t, w, true, back, fwd, live) <==> bulk || Leads(r, back, fwd, live)
  {
    if !bulk {
      var v: nat, count: nat, j: nat :| Retry(r, t, w, back, fwd, live, v, count, j);
      if Leads(r, back, fwd, live) {
        if count > 0 { assert Nr(back, fwd, 0) == r; }
        assert Bulk(r, t, w, back, fwd, live, v, count, if v > 0 && back[0].verdict == Ack then 1 else 0);
      }
      if Phase(r, t, w, true, back, fwd, live) {
        var v': nat, count': nat, k: nat :| Bulk(r, t, w, back, fwd, live, v', count', k);
        if count' > 0 { assert Nr(back, fwd, 0) == r; }
      }
    }
  }

  /** A receiver that appears now finds the exchange in phase exactly then. */
  lemma ComingPhase(r: nat, t: nat, w: nat, bulk: bool, back: seq<ReplyMsg>, fwd: seq<TokenMsg>)
    requires Phase(r, t, w, bulk, back, fwd, false)
    ensures Phase(r, t, w, bulk, back, fwd, true) <==> Coming(r, t, bulk, back, fwd)
  {
    if bulk { ComingBulk(r, t, w, back, fwd); } else { ComingRetry(r, t, w, back, fwd); }
  }

  lemma AllReal(back: seq<ReplyMsg>, fwd: seq<TokenMsg>, v: nat, count: nat)
    requires Outstanding(back, fwd, false, v, count)
    requires forall i :: 0 <= i < |back| ==> back[i].verdict != Abort
    ensures v == |back|
  {
    if |back| > 0 {
      var i := if v < |back| then v else 0;
      assert back[i].verdict != Abort;
    }
  }

  lemma ComingBulk(r: nat, t: nat, w: nat, back: seq<ReplyMsg>, fwd: seq<TokenMsg>)
    requires Phase(r, t, w, true, back, fwd, false)
    ensures Phase(r, t, w, true, back, fwd, true) <==> Coming(r, t, true, back, fwd)
  {
    var v: nat, count: nat, k: nat :| Bulk(r, t, w, back, fwd, false, v, count, k);
    if Coming(r, t, true, back, fwd) {
      AllReal(back, fwd, v, count);
      assert Bulk(r, t, w, back, fwd, true, v, |back| + |fwd|, k);
    }
    if Phase(r, t, w, true, back, fwd, true) {
      var v': nat, count': nat, k': nat :| Bulk(r, t, w, back, fwd, true, v', count', k');
    }
  }

  lemma ComingRetry(r: nat, t: nat, w: nat, back: seq<ReplyMsg>, fwd: seq<TokenMsg>)
    requires Phase(r, t, w, false, back, fwd, false)
    ensures Phase(r, t, w, false, back, fwd, true) <==> Coming(r, t, false, back, fwd)
  {
    var v: nat, count: nat, j: nat :| Retry(r, t, w, back, fwd, false, v, count, j);
    var n := |back| + |fwd|;
    if Coming(r, t, false, back, fwd) {
      AllReal(back, fwd, v, count);
      assert Retry(r, t, w, back, fwd, true, v, n, if t == r then n else n - 1);
    }
    if Phase(r, t, w, false, back, fwd, true) {
      var v': nat, count': nat, j': nat :| Retry(r, t, w, back, fwd, true, v', count', j');
    }
  }

  /** With nothing in flight the sender has nothing outstanding. */
  lemma PhaseQuiet(r: nat, t: nat, w: nat, bulk: bool)
    requires Phase(r, t, w, bulk, [], [], true)
    ensures t == r
  {
    if bulk {
      var v: nat, count: nat, k: nat :| Bulk(r, t, w, [], [], true, v, count, k);
    } else {
      var v: nat, count: nat, j: nat :| Retry(r, t, w, [], [], true, v, count, j);
    }
  }
}
