/** Reading a stream through an inport: what the consumer sees, whether tokens come from the
    inport's own FIFO, from the peer outport's FIFO, or from one and then the other. */
module Streams {
  import opened Wrappers
  import opened Tokens
  import opened FifoSpec
  import opened EndpointSpec

  /** The inport's own FIFO holds the stretch [c, wpos) of the stream; `c` is consumed. */
  ghost predicate Inbox(f: FifoState, hist: seq<Token>, p: PortId, c: nat) {
    && f.WellFormed() && f.readers == {p} && f.rpos[p] == c
    && c <= f.wpos <= |hist| && f.wpos - c < f.n
    && Retains(f.slots, f.n, f.wpos, hist, c)
  }

  /** The FIFO with reader p's committed and tentative positions at r and t. */
  function At(f: FifoState, p: PortId, r: nat, t: nat): FifoState {
    f.(rpos := f.rpos[p := r], tpos := f.tpos[p := t])
  }

  lemma AtAt(f: FifoState, p: PortId, r: nat, t: nat, r': nat, t': nat)
    ensures At(At(f, p, r, t), p, r', t') == At(f, p, r', t')
  {
    assert f.rpos[p := r][p := r'] == f.rpos[p := r'];
    assert f.tpos[p := t][p := t'] == f.tpos[p := t'];
  }

  lemma AtSelf(f: FifoState, p: PortId)
    requires Reads(f, p)
    ensures At(f, p, f.rpos[p], f.tpos[p]) == f
  {
    assert f.rpos[p := f.rpos[p]] == f.rpos;
    assert f.tpos[p := f.tpos[p]] == f.tpos;
  }

  /** Every reading operation only moves the reader's own positions. */
  lemma ReadingMoves(f: FifoState, p: PortId)
    requires Reads(f, p)
    ensures Read(f, p) == At(f, p, f.rpos[p], if CanRead(f, p) then f.tpos[p] + 1 else f.tpos[p])
    ensures CommitReads(f, p, true) == At(f, p, f.tpos[p], f.tpos[p])
    ensures CommitReads(f, p, false) == At(f, p, f.rpos[p], f.rpos[p])
    ensures f.rpos[p] < f.tpos[p] ==> CommitOneRead(f, p, true) == At(f, p, f.rpos[p] + 1, f.tpos[p])
    ensures f.rpos[p] < f.tpos[p] ==> CommitOneRead(f, p, false) == At(f, p, f.rpos[p], f.tpos[p] - 1)
  {
    assert f.rpos[p := f.rpos[p]] == f.rpos;
    assert f.tpos[p := f.tpos[p]] == f.tpos;
  }

  /** Only reader p's positions differ between the two. */
  ghost predicate OnlyMoves(f: FifoState, g: FifoState, p: PortId) {
    Reads(f, p) && Reads(g, p) && g == At(f, p, g.rpos[p], g.tpos[p])
  }

  lemma MoveRefines(f: FifoState, g: FifoState, hist: seq<Token>, p: PortId)
    requires Implements(f, hist) && OnlyMoves(f, g, p)
    requires f.rpos[p] <= g.rpos[p] <= g.tpos[p] <= g.wpos
    ensures Implements(g, hist)
  {
    hide Retains, Slowest;
    assert g.rpos.Keys == g.readers;
    SlowestMonotone(f.rpos, g.rpos);
  }

  lemma SlowestSingle(rpos: map<PortId, nat>, p: PortId)
    requires rpos.Keys == {p}
    ensures Slowest(rpos) == rpos[p]
  {
    assert p in rpos;
    var q :| q in rpos && rpos[q] == Slowest(rpos);
    assert q in rpos.Keys;
  }

  lemma InboxFront(f: FifoState, hist: seq<Token>, p: PortId, c: nat)
    requires Inbox(f, hist, p, c) && Reads(f, p) && c <= f.tpos[p] <= f.wpos
    ensures Front(f, p) == if f.tpos[p] < f.wpos then Some(hist[f.tpos[p]]) else None
  {
  }

  lemma RetainsLess(slots: seq<Token>, n: nat, wpos: nat, hist: seq<Token>, lo: int, lo': int)
    requires Retains(slots, n, wpos, hist, lo) && lo <= lo'
    ensures Retains(slots, n, wpos, hist, lo')
  {
  }

  lemma RetainsNone(slots: seq<Token>, n: nat, hist: seq<Token>, w: nat)
    requires n > 0 && |slots| == n && w <= |hist|
    ensures Retains(slots, n, w, hist, w)
  {
  }

  /** Tokens as peek_token hands them out. */
  ghost function Found(ts: seq<Token>): (r: seq<Option<Token>>)
    ensures |r| == |ts|
    ensures forall i :: 0 <= i < |ts| ==> r[i] == Some(ts[i])
  {
    seq(|ts|, i requires 0 <= i < |ts| => Some(ts[i]))
  }

  lemma FoundCons(hist: seq<Token>, lo: nat, hi: nat)
    requires lo < hi <= |hist|
    ensures [Some(hist[lo])] + Found(hist[lo + 1..hi]) == Found(hist[lo..hi])
  {
  }

  // ------------------------------------------------------------ through a tunnel

  lemma PeekSplit(f: FifoState, p: PortId, k: nat)
    requires Reads(f, p)
    ensures k == 0 ==> PeekMany(f, p, k) == (f, [])
    ensures k > 0 ==>
              PeekMany(f, p, k) == (PeekMany(Read(f, p), p, k - 1).0,
                                    [Front(f, p)] + PeekMany(Read(f, p), p, k - 1).1)
  {
  }

  lemma {:induction false} TunnelPeeks(f: FifoState, hist: seq<Token>, p: PortId, c: nat, k: nat)
    requires Inbox(f, hist, p, c) && c <= f.tpos[p] && f.tpos[p] + k <= f.wpos
    ensures PeekMany(f, p, k).1 == Found(hist[f.tpos[p]..f.tpos[p] + k])
    ensures PeekMany(f, p, k).0 == At(f, p, c, f.tpos[p] + k)
    decreases k
  {
    hide Retains, Front, PeekMany;
    PeekSplit(f, p, k);
    if k == 0 {
      AtSelf(f, p);
    } else {
      var t := f.tpos[p];
      var g := Read(f, p);
      InboxFront(f, hist, p, c);
      ReadingMoves(f, p);
      TunnelPeeks(g, hist, p, c, k - 1);
      AtAt(f, p, c, t + 1, c, t + k);
      FoundCons(hist, t, t + k);
    }
  }

  /** Peeking k tokens and committing consumes exactly the next k of the stream. */
  lemma TunnelConsumes(f: FifoState, hist: seq<Token>, p: PortId, c: nat, k: nat)
    requires Inbox(f, hist, p, c) && f.tpos[p] == c && k <= AvailableTokens(f, p)
    ensures AvailableTokens(f, p) == f.wpos - c
    ensures var (g, ts) := PeekMany(f, p, k);
            && ts == Found(hist[c..c + k])
            && Inbox(CommitReads(g, p, true), hist, p, c + k)
            && CommitReads(g, p, true).tpos[p] == c + k
            && CommitReads(g, p, true).wpos == f.wpos
            && CommitReads(g, p, false) == f
  {
    TunnelPeeks(f, hist, p, c, k);
    hide Retains;
    RetainsLess(f.slots, f.n, f.wpos, hist, c, c + k);
    var g := PeekMany(f, p, k).0;
    ReadingMoves(g, p);
    AtAt(f, p, c, c + k, c, c);
    AtAt(f, p, c, c + k, c + k, c + k);
    AtSelf(f, p);
    assert CommitReads(g, p, true).rpos.Keys == {p} && CommitReads(g, p, true).tpos.Keys == {p};
  }

  // ------------------------------------------------------ through a local connection

  /** A local connection at rest: `c` tokens consumed, no peeks outstanding. Tentative reads that a tunnel
      left behind do no harm before the first look at the peer FIFO, if the inport has got them all and
      one more: skipping duplicates runs over them. */
  ghost predicate LocalRest(s: LocalIn, me: PortId, hist: seq<Token>, c: nat) {
    && Positioned(s, me) && Implements(s.theirs, hist) && Inbox(s.mine, hist, me, c)
    && s.mine.tpos[me] == c
    && s.theirs.rpos[me] <= s.mine.wpos
    && (s.theirs.tpos[me] == s.theirs.rpos[me] || (s.mismatch && s.theirs.tpos[me] < s.mine.wpos))
    && (!s.mismatch ==> s.theirs.rpos[me] == s.mine.wpos)
    && (!s.dataInLocal ==> !s.mismatch && c == s.mine.wpos)
  }

  function Min(a: int, b: int): int { if a <= b then a else b }

  function Max(a: int, b: int): int { if a <= b then b else a }

  /** A local connection after `j` peeks: they first ran through the inport's own FIFO up to
      its write position, then through the peer's FIFO from exactly there on. */
  ghost predicate Spliced(s: LocalIn, me: PortId, hist: seq<Token>, c: nat, j: nat) {
    && Positioned(s, me) && Implements(s.theirs, hist) && Inbox(s.mine, hist, me, c)
    && !s.mismatch && c + j <= |hist|
    && s.theirs.rpos[me] == s.mine.wpos
    && s.mine.tpos[me] == Min(c + j, s.mine.wpos)
    && s.theirs.tpos[me] == Max(s.mine.wpos, c + j)
    && (!s.dataInLocal ==> c == s.mine.wpos)
  }

  lemma SplicedIsRest(s: LocalIn, me: PortId, hist: seq<Token>, c: nat)
    requires Spliced(s, me, hist, c, 0)
    ensures LocalRest(s, me, hist, c)
  {
  }

  lemma SkipStep(mine: FifoState, theirs: FifoState, me: PortId) returns (next: FifoState)
    requires Reads(mine, me) && Reads(theirs, me)
    requires theirs.rpos[me] <= theirs.tpos[me] < theirs.wpos && theirs.rpos[me] < mine.wpos
    ensures next == At(theirs, me, theirs.tpos[me] + 1, theirs.tpos[me] + 1)
    ensures Reads(next, me) && SkipDuplicates(mine, theirs, me) == SkipDuplicates(mine, next, me)
    ensures next.rpos[me] == next.tpos[me] == theirs.tpos[me] + 1 && next.wpos == theirs.wpos
  {
    var t := theirs.tpos[me];
    var read := Read(theirs, me);
    next := CommitReads(read, me, true);
    ReadingMoves(theirs, me);
    ReadingMoves(read, me);
    AtAt(theirs, me, theirs.rpos[me], t + 1, t + 1, t + 1);
  }

  lemma SkipNothing(mine: FifoState, theirs: FifoState, me: PortId)
    requires Reads(mine, me) && Reads(theirs, me)
    requires theirs.rpos[me] <= theirs.tpos[me] <= theirs.wpos
    requires theirs.tpos[me] == theirs.wpos || mine.wpos <= theirs.rpos[me]
    ensures SkipDuplicates(mine, theirs, me) == theirs
  {
  }

  /** Skipping stops exactly where the inport already has the tokens. */
  lemma {:induction false} SkipsToInbox(mine: FifoState, theirs: FifoState, me: PortId)
    requires Reads(mine, me) && Reads(theirs, me)
    requires theirs.rpos[me] <= theirs.tpos[me] <= mine.wpos <= theirs.wpos
    requires theirs.tpos[me] == theirs.rpos[me] || theirs.tpos[me] < mine.wpos
    ensures SkipDuplicates(mine, theirs, me) == At(theirs, me, mine.wpos, mine.wpos)
    decreases mine.wpos - theirs.tpos[me]
  {
    hide SkipDuplicates, At;
    var t := theirs.tpos[me];
    if t < mine.wpos {
      var next := SkipStep(mine, theirs, me);
      SkipsToInbox(mine, next, me);
      AtAt(theirs, me, t + 1, t + 1, mine.wpos, mine.wpos);
    } else {
      SkipNothing(mine, theirs, me);
      AtSelf(theirs, me);
    }
  }

  /** A skip that starts further on goes beyond what the inport has, or nowhere. */
  lemma SkipsElsewhere(mine: FifoState, theirs: FifoState, me: PortId)
    requires Reads(mine, me) && Reads(theirs, me) && mine.wpos <= theirs.wpos
    requires theirs.rpos[me] <= mine.wpos <= theirs.tpos[me] <= theirs.wpos && theirs.rpos[me] < theirs.tpos[me]
    ensures var f := SkipDuplicates(mine, theirs, me);
            && Reads(f, me) && !(f.rpos[me] == f.tpos[me] == mine.wpos)
  {
    hide SkipDuplicates, At;
    if theirs.tpos[me] < theirs.wpos && theirs.rpos[me] < mine.wpos {
      var next := SkipStep(mine, theirs, me);
      SkipNothing(mine, next, me);
    } else {
      SkipNothing(mine, theirs, me);
    }
  }

  /** A local endpoint put where a tunnel end has been, with nothing rolled back: the first look leaves it at
      the seam between the two FIFOs, nothing skipped and nothing to come twice, if and only if the tunnel
      end had no tentative reads left, or the inport already has more than was read. */
  lemma LocalOverIff(s: LocalIn, me: PortId, hist: seq<Token>, c: nat)
    requires Positioned(s, me) && Implements(s.theirs, hist) && Inbox(s.mine, hist, me, c) && s.mine.tpos[me] == c
    requires s.theirs.rpos[me] <= s.mine.wpos && s.mismatch && s.dataInLocal
    ensures Spliced(LocalAvailable(s, me).0, me, hist, c, 0) <==>
              s.theirs.tpos[me] == s.theirs.rpos[me] || s.theirs.tpos[me] < s.mine.wpos
  {
    hide Implements, Inbox, SkipDuplicates, OnlyMoves;
    InboxWithin(s, me, hist, c);
    if s.theirs.tpos[me] == s.theirs.rpos[me] || s.theirs.tpos[me] < s.mine.wpos {
      LocalAvailableIsRest(s, me, hist, c);
    } else {
      SkipsElsewhere(s.mine, s.theirs, me);
    }
  }

  /** Two tokens written, the first sent and never received: the local endpoint hands out the second. */
  lemma LocalOverSkips(me: PortId, a: Token, b: Token)
    ensures var theirs := FifoState([a, b, b], 3, {me}, 2, map[me := 0], map[me := 1]);
            var mine := FifoState([a, a], 2, {me}, 0, map[me := 0], map[me := 0]);
            && Implements(theirs, [a, b]) && Inbox(mine, [a, b], me, 0)
            && LocalRead(LocalIn(mine, theirs, true, true), me).1 == Some(b)
  {
    var theirs := FifoState([a, b, b], 3, {me}, 2, map[me := 0], map[me := 1]);
    SlowestSingle(theirs.rpos, me);
  }

  /** One token, received and consumed but never acknowledged: it comes again. */
  lemma LocalOverRepeats(me: PortId, a: Token)
    ensures var theirs := FifoState([a, a, a], 3, {me}, 1, map[me := 0], map[me := 1]);
            var mine := FifoState([a, a], 2, {me}, 1, map[me := 1], map[me := 1]);
            && Implements(theirs, [a]) && Inbox(mine, [a], me, 1)
            && LocalRead(LocalIn(mine, theirs, true, true), me).1 == None
            && Positioned(LocalRead(LocalIn(mine, theirs, true, true), me).0, me)
            && LocalRead(LocalRead(LocalIn(mine, theirs, true, true), me).0, me).1 == Some(a)
  {
    var theirs := FifoState([a, a, a], 3, {me}, 1, map[me := 0], map[me := 1]);
    SlowestSingle(theirs.rpos, me);
  }

  lemma InboxWithin(s: LocalIn, me: PortId, hist: seq<Token>, c: nat)
    requires Reads(s.theirs, me) && Implements(s.theirs, hist) && Inbox(s.mine, hist, me, c)
    ensures c <= s.mine.wpos <= |hist| == s.theirs.wpos
  {
    Positions(s.theirs, hist);
  }

  lemma FixSplices(s: LocalIn, me: PortId, hist: seq<Token>, c: nat)
    requires LocalRest(s, me, hist, c)
    ensures Spliced(Fixed(s, me), me, hist, c, 0)
    ensures OnlyMoves(s.theirs, Fixed(s, me).theirs, me)
    ensures Fixed(s, me).mine == s.mine && Fixed(s, me).dataInLocal == s.dataInLocal
  {
    if s.mismatch {
      SkipsToInbox(s.mine, s.theirs, me);
      MoveRefines(s.theirs, Fixed(s, me).theirs, hist, me);
    } else {
      AtSelf(s.theirs, me);
    }
  }

  lemma MoveTrans(f: FifoState, g: FifoState, h: FifoState, p: PortId)
    requires OnlyMoves(f, g, p) && OnlyMoves(g, h, p)
    ensures OnlyMoves(f, h, p)
  {
    AtAt(f, p, g.rpos[p], g.tpos[p], h.rpos[p], h.tpos[p]);
  }

  /** The tokens reported are all tokens written and not yet consumed, wherever they are. */
  lemma LocalAvailableIsRest(s: LocalIn, me: PortId, hist: seq<Token>, c: nat)
    requires LocalRest(s, me, hist, c)
    ensures LocalAvailable(s, me).1 == |hist| - c
    ensures Spliced(LocalAvailable(s, me).0, me, hist, c, 0)
    ensures OnlyMoves(s.theirs, LocalAvailable(s, me).0.theirs, me)
  {
    FixSplices(s, me, hist, c);
  }

  lemma LocalPeekNext(s: LocalIn, me: PortId, hist: seq<Token>, c: nat, j: nat)
    requires Spliced(s, me, hist, c, j) && c + j < |hist|
    ensures LocalPeek(s, me).1 == Some(hist[c + j])
    ensures Spliced(LocalPeek(s, me).0, me, hist, c, j + 1)
    ensures OnlyMoves(s.theirs, LocalPeek(s, me).0.theirs, me)
    ensures LocalPeek(s, me).0.dataInLocal == s.dataInLocal
    ensures LocalPeek(s, me).0.mine == s.mine.(tpos := LocalPeek(s, me).0.mine.tpos)
  {
    hide Retains, Slowest;
    ReadRefines(s.theirs, hist, me);
    InboxFront(s.mine, hist, me, c);
    AtSelf(s.theirs, me);
    var s' := LocalPeek(s, me).0;
    if s.dataInLocal && c + j < s.mine.wpos {
      assert s'.mine.rpos == s.mine.rpos;
    } else {
      assert Front(s.theirs, me) == Some(hist[c + j]);
      assert s'.theirs.rpos[me := s'.theirs.rpos[me]] == s'.theirs.rpos;
    }
  }

  lemma PeekManyStep(s: LocalIn, me: PortId, k: nat)
    requires Positioned(s, me) && k > 0
    ensures var (s1, t) := LocalPeek(s, me);
            LocalPeekMany(s, me, k) == (LocalPeekMany(s1, me, k - 1).0, [t] + LocalPeekMany(s1, me, k - 1).1)
  {
  }

  lemma PeekNothing(s: LocalIn, me: PortId)
    requires Positioned(s, me)
    ensures LocalPeekMany(s, me, 0) == (s, [])
    ensures OnlyMoves(s.theirs, s.theirs, me)
  {
    AtSelf(s.theirs, me);
  }

  lemma {:induction false} LocalPeeks(s: LocalIn, me: PortId, hist: seq<Token>, c: nat, j: nat, k: nat)
    requires Spliced(s, me, hist, c, j) && c + j + k <= |hist|
    ensures LocalPeekMany(s, me, k).1 == Found(hist[c + j..c + j + k])
    ensures Spliced(LocalPeekMany(s, me, k).0, me, hist, c, j + k)
    ensures OnlyMoves(s.theirs, LocalPeekMany(s, me, k).0.theirs, me)
    ensures LocalPeekMany(s, me, k).0.dataInLocal == s.dataInLocal
    ensures LocalPeekMany(s, me, k).0.mine == s.mine.(tpos := LocalPeekMany(s, me, k).0.mine.tpos)
    decreases k
  {
    hide LocalPeek, LocalPeekMany, OnlyMoves, Implements, Inbox, Reads;
    if k == 0 {
      PeekNothing(s, me);
    } else {
      PeekManyStep(s, me, k);
      LocalPeekNext(s, me, hist, c, j);
      var s1 := LocalPeek(s, me).0;
      LocalPeeks(s1, me, hist, c, j + 1, k - 1);
      FoundCons(hist, c + j, c + j + k);
      MoveTrans(s.theirs, s1.theirs, LocalPeekMany(s1, me, k - 1).0.theirs, me);
    }
  }

  /** Committing moves the consumed position by exactly the number of peeks. */
  lemma LocalCommitMoves(s: LocalIn, me: PortId, hist: seq<Token>, c: nat, j: nat)
    requires Spliced(s, me, hist, c, j)
    ensures Spliced(LocalCommit(s, me), me, hist, c + j, 0)
    ensures OnlyMoves(s.theirs, LocalCommit(s, me).theirs, me)
  {
    hide Retains, Slowest;
    var s' := LocalCommit(s, me);
    AtSelf(s.theirs, me);
    RetainsNone(s.mine.slots, s.mine.n, hist, c + j);
    if s.dataInLocal && c + j < s.mine.wpos {
      RetainsLess(s.mine.slots, s.mine.n, s.mine.wpos, hist, c, c + j);
      assert s'.theirs == s.theirs;
      assert s'.mine.rpos.Keys == {me};
    } else {
      assert s'.theirs == CommitReads(s.theirs, me, true);
      assert s'.theirs.tpos[me := s'.theirs.tpos[me]] == s'.theirs.tpos;
      MoveRefines(s.theirs, s'.theirs, hist, me);
      assert s'.mine.rpos.Keys == {me} && s'.mine.tpos.Keys == {me};
    }
  }

  /** Rewinding gives back every peeked token, in the inport's FIFO and in the peer's. */
  lemma LocalRewindRestores(s: LocalIn, me: PortId, hist: seq<Token>, c: nat, k: nat)
    requires Spliced(s, me, hist, c, 0) && c + k <= |hist|
    ensures LocalRewind(LocalPeekMany(s, me, k).0, me) == s
  {
    LocalPeeks(s, me, hist, c, 0, k);
    var peeked := LocalPeekMany(s, me, k).0;
    RewindsPeeked(s, peeked, me, hist, c, k);
  }

  lemma RewindsPeeked(s: LocalIn, peeked: LocalIn, me: PortId, hist: seq<Token>, c: nat, k: nat)
    requires Spliced(s, me, hist, c, 0) && Spliced(peeked, me, hist, c, k)
    requires OnlyMoves(s.theirs, peeked.theirs, me)
    requires peeked.dataInLocal == s.dataInLocal
    requires peeked.mine == s.mine.(tpos := peeked.mine.tpos)
    ensures LocalRewind(peeked, me) == s
  {
    var w := s.mine.wpos;
    ReadingMoves(peeked.theirs, me);
    AtAt(s.theirs, me, w, peeked.theirs.tpos[me], w, w);
    AtSelf(s.theirs, me);
    assert peeked.mine.tpos.Keys == {me} == s.mine.tpos.Keys;
    assert s.mine.tpos == map[me := c];
    assert peeked.mine.tpos[me := c] == map[me := c];
    if !s.dataInLocal {
      assert peeked.mine.tpos == map[me := c];
    }
  }

  /** Once the flags are off, the inport's own FIFO is not looked at and not written to before the next commit or
      read: whatever it holds, the results and the peer's FIFO are the same. */
  lemma FlagsOffIgnoreOwn(s: LocalIn, s2: LocalIn, me: PortId)
    requires Positioned(s, me) && Positioned(s2, me) && s2 == s.(mine := s2.mine) && !s.dataInLocal && !s.mismatch
    ensures LocalRead(s, me).1 == LocalRead(s2, me).1 && LocalPeek(s, me).1 == LocalPeek(s2, me).1
    ensures LocalAvailable(s, me).1 == LocalAvailable(s2, me).1
    ensures LocalRead(s, me).0.theirs == LocalRead(s2, me).0.theirs
    ensures LocalPeek(s, me).0.theirs == LocalPeek(s2, me).0.theirs
    ensures LocalCommit(s, me).theirs == LocalCommit(s2, me).theirs
    ensures LocalPeek(s, me).0.mine == LocalRewind(s, me).mine == LocalAvailable(s, me).0.mine == s.mine
  {
    hide Read, CommitReads, Front, AvailableTokens, CanRead;
  }

  /** What the flags are after each operation: the duplicates are skipped at the first look; the own FIFO counts
      until a read or a count finds it empty, or a commit leaves it so. */
  lemma FlagsTell(s: LocalIn, me: PortId)
    requires Positioned(s, me)
    ensures !LocalRead(s, me).0.mismatch && !LocalPeek(s, me).0.mismatch && !LocalAvailable(s, me).0.mismatch
    ensures LocalCommit(s, me).mismatch == LocalRewind(s, me).mismatch == s.mismatch
    ensures LocalRead(s, me).0.dataInLocal <==> s.dataInLocal && s.mine.tpos[me] != s.mine.wpos
    ensures LocalAvailable(s, me).0.dataInLocal <==> s.dataInLocal && s.mine.tpos[me] != s.mine.wpos
    ensures LocalCommit(s, me).dataInLocal <==> s.dataInLocal && s.mine.tpos[me] != s.mine.wpos
    ensures LocalPeek(s, me).0.dataInLocal == LocalRewind(s, me).dataInLocal == s.dataInLocal
  {
    hide SkipDuplicates;
    FixedMine(s, me);
    ReadingMoves(s.mine, me);
  }

  lemma FixedMine(s: LocalIn, me: PortId)
    requires Positioned(s, me)
    ensures Fixed(s, me).mine == s.mine && Fixed(s, me).dataInLocal == s.dataInLocal && !Fixed(s, me).mismatch
  {
    hide SkipDuplicates;
  }

  /** read_token returns the next token of the stream, and nothing exactly at its end. */
  lemma LocalReadsNext(s: LocalIn, me: PortId, hist: seq<Token>, c: nat)
    requires LocalRest(s, me, hist, c)
    ensures LocalRead(s, me).1 == if c < |hist| then Some(hist[c]) else None
    ensures LocalRest(LocalRead(s, me).0, me, hist, if c < |hist| then c + 1 else c) && !LocalRead(s, me).0.mismatch
    ensures OnlyMoves(s.theirs, LocalRead(s, me).0.theirs, me)
  {
    FixSplices(s, me, hist, c);
    var s1 := Fixed(s, me);
    ReadRefines(s1.theirs, hist, me);
    if s1.dataInLocal && c < s1.mine.wpos {
      OwnRead(s1, me, hist, c);
    } else {
      PeerRead(s1, me, hist, c);
      MoveTrans(s.theirs, s1.theirs, LocalRead(s, me).0.theirs, me);
    }
  }

  lemma OwnRead(s: LocalIn, me: PortId, hist: seq<Token>, c: nat)
    requires Spliced(s, me, hist, c, 0) && s.dataInLocal && c < s.mine.wpos
    ensures Front(s.mine, me) == Some(hist[c])
    ensures LocalRest(s.(mine := CommitReads(Read(s.mine, me), me, true)), me, hist, c + 1)
  {
    hide Retains, Slowest, Implements;
    var read := Read(s.mine, me);
    InboxFront(s.mine, hist, me, c);
    ReadingMoves(s.mine, me);
    ReadingMoves(read, me);
    AtAt(s.mine, me, c, c + 1, c + 1, c + 1);
    RetainsLess(s.mine.slots, s.mine.n, s.mine.wpos, hist, c, c + 1);
    var g := At(s.mine, me, c + 1, c + 1);
    assert g.rpos.Keys == {me} && g.tpos.Keys == {me};
  }

  lemma PeerRead(s: LocalIn, me: PortId, hist: seq<Token>, c: nat)
    requires Spliced(s, me, hist, c, 0) && c == s.mine.wpos
    ensures Front(s.theirs, me) == if c < |hist| then Some(hist[c]) else None
    ensures var g := CommitReads(Read(s.theirs, me), me, c < |hist|);
            var s' := Synced(s.(theirs := g, dataInLocal := false), me);
            && LocalRest(s', me, hist, if c < |hist| then c + 1 else c)
            && OnlyMoves(s.theirs, g, me)
  {
    hide Retains, Slowest, Implements;
    Positions(s.theirs, hist);
    var c' := if c < |hist| then c + 1 else c;
    var read := Read(s.theirs, me);
    ReadRefines(s.theirs, hist, me);
    ReadingMoves(s.theirs, me);
    ReadingMoves(read, me);
    AtAt(s.theirs, me, c, c', c', c');
    var g := At(s.theirs, me, c', c');
    assert g == CommitReads(read, me, c < |hist|);
    AtAt(s.theirs, me, c', c', c', c');
    MoveRefines(s.theirs, g, hist, me);
    RetainsNone(s.mine.slots, s.mine.n, hist, c');
    var s' := Synced(s.(theirs := g, dataInLocal := false), me);
    assert s'.mine.rpos.Keys == {me} && s'.mine.tpos.Keys == {me};
  }
}
