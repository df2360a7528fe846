/** An actor's ports and the condition wrapper acting on them in place (actor.py:80-181, 521-559). */
module ActorFiring {
  import opened Wrappers
  import opened Tokens
  import opened FifoSpec
  import opened Streams
  import opened Inports
  import opened Firing
  import opened EndpointSpec
  import FifoBuffer
  import SharedPeers

  class Actor {
    const names: seq<PortId>
    var ports: seq<SharedPeers.Port>
    /** The FIFOs of local outports that inports read from, each once, however many inports read from it. */
    var peers: seq<FifoState>
    const outs: seq<FifoBuffer.Fifo>

    ghost predicate Wired()
      reads this
    {
      SharedPeers.Wired(names, ports, peers)
    }

    /** The inports, each with what it sees of its peer's FIFO. */
    ghost function Ins(): (r: seq<Inport>)
      requires Wired()
      reads this
      ensures |r| == |names|
    {
      SharedPeers.AllSeen(names, ports, peers)
    }

    /** The outports' FIFOs are distinct objects, none sharing its slots. */
    ghost predicate Separate()
      reads outs
    {
      forall i, j :: 0 <= i < j < |outs| ==> outs[i] != outs[j] && outs[i].slots != outs[j].slots
    }

    ghost function Slots(): set<object>
      reads outs
    {
      set q | 0 <= q < |outs| :: outs[q].slots as object
    }

    ghost function Views(): (r: seq<FifoState>)
      reads outs, Slots()
      ensures |r| == |outs| && forall q :: 0 <= q < |outs| ==> r[q] == outs[q].View()
    {
      seq(|outs|, q requires 0 <= q < |outs| reads outs, Slots() => outs[q].View())
    }

    ghost predicate Consistent(at: Streaming)
      reads this, outs, Slots()
    {
      && Separate() && Wired() && SharedPeers.PeersSound(ports, peers, at.arriving)
      && Firing.Consistent(names, Ins(), Views(), at)
    }

    // ---------------------------------------------------------- one operation on one inport

    /** available_tokens */
    method AvailableAt(p: nat) returns (k: int)
      requires Wired() && p < |names| && Usable(Ins()[p], names[p])
      modifies `ports, `peers
      ensures Wired() && SharedPeers.Moved(old(ports), old(peers), ports, peers)
      ensures Ins() == old(Ins())[p := Available(old(Ins())[p], names[p]).0]
      ensures k == Available(old(Ins())[p], names[p]).1
    {
      match ports[p]
      case Remote(own) =>
        k := AvailableTokens(own, names[p]);
        SharedPeers.MovedSelf(ports, peers);
      case Local(_, peer, _, _) =>
        var s := SharedPeers.Linked(ports[p], peers);
        SharedPeers.AvailableOwn(s, names[p]);
        var (s', n) := LocalAvailable(s, names[p]);
        SharedPeers.SharedStep(names, ports, peers, p, s');
        ports, peers, k := ports[p := SharedPeers.Left(ports[p], s')], peers[peer := s'.theirs], n;
    }

    /** peek_token */
    method PeekAt(p: nat) returns (t: Option<Token>)
      requires Wired() && p < |names| && Usable(Ins()[p], names[p])
      modifies `ports, `peers
      ensures Wired() && SharedPeers.Moved(old(ports), old(peers), ports, peers)
      ensures Ins() == old(Ins())[p := Peek(old(Ins())[p], names[p]).0]
      ensures t == Peek(old(Ins())[p], names[p]).1
    {
      match ports[p]
      case Remote(own) =>
        SharedPeers.RemoteStep(names, ports, peers, p, Read(own, names[p]));
        t := Front(own, names[p]);
        ports := ports[p := SharedPeers.Port.Remote(Read(own, names[p]))];
      case Local(_, peer, _, _) =>
        var s := SharedPeers.Linked(ports[p], peers);
        SharedPeers.PeekOwn(s, names[p]);
        var (s', token) := LocalPeek(s, names[p]);
        SharedPeers.SharedStep(names, ports, peers, p, s');
        ports, peers, t := ports[p := SharedPeers.Left(ports[p], s')], peers[peer := s'.theirs], token;
    }

    /** commit_peek_as_read or peek_rewind */
    method SettleAt(p: nat, commit: bool)
      requires Wired() && p < |names| && Usable(Ins()[p], names[p])
      modifies `ports, `peers
      ensures Wired() && SharedPeers.Moved(old(ports), old(peers), ports, peers)
      ensures Ins() == old(Ins())[p := Settle(old(Ins())[p], names[p], commit)]
    {
      match ports[p]
      case Remote(own) =>
        SharedPeers.RemoteStep(names, ports, peers, p, CommitReads(own, names[p], commit));
        ports := ports[p := SharedPeers.Port.Remote(CommitReads(own, names[p], commit))];
      case Local(_, peer, _, _) =>
        var s := SharedPeers.Linked(ports[p], peers);
        SharedPeers.SettleOwn(s, names[p]);
        var s' := if commit then LocalCommit(s, names[p]) else LocalRewind(s, names[p]);
        SharedPeers.SharedStep(names, ports, peers, p, s');
        ports, peers := ports[p := SharedPeers.Left(ports[p], s')], peers[peer := s'.theirs];
    }

    // ---------------------------------------------------------- the condition wrapper

    /** available_tokens on every declared inport; asking splices in what an earlier connection left. */
    method CheckInputs(input: seq<Use>, ghost at: Streaming) returns (ok: bool)
      requires Wired() && Declares(input, |names|) && Checked(names, Ins(), at, [])
      modifies `ports, `peers
      ensures Wired() && SharedPeers.Moved(old(ports), old(peers), ports, peers)
      ensures Seen(names, old(Ins()), Ins(), at, input) && (ok <==> Enough(old(Ins()), at, input))
    {
      hide Rests, Ready, Reach, Available, Usable, Seen, SeenAt, Checked, Asked, SharedPeers.Moved, SharedPeers.Wired;
      SharedPeers.MovedSelf(ports, peers);
      ok := true;
      var i := 0;
      ghost var was := Ins();
      SeenSizes(names, Ins(), at);
      SeenStart(names, Ins(), at);
      assert input[..0] == [];
      while i < |input|
        invariant 0 <= i <= |input| && Wired() && SharedPeers.Moved(old(ports), old(peers), ports, peers)
        invariant Seen(names, was, Ins(), at, input[..i])
        invariant ok <==> Enough(was, at, input[..i])
      {
        SeenNext(names, was, Ins(), at, input, i);
        ghost var ports0, peers0 := ports, peers;
        var k := AvailableAt(input[i].port);
        SharedPeers.MovedTrans(old(ports), old(peers), ports0, peers0, ports, peers);
        ok := ok && k >= input[i].repeat;
        assert input[..i + 1] == input[..i] + [input[i]];
        i := i + 1;
      }
      assert input[..i] == input;
    }

    /** available_tokens on every declared outport: free slots. */
    method CheckOutputs(output: seq<Use>) returns (ok: bool)
      requires Declares(output, |outs|) && Formed(Views())
      ensures ok <==> Room(Views(), output)
    {
      ok := true;
      var i := 0;
      while i < |output|
        invariant 0 <= i <= |output| && (ok <==> Room(Views(), output[..i]))
      {
        var k := outs[output[i].port].AvailableSlots();
        ok := ok && k >= output[i].repeat;
        assert output[..i + 1] == output[..i] + [output[i]];
        i := i + 1;
      }
      assert output[..i] == output;
    }

    /** repeat calls of peek_token on one inport. */
    method PeekPort(p: nat, repeat: nat) returns (ts: seq<Option<Token>>)
      requires Wired() && p < |names| && Usable(Ins()[p], names[p])
      modifies `ports, `peers
      ensures Wired() && SharedPeers.Moved(old(ports), old(peers), ports, peers)
      ensures Ins() == old(Ins())[p := PeekAll(old(Ins())[p], names[p], repeat).0]
      ensures ts == PeekAll(old(Ins())[p], names[p], repeat).1
    {
      hide PeekAll, Peek, Usable, SharedPeers.Moved, SharedPeers.Wired;
      SharedPeers.MovedSelf(ports, peers);
      ts := [];
      var i := 0;
      ghost var x := Ins()[p];
      assert [] + PeekAll(x, names[p], repeat).1 == PeekAll(x, names[p], repeat).1;
      while i < repeat
        invariant 0 <= i <= repeat && Wired() && SharedPeers.Moved(old(ports), old(peers), ports, peers)
        invariant Usable(Ins()[p], names[p])
        invariant Ins() == old(Ins())[p := Ins()[p]]
        invariant var (y, rest) := PeekAll(Ins()[p], names[p], repeat - i); PeekAll(x, names[p], repeat) == (y, ts + rest)
      {
        PeekAllStep(Ins()[p], names[p], repeat - i);
        ghost var rest := PeekAll(Peek(Ins()[p], names[p]).0, names[p], repeat - i - 1).1;
        ghost var ports0, peers0 := ports, peers;
        var t := PeekAt(p);
        SharedPeers.MovedTrans(old(ports), old(peers), ports0, peers0, ports, peers);
        assert ts + ([t] + rest) == (ts + [t]) + rest;
        ts := ts + [t];
        i := i + 1;
      }
      PeekAllStep(Ins()[p], names[p], 0);
      assert ts + [] == ts;
    }

    /** The arguments of the action, by tentative reads. */
    method PeekInputs(input: seq<Use>, ghost at: Streaming) returns (args: seq<seq<Token>>)
      requires Wired() && Declares(input, |names|) && Checked(names, Ins(), at, input) && Enough(Ins(), at, input)
      modifies `ports, `peers
      ensures Wired() && SharedPeers.Moved(old(ports), old(peers), ports, peers)
      ensures Peeked(names, old(Ins()), Ins(), input)
      ensures ArgsFit(at, input) && args == Args(at, input)
    {
      hide PeekAll, Peek, Usable, Peeked, Checked, Asked, Enough, Found, SharedPeers.Moved, SharedPeers.Wired;
      SharedPeers.MovedSelf(ports, peers);
      args := [];
      var i := 0;
      ghost var was := Ins();
      PeekedStart(names, Ins(), at, input);
      assert input[..0] == [];
      while i < |input|
        invariant 0 <= i <= |input| && |at.arriving| == |at.consumed| == |names|
        invariant Wired() && SharedPeers.Moved(old(ports), old(peers), ports, peers)
        invariant Peeked(names, was, Ins(), input[..i]) && ArgsFit(at, input[..i]) && args == Args(at, input[..i])
      {
        var u := input[i];
        PeekedNext(names, was, Ins(), input, i);
        PeekedArg(names, was, at, input, i);
        ghost var ports0, peers0 := ports, peers;
        var ts := PeekPort(u.port, u.repeat);
        SharedPeers.MovedTrans(old(ports), old(peers), ports0, peers0, ports, peers);
        ghost var c := at.consumed[u.port];
        FoundValues(at.arriving[u.port][c..c + u.repeat], ts);
        var values := seq(|ts|, k requires 0 <= k < |ts| && ts[k].Some? => ts[k].value);
        assert values == at.arriving[u.port][c..c + u.repeat];
        args := args + [values];
        assert input[..i + 1] == input[..i] + [u];
        i := i + 1;
      }
      assert input[..i] == input;
    }

    /** commit_peek_as_read, or peek_rewind, on every declared inport. */
    method SettleInputs(input: seq<Use>, commit: bool, ghost was: seq<Inport>)
      requires Wired() && Declares(input, |names|) && Peeked(names, was, Ins(), input)
      modifies `ports, `peers
      ensures Wired() && SharedPeers.Moved(old(ports), old(peers), ports, peers)
      ensures Settling(names, was, Ins(), input, |input|, commit)
    {
      hide Peeked, Settling, Usable, Commit, Rewind, SharedPeers.Moved, SharedPeers.Wired;
      SharedPeers.MovedSelf(ports, peers);
      var i := 0;
      SettlingStart(names, was, Ins(), input, commit);
      while i < |input|
        invariant 0 <= i <= |input| && Wired() && SharedPeers.Moved(old(ports), old(peers), ports, peers)
        invariant Settling(names, was, Ins(), input, i, commit)
      {
        SettlingNext(names, was, Ins(), input, i, commit);
        ghost var ports0, peers0 := ports, peers;
        SettleAt(input[i].port, commit);
        SharedPeers.MovedTrans(old(ports), old(peers), ports0, peers0, ports, peers);
        i := i + 1;
      }
    }

    /** write_token for each token of one outport; full tells whether that ever failed. */
    method WritePort(q: nat, ts: seq<Token>, ghost hist: seq<Token>) returns (full: bool)
      requires q < |outs| && Separate() && Views()[q].WellFormed() && Implements(Views()[q], hist) && AvailableSlots(Views()[q]) >= |ts|
      modifies outs[q], outs[q].slots
      ensures Separate() && !full && Views()[q].WellFormed() && Implements(Views()[q], hist + ts)
      ensures AvailableSlots(Views()[q]) == old(AvailableSlots(Views()[q])) - |ts|
      ensures forall k :: 0 <= k < |outs| && k != q ==> Views()[k] == old(Views()[k])
      ensures outs[q].slots == old(outs[q].slots)
    {
      hide Implements, FifoSpec.AvailableSlots, FifoSpec.CanWrite, FifoSpec.Write;
      full := false;
      var i := 0;
      ghost var room := AvailableSlots(outs[q].View());
      Positions(outs[q].View(), hist);
      assert hist + ts[..0] == hist;
      while i < |ts|
        invariant 0 <= i <= |ts| && !full && Separate() && outs[q].slots == old(outs[q].slots)
        invariant Implements(outs[q].View(), hist + ts[..i])
        invariant outs[q].Valid()
        invariant AvailableSlots(outs[q].View()) == room - i
        invariant forall k :: 0 <= k < |outs| && k != q ==> outs[k].View() == old(outs[k].View())
      {
        WriteTakesOne(outs[q].View(), hist + ts[..i], ts[i]);
        var ok := outs[q].Write(ts[i]);
        full := full || !ok;
        assert hist + ts[..i] + [ts[i]] == hist + ts[..i + 1];
        i := i + 1;
      }
      assert ts[..i] == ts;
    }

    /** The results of the action, onto the outports. */
    method WriteOutputs(a: Action, production: seq<Product>, ghost written: seq<seq<Token>>) returns (full: bool)
      requires Separate() && Formed(Views()) && |written| == |outs| && Declares(a.output, |outs|)
      requires Honours(a, production) && Room(Views(), a.output)
      requires forall q :: 0 <= q < |outs| ==> Implements(Views()[q], written[q])
      modifies outs, Slots()
      ensures Separate() && !full && Formed(Views()) && Slots() == old(Slots())
      ensures Writing(old(Views()), Views(), written, a, production, |production|)
      ensures forall i :: 0 <= i < |production| ==> WrittenTo(Views(), written, a.output[i], production[i])
      ensures forall q :: 0 <= q < |outs| && Unused(a.output, q) ==> Implements(Views()[q], written[q])
    {
      hide Implements, FifoSpec.AvailableSlots, Writing, Honours, Room;
      full := false;
      var i := 0;
      ghost var was := Views();
      WritingStart(was, written, a, production);
      while i < |production|
        invariant 0 <= i <= |production| && !full && Separate() && Formed(Views())
        invariant forall q :: 0 <= q < |outs| ==> outs[q].slots == old(outs[q].slots)
        invariant Writing(was, Views(), written, a, production, i)
      {
        ghost var now := Views();
        var q := a.output[i].port;
        ghost var hist := WritingAt(was, now, written, a, production, i);
        var ts := Firing.Written(a.output[i], production[i]);
        var f := WritePort(q, ts, hist);
        full := full || f;
        WritingNext(was, now, Views(), written, a, production, i);
        i := i + 1;
      }
      WritingMeans(was, Views(), written, a, production);
    }

    ghost predicate Can(a: Action, at: Streaming)
      requires Consistent(at) && Declared(a, |names|, |outs|)
      reads this, outs, Slots()
    {
      ConsistentParts(names, Ins(), Views(), at);
      Enough(Ins(), at, a.input) && Room(Views(), a.output)
    }

    ghost function Bounds(at: Streaming): Limits
      requires Consistent(at)
      reads this, outs, Slots()
    {
      ConsistentParts(names, Ins(), Views(), at);
      LimitsOf(Ins(), Views(), at)
    }

    lemma CanIff(a: Action, at: Streaming)
      requires Consistent(at) && Declared(a, |names|, |outs|)
      ensures Can(a, at) <==> May(Bounds(at), a, at)
    {
      hide Firing.Consistent, Enough, Room, LimitsOf, May, SharedPeers.PeersSound, SharedPeers.Wired;
      ConsistentParts(names, Ins(), Views(), at);
      CanIsMay(Ins(), Views(), at, a);
    }

    /** condition_wrapper: one attempt at one action. `run` is the action method with its guard, or the
        exception handler when one of the tokens is an exception token. */
    method Attempt(a: Action, run: seq<seq<Token>> -> Outcome, ghost at: Streaming)
      returns (r: Result<ActionResult>, ghost at': Streaming)
      requires Consistent(at) && Declared(a, |names|, |outs|)
      modifies `ports, `peers, outs, Slots()
      ensures Consistent(at') && Slots() == old(Slots())
      ensures old(Can(a, at)) ==> ArgsFit(at, a.input)
      ensures (r, at') == Attempted(at, a, old(Can(a, at)), if old(Can(a, at)) then run(Args(at, a.input)) else Refused)
      ensures !(r.Ok? && r.value.didFire) ==> Views() == old(Views()) && Seen(names, old(Ins()), Ins(), at, a.input)
      ensures Measure(at') == old(Measure(at)) - (if r.Ok? then r.value.consumed + r.value.produced else 0)
      ensures Bounds(at') == old(Bounds(at))
      ensures r.Ok? && r.value.didFire ==> FiredBy(at, at', a, run)
    {
      hide Firing.Consistent, Formed, Enough, Room, Seen, Checked, Honours, LeftAt, LimitsOf, FiredAs, Args, After;
      ConsistentParts(names, Ins(), Views(), at);
      hide SharedPeers.Moved, SharedPeers.PeersSound, SharedPeers.Wired;
      ghost var was := Ins();
      ghost var ports0, peers0 := ports, peers;
      var inputOk := CheckInputs(a.input, at);
      SharedPeers.MovedSound(ports0, peers0, ports, peers, at.arriving);
      SeenConsistent(names, was, Ins(), Views(), at, a.input);
      SameLeft(was, Ins(), Views(), at);
      ConsistentParts(names, Ins(), Views(), at);
      var outputOk := CheckOutputs(a.output);
      if !inputOk || !outputOk {
        r, at' := Ok(ActionResult(false, 0, 0)), at;
        return;
      }
      r, at' := Perform(a, run, at);
    }

    ghost function Measure(at: Streaming): int
      requires Consistent(at)
      reads this, outs, Slots()
    {
      ConsistentParts(names, Ins(), Views(), at);
      LeftAt(Ins(), Views(), at)
    }

    method CommitAndWrite(a: Action, production: seq<Product>, ghost seen: seq<Inport>, ghost at: Streaming)
      requires Separate() && Firing.Consistent(names, seen, Views(), at) && Declared(a, |names|, |outs|)
      requires Wired() && SharedPeers.PeersSound(ports, peers, at.arriving)
      requires Checked(names, seen, at, a.input) && Enough(seen, at, a.input) && Formed(Views()) && Room(Views(), a.output)
      requires Peeked(names, seen, Ins(), a.input) && Honours(a, production) && |production| == |a.output|
      modifies `ports, `peers, outs, Slots()
      ensures Consistent(After(at, a, production)) && |seen| == |at.consumed| && Slots() == old(Slots())
      ensures Measure(After(at, a, production)) == old(LeftAt(seen, Views(), at)) - Sum(a.input) - Sum(a.output)
      ensures Bounds(After(at, a, production)) == old(LimitsOf(seen, Views(), at))
      ensures FiredAs(at, After(at, a, production), a, production)
    {
      hide Firing.Consistent, Formed, Enough, Room, Checked, Peeked, Settling, Honours, LeftAt, After, Writing,
        LimitsOf, FiredAs, WrittenTo, Reach, Rests, Implements, Asked, Put;
      ConsistentParts(names, seen, Views(), at);
      hide SharedPeers.Moved, SharedPeers.PeersSound, SharedPeers.Wired;
      ghost var before := Views();
      ghost var ports0, peers0 := ports, peers;
      SettleInputs(a.input, true, seen);
      SharedPeers.MovedSound(ports0, peers0, ports, peers, at.arriving);
      SettlingSizes(names, seen, Ins(), a.input, true);
      var full := WriteOutputs(a, production, at.written);
      assert !full;
      FiringDone(names, seen, Ins(), before, Views(), at, a, production);
    }

    /** The ports have enough: run the action on the tokens, then commit and write, or rewind. */
    method Perform(a: Action, run: seq<seq<Token>> -> Outcome, ghost at: Streaming)
      returns (r: Result<ActionResult>, ghost at': Streaming)
      requires Consistent(at) && Declared(a, |names|, |outs|) && Checked(names, Ins(), at, a.input) && Can(a, at)
      modifies `ports, `peers, outs, Slots()
      ensures Consistent(at') && ArgsFit(at, a.input) && Slots() == old(Slots())
      ensures (r, at') == Attempted(at, a, true, run(Args(at, a.input)))
      ensures !(r.Ok? && r.value.didFire) ==> Views() == old(Views()) && Ins() == old(Ins())
      ensures Measure(at') == old(Measure(at)) - (if r.Ok? then r.value.consumed + r.value.produced else 0)
      ensures Bounds(at') == old(Bounds(at))
      ensures r.Ok? && r.value.didFire ==> FiredBy(at, at', a, run)
    {
      hide Firing.Consistent, Formed, Enough, Room, Checked, Peeked, Settling, Honours, LeftAt, LimitsOf, FiredAs,
        Args, After, Writing;
      ConsistentParts(names, Ins(), Views(), at);
      hide SharedPeers.Moved, SharedPeers.PeersSound, SharedPeers.Wired;
      ghost var seen := Ins();
      ghost var ports0, peers0 := ports, peers;
      var args := PeekInputs(a.input, at);
      SharedPeers.MovedSound(ports0, peers0, ports, peers, at.arriving);
      var outcome := run(args);
      if outcome.Fired? && Honours(a, outcome.production) {
        HonoursSize(a, outcome.production);
        at' := After(at, a, outcome.production);
        CommitAndWrite(a, outcome.production, seen, at);
        r := Ok(ActionResult(true, Sum(a.input), Sum(a.output)));
      } else {
        at' := at;
        ports0, peers0 := ports, peers;
        SettleInputs(a.input, false, seen);
        SharedPeers.MovedSound(ports0, peers0, ports, peers, at.arriving);
        SettlingEnd(names, seen, Ins(), at, a.input, false);
        r := if outcome.Fired? then Raised("invalid production") else Ok(ActionResult(false, 0, 0));
      }
    }

    lemma SizesAt(at: Streaming)
      requires Consistent(at)
      ensures |names| == |at.arriving| == |at.consumed| && |outs| == |at.written| && Separate() && Wired()
    {
    }

    lemma MeasureNonNegative(at: Streaming)
      requires Consistent(at)
      ensures Measure(at) >= 0
    {
      ConsistentParts(names, Ins(), Views(), at);
      LeftNonNegative(names, Ins(), Views(), at);
    }

    ghost predicate AllDeclared(actions: seq<Action>) {
      forall k :: 0 <= k < |actions| ==>
        Declared(actions[k], |names|, |outs|) && Sum(actions[k].input) + Sum(actions[k].output) > 0
    }

    /** An attempt as fire() sees it: the n-th, at action k, in a pass that began with attempt `first`. */
    method TryOne(actions: seq<Action>, k: nat, oracle: Oracle, first: nat, ghost at: Streaming)
      returns (r: Result<ActionResult>, ghost at': Streaming)
      requires Consistent(at) && AllDeclared(actions) && k < |actions|
      modifies `ports, `peers, outs, Slots()
      ensures Consistent(at') && Onward(at, at') && Slots() == old(Slots()) && Bounds(at') == old(Bounds(at))
      ensures Measure(at') == old(Measure(at)) - (if r.Ok? then r.value.consumed + r.value.produced else 0)
      ensures r.Ok? ==>
        && Total(at'.consumed) == Total(at.consumed) + r.value.consumed
        && Total(Lengths(at'.written)) == Total(Lengths(at.written)) + r.value.produced
        && (r.value.didFire <==> r.value.consumed + r.value.produced > 0)
      ensures Tried(old(Bounds(at)), actions, k, first, oracle, at, r, at')
    {
      hide Onward, Total, Lengths, Measure, Sum, Attempted, Firing.Consistent, Enough, Seen, Room, Bounds, May, Args,
        FiredAs, Honours;
      ghost var was, can := Ins(), Can(actions[k], at);
      SizesAt(at);
      CanIff(actions[k], at);
      r, at' := Attempt(actions[k], args => oracle(first + k, k, args), at);
      ghost var outcome := if can then oracle(first + k, k, Args(at, actions[k].input)) else Refused;
      AttemptCounts(at, actions[k], can, outcome);
      AttemptMeans(at, actions[k], can, outcome);
      assert can ==> Gives(old(Bounds(at)), actions, k, first, oracle, at, outcome);
    }

    /** One pass over the actions, up to the first that fires. */
    method TryAll(actions: seq<Action>, oracle: Oracle, from: nat, ghost at: Streaming)
      returns (r: Result<ActionResult>, n: nat, ghost at': Streaming)
      requires Consistent(at) && actions != [] && AllDeclared(actions)
      modifies `ports, `peers, outs, Slots()
      ensures Consistent(at') && Onward(at, at') && Slots() == old(Slots()) && Bounds(at') == old(Bounds(at))
      ensures r.Ok? ==>
        && Total(at'.consumed) == Total(at.consumed) + r.value.consumed
        && Total(Lengths(at'.written)) == Total(Lengths(at.written)) + r.value.produced
        && (r.value.didFire <==> r.value.consumed + r.value.produced > 0)
        && (r.value.didFire ==> Measure(at') < old(Measure(at)))
      ensures from < n <= from + |actions|
      ensures r.Ok? && r.value.didFire ==>
        PassFires(old(Bounds(at)), actions, n - 1 - from, from, oracle, at, at')
      ensures r.Ok? && !r.value.didFire ==>
        at' == at && n == from + |actions| && AllIdle(old(Bounds(at)), actions, |actions|, from, oracle, at)
      ensures r.Raised? ==> at' == at && PassRaises(old(Bounds(at)), actions, n - 1 - from, from, oracle, at)
    {
      hide Onward, Total, Lengths, Consistent, Measure, Sum, Bounds, Gives, Honours, FiredAs, Idle;
      n := from;
      at' := at;
      r := Ok(ActionResult(false, 0, 0));
      OnwardSelf(at);
      var k := 0;
      ghost var l := Bounds(at);
      while k < |actions|
        invariant 0 <= k <= |actions| && at' == at && Consistent(at) && Slots() == old(Slots())
        invariant Measure(at) == old(Measure(at)) && r == Ok(ActionResult(false, 0, 0)) && Bounds(at) == l
        invariant n == from + k && AllIdle(l, actions, k, from, oracle, at)
      {
        r, at' := TryOne(actions, k, oracle, from, at);
        n := n + 1;
        if r.Raised? || r.value.didFire { return; }
        k := k + 1;
      }
    }

    /** fire(): try the actions in order, from the first again after every firing, until none fires.
        oracle(n, k, args) is what the n-th attempt made comes to when it runs action k; `made` counts them, and
        `run` lists the passes that fired. */
    method Fire(actions: seq<Action>, oracle: Oracle, ghost at: Streaming)
      returns (r: Result<ActionResult>, made: nat, ghost at': Streaming, ghost run: seq<Pass>)
      requires Consistent(at) && actions != [] && AllDeclared(actions)
      modifies `ports, `peers, outs, Slots()
      ensures Consistent(at') && Onward(at, at') && Bounds(at') == old(Bounds(at))
      ensures Fires(old(Bounds(at)), actions, oracle, run, at) && at' == Reached(run, at)
      ensures r.Ok? ==>
        && Total(at'.consumed) == Total(at.consumed) + r.value.consumed
        && Total(Lengths(at'.written)) == Total(Lengths(at.written)) + r.value.produced
        && (r.value.didFire <==> run != []) && (r.value.didFire <==> r.value.consumed + r.value.produced > 0)
        && made == Attempts(run) + |actions|
        && AllIdle(old(Bounds(at)), actions, |actions|, Attempts(run), oracle, at')
      ensures r.Raised? ==>
        && made > Attempts(run)
        && PassRaises(old(Bounds(at)), actions, made - 1 - Attempts(run), Attempts(run), oracle, at')
    {
      hide Onward, Total, Lengths, Consistent, Measure, Sum, Bounds, AllIdle, PassFires, PassRaises, Fires, Attempts, Reached;
      var total := ActionResult(false, 0, 0);
      made := 0;
      at', run := at, [];
      ghost var l := Bounds(at);
      OnwardSelf(at);
      FiresStart(l, actions, oracle, at);
      while true
        invariant Consistent(at') && Onward(at, at') && Slots() == old(Slots()) && Bounds(at') == l
        invariant Fires(l, actions, oracle, run, at) && Reached(run, at) == at' && Attempts(run) == made
        invariant Total(at'.consumed) == Total(at.consumed) + total.consumed
        invariant Total(Lengths(at'.written)) == Total(Lengths(at.written)) + total.produced
        invariant (total.didFire <==> total.consumed + total.produced > 0) && (total.didFire <==> run != [])
        decreases Measure(at')
      {
        MeasureNonNegative(at');
        ghost var before, from := at', made;
        var r1: Result<ActionResult>;
        r1, made, at' := TryAll(actions, oracle, made, at');
        OnwardTrans(at, before, at');
        if r1.Raised? { r := r1; return; }
        total := ActionResult(total.didFire || r1.value.didFire, total.consumed + r1.value.consumed,
                              total.produced + r1.value.produced);
        if !r1.value.didFire { r := Ok(total); return; }
        FiresNext(l, actions, oracle, run, at, made - 1 - from, at');
        run := run + [Pass(made - 1 - from, at')];
      }
    }
  }

  /** What the attempt at action k came to: it was idle, it fired, or what it returned did not fit. */
  ghost predicate Tried(l: Limits, actions: seq<Action>, k: nat, first: nat, oracle: Oracle, at: Streaming,
                        r: Result<ActionResult>, at': Streaming)
  {
    && k < |actions|
    && if r.Ok? && r.value.didFire then
         exists production :: Gives(l, actions, k, first, oracle, at, Fired(production))
                                && Honours(actions[k], production) && FiredAs(at, at', actions[k], production)
       else
         && at' == at
         && if r.Ok? then Idle(l, actions, k, first, oracle, at) && r.value == ActionResult(false, 0, 0)
            else exists production :: Gives(l, actions, k, first, oracle, at, Fired(production))
                                        && !Honours(actions[k], production)
  }

  /** The action was run on the next tokens, and each port has given or gained what it should. */
  ghost predicate FiredBy(at: Streaming, at': Streaming, a: Action, run: seq<seq<Token>> -> Outcome) {
    && ArgsFit(at, a.input)
    && var outcome := run(Args(at, a.input));
       outcome.Fired? && Honours(a, outcome.production) && FiredAs(at, at', a, outcome.production)
  }

  lemma FoundValues(xs: seq<Token>, ts: seq<Option<Token>>)
    requires ts == Found(xs)
    ensures |ts| == |xs| && forall k :: 0 <= k < |ts| ==> ts[k].Some? && ts[k].value == xs[k]
  {
  }

  lemma WrittenLength(u: Use, p: Product)
    requires u.repeat > 0 && (u.repeat > 1 ==> p.Many? && |p.tokens| == u.repeat)
    ensures |Firing.Written(u, p)| == u.repeat
  {
  }

  /** The outports after the first i results were written. */
  ghost predicate Writing(was: seq<FifoState>, now: seq<FifoState>, written: seq<seq<Token>>, a: Action,
                          production: seq<Product>, i: nat)
  {
    && |now| == |was| == |written| && i <= |production| == |a.output| && Formed(was) && Formed(now)
    && forall q :: 0 <= q < |was| ==>
         && Implements(now[q], written[q] + Put(a.output, production[..i], q))
         && AvailableSlots(now[q]) == AvailableSlots(was[q]) - Asked(a.output[..i], q)
  }

  lemma WritingStart(was: seq<FifoState>, written: seq<seq<Token>>, a: Action, production: seq<Product>)
    requires |was| == |written| && Formed(was) && Honours(a, production)
    requires forall q :: 0 <= q < |was| ==> Implements(was[q], written[q])
    ensures Writing(was, was, written, a, production, 0) && |production| == |a.output|
  {
    hide Implements, FifoSpec.AvailableSlots;
    assert production[..0] == [] && a.output[..0] == [];
    forall q | 0 <= q < |was| ensures written[q] + Put(a.output, production[..0], q) == written[q] {}
  }

  lemma WritingAt(was: seq<FifoState>, now: seq<FifoState>, written: seq<seq<Token>>, a: Action,
                  production: seq<Product>, i: nat) returns (hist: seq<Token>)
    requires Writing(was, now, written, a, production, i) && i < |production|
    requires Declares(a.output, |was|) && Honours(a, production) && Room(was, a.output)
    ensures var q := a.output[i].port;
            && q < |now| == |written| && now[q].WellFormed()
            && hist == written[q] + Put(a.output, production[..i], q) && Implements(now[q], hist)
            && |Firing.Written(a.output[i], production[i])| == a.output[i].repeat <= AvailableSlots(now[q])
  {
    hide Implements, FifoSpec.AvailableSlots, Put, Asked, Firing.Written;
    var q := a.output[i].port;
    hist := written[q] + Put(a.output, production[..i], q);
    AskedOnce(a.output, i, |was|);
    WrittenLength(a.output[i], production[i]);
  }

  lemma WritingNext(was: seq<FifoState>, now: seq<FifoState>, next: seq<FifoState>, written: seq<seq<Token>>, a: Action,
                    production: seq<Product>, i: nat)
    requires Writing(was, now, written, a, production, i) && i < |production|
    requires Declares(a.output, |was|) && |next| == |now| && Formed(next)
    requires var u := a.output[i];
             var ts := Firing.Written(u, production[i]);
             && Implements(next[u.port], written[u.port] + Put(a.output, production[..i], u.port) + ts)
             && AvailableSlots(next[u.port]) == AvailableSlots(now[u.port]) - |ts|
             && |ts| == u.repeat
    requires forall k :: 0 <= k < |now| && k != a.output[i].port ==> next[k] == now[k]
    ensures Writing(was, next, written, a, production, i + 1)
  {
    hide Implements, FifoSpec.AvailableSlots, Put, Asked, Firing.Written;
    var u := a.output[i];
    var ts := Firing.Written(u, production[i]);
    forall q | 0 <= q < |was|
      ensures Implements(next[q], written[q] + Put(a.output, production[..i + 1], q))
      ensures AvailableSlots(next[q]) == AvailableSlots(was[q]) - Asked(a.output[..i + 1], q)
    {
      AskedNext(a.output, i, q);
      PutNext(a.output, production, i, q);
      var sofar := Put(a.output, production[..i], q);
      assert written[q] + (sofar + ts) == written[q] + sofar + ts;
      assert sofar + [] == sofar;
    }
  }

  lemma WritingEnd(was: seq<FifoState>, now: seq<FifoState>, written: seq<seq<Token>>, a: Action, production: seq<Product>)
    requires Writing(was, now, written, a, production, |production|)
    ensures |now| == |was| == |written| && |production| == |a.output| && Formed(was) && Formed(now)
    ensures forall q :: 0 <= q < |was| ==>
              && Implements(now[q], written[q] + Put(a.output, production, q))
              && AvailableSlots(now[q]) == AvailableSlots(was[q]) - Asked(a.output, q)
  {
    hide Implements, FifoSpec.AvailableSlots, Put, Asked;
    assert production[..|production|] == production && a.output[..|production|] == a.output;
  }

  /** The FIFO of outport u holds what was written before, and what was returned for it. */
  ghost predicate WrittenTo(now: seq<FifoState>, written: seq<seq<Token>>, u: Use, p: Product) {
    && u.port < |now| == |written|
    && exists gained :: Delivers(u, p, gained) && Implements(now[u.port], written[u.port] + gained)
  }

  lemma WritingMeans(was: seq<FifoState>, now: seq<FifoState>, written: seq<seq<Token>>, a: Action,
                     production: seq<Product>)
    requires Writing(was, now, written, a, production, |production|)
    requires Declares(a.output, |was|) && Honours(a, production)
    ensures |now| == |was| == |written| && |production| == |a.output|
    ensures forall i :: 0 <= i < |production| ==> WrittenTo(now, written, a.output[i], production[i])
    ensures forall q :: 0 <= q < |now| && Unused(a.output, q) ==> Implements(now[q], written[q])
  {
    hide Implements, FifoSpec.AvailableSlots, Put, Asked, Firing.Written, Delivers, Writing;
    WritingEnd(was, now, written, a, production);
    forall i | 0 <= i < |production| ensures WrittenTo(now, written, a.output[i], production[i]) {
      PutAt(a.output, production, i, |was|);
      DeliversWritten(a.output[i], production[i], Firing.Written(a.output[i], production[i]));
    }
    forall q | 0 <= q < |now| && Unused(a.output, q) ensures Implements(now[q], written[q]) {
      PutAbsent(a.output, production, q);
      assert written[q] + [] == written[q];
    }
  }

  lemma SameLeft(was: seq<Inport>, now: seq<Inport>, outs: seq<FifoState>, at: Streaming)
    requires Reaches(now) == Reaches(was) && |was| == |at.consumed| && Formed(outs)
    requires |outs| == |at.written|
    ensures |now| == |was| && LeftAt(now, outs, at) == LeftAt(was, outs, at)
    ensures LimitsOf(now, outs, at) == LimitsOf(was, outs, at)
  {
  }

  lemma SettlingSizes(names: seq<PortId>, was: seq<Inport>, now: seq<Inport>, input: seq<Use>, commit: bool)
    requires Settling(names, was, now, input, |input|, commit)
    ensures |now| == |was|
  {
  }

  /** Inports committed and outports written: the actor is where the firing should leave it. */
  lemma FiringDone(names: seq<PortId>, was: seq<Inport>, now: seq<Inport>, outs: seq<FifoState>, outs': seq<FifoState>,
                   at: Streaming, a: Action, production: seq<Product>)
    requires Firing.Consistent(names, was, outs, at) && Declared(a, |names|, |outs|) && Honours(a, production)
    requires Checked(names, was, at, a.input) && Enough(was, at, a.input)
    requires Settling(names, was, now, a.input, |a.input|, true)
    requires Writing(outs, outs', at.written, a, production, |production|)
    ensures |now| == |was| && |outs'| == |outs|
    ensures var at' := After(at, a, production);
            && at'.arriving == at.arriving
            && Firing.Consistent(names, now, outs', at') && Formed(outs) && Formed(outs')
            && LeftAt(now, outs', at') == LeftAt(was, outs, at) - Sum(a.input) - Sum(a.output)
            && LimitsOf(now, outs', at') == LimitsOf(was, outs, at)
            && FiredAs(at, at', a, production)
  {
    hide Firing.Consistent, Formed, Enough, Checked, Settling, Writing, Honours, LeftAt, After, Implements, Reach, Rests;
    ConsistentParts(names, was, outs, at);
    SettlingEnd(names, was, now, at, a.input, true);
    WritingEnd(outs, outs', at.written, a, production);
    AfterConsistent(names, was, now, outs, outs', at, a, production);
    AfterArrives(at, a, production);
    LimitsStay(was, now, outs, outs', at, a, production);
    AfterFires(at, a, production);
  }

  lemma AfterArrives(at: Streaming, a: Action, production: seq<Product>)
    requires |production| <= |a.output|
    ensures After(at, a, production).arriving == at.arriving
  {
  }

  lemma AfterConsistent(names: seq<PortId>, was: seq<Inport>, now: seq<Inport>, outs: seq<FifoState>, outs': seq<FifoState>,
                        at: Streaming, a: Action, production: seq<Product>)
    requires Checked(names, was, at, a.input) && |now| == |was| && |outs'| == |outs| == |at.written|
    requires Declared(a, |names|, |outs|) && Honours(a, production) && Formed(outs) && Formed(outs')
    requires forall p :: 0 <= p < |was| ==>
      Rests(now[p], names[p], at.arriving[p], at.consumed[p] + Asked(a.input, p)) && Reach(now[p]) == Reach(was[p])
    requires forall q :: 0 <= q < |outs| ==>
      && Implements(outs'[q], at.written[q] + Put(a.output, production, q))
      && AvailableSlots(outs'[q]) == AvailableSlots(outs[q]) - Asked(a.output, q)
    ensures var at' := After(at, a, production);
            && Firing.Consistent(names, now, outs', at')
            && LeftAt(now, outs', at') == LeftAt(was, outs, at) - Sum(a.input) - Sum(a.output)
  {
    hide Rests, Ready, Usable, Implements, Asked, Put, FifoSpec.AvailableSlots, Left;
    var at' := After(at, a, production);
    assert Reaches(now) == Reaches(was);
    FiringUsesUp(Reaches(was), at.consumed, Rooms(outs), at'.consumed, Rooms(outs'), a);
  }

  lemma OnwardSelf(at: Streaming)
    ensures Onward(at, at)
  {
  }

  lemma OnwardTrans(a: Streaming, b: Streaming, c: Streaming)
    requires Onward(a, b) && Onward(b, c)
    ensures Onward(a, c)
  {
  }

  lemma AttemptMeans(at: Streaming, a: Action, can: bool, outcome: Outcome)
    ensures var (r, at') := Attempted(at, a, can, outcome);
            && (r.Ok? && r.value.didFire ==> can && outcome.Fired? && Honours(a, outcome.production))
            && (r.Ok? && !r.value.didFire ==> at' == at && (can ==> outcome == Refused))
            && (r.Ok? && !r.value.didFire ==> r.value == ActionResult(false, 0, 0))
            && (r.Raised? ==> at' == at && can && outcome.Fired? && !Honours(a, outcome.production))
  {
  }
}
