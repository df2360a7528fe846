/** Firing: the condition wrapper around an actor's actions, and fire() (actor.py:80-181, 245-256, 521-559). */
module Firing {
  import opened Wrappers
  import opened Tokens
  import opened FifoSpec
  import opened Streams
  import opened Inports

  /** A port, by its number, and how many tokens an action takes from it or puts on it. */
  datatype Use = Use(port: nat, repeat: nat)

  datatype Action = Action(input: seq<Use>, output: seq<Use>)

  /** What an action returns for one outport: a token, or a list of them. */
  datatype Product = One(token: Token) | Many(tokens: seq<Token>)

  /** What an action, its guard or the exception handler returns. */
  datatype Outcome = Refused | Fired(production: seq<Product>)

  datatype ActionResult = ActionResult(didFire: bool, consumed: nat, produced: nat)

  /** The streams at the ports: what was written to each inport's peer, how much of it is consumed, and
      what was written to each outport. */
  datatype Streaming = Streaming(arriving: seq<seq<Token>>, consumed: seq<nat>, written: seq<seq<Token>>)

  ghost predicate Consistent(names: seq<PortId>, ins: seq<Inport>, outs: seq<FifoState>, at: Streaming) {
    && |names| == |ins| == |at.arriving| == |at.consumed| && |outs| == |at.written|
    && (forall p :: 0 <= p < |ins| ==> Rests(ins[p], names[p], at.arriving[p], at.consumed[p]))
    && (forall q :: 0 <= q < |outs| ==> Implements(outs[q], at.written[q]))
  }

  /** The decorator names each port once, with a positive count, and only ports there are. */
  predicate Declares(uses: seq<Use>, ports: nat) {
    && (forall i :: 0 <= i < |uses| ==> uses[i].port < ports && uses[i].repeat > 0)
    && (forall i, j :: 0 <= i < j < |uses| ==> uses[i].port != uses[j].port)
  }

  predicate Declared(a: Action, ins: nat, outs: nat) { Declares(a.input, ins) && Declares(a.output, outs) }

  function Sum(uses: seq<Use>): nat {
    if uses == [] then 0 else Sum(uses[..|uses| - 1]) + uses[|uses| - 1].repeat
  }

  /** What a list of uses asks of port p. */
  function Asked(uses: seq<Use>, p: nat): nat {
    if uses == [] then 0
    else Asked(uses[..|uses| - 1], p) + if uses[|uses| - 1].port == p then uses[|uses| - 1].repeat else 0
  }

  // ------------------------------------------------------------ what a firing does to the streams

  /** The value of a single token given as a list. */
  function Whole(p: Product): Token {
    match p
    case One(t) => t
    case Many(ts) => Token(Plain, Items(seq(|ts|, i requires 0 <= i < |ts| => ts[i].value)))
  }

  function Written(u: Use, p: Product): seq<Token> {
    if u.repeat > 1 then (if p.Many? then p.tokens else []) else [Whole(p)]
  }

  /** One product per declared outport, of the declared length where that is more than one. */
  predicate Honours(a: Action, production: seq<Product>) {
    && |production| == |a.output|
    && forall i :: 0 <= i < |production| && a.output[i].repeat > 1 ==>
         production[i].Many? && |production[i].tokens| == a.output[i].repeat
  }

  /** What the first |production| uses put on outport q. */
  function Put(uses: seq<Use>, production: seq<Product>, q: nat): seq<Token>
    requires |production| <= |uses|
    decreases |production|
  {
    if production == [] then []
    else
      var k := |production| - 1;
      Put(uses, production[..k], q) + if uses[k].port == q then Written(uses[k], production[k]) else []
  }

  /** The next tokens of each input, in the order declared. */
  ghost function Args(at: Streaming, input: seq<Use>): (r: seq<seq<Token>>)
    requires |at.arriving| == |at.consumed|
    requires forall i :: 0 <= i < |input| ==> input[i].port < |at.consumed|
    requires forall i :: 0 <= i < |input| ==>
      at.consumed[input[i].port] + input[i].repeat <= |at.arriving[input[i].port]|
    ensures |r| == |input|
    ensures forall i :: 0 <= i < |input| ==>
      r[i] == at.arriving[input[i].port][at.consumed[input[i].port]..at.consumed[input[i].port] + input[i].repeat]
  {
    seq(|input|, i requires 0 <= i < |input| =>
      at.arriving[input[i].port][at.consumed[input[i].port]..at.consumed[input[i].port] + input[i].repeat])
  }

  function Consumed(at: Streaming, uses: seq<Use>): (r: Streaming)
    ensures |r.consumed| == |at.consumed|
    ensures forall p :: 0 <= p < |at.consumed| ==> r.consumed[p] == at.consumed[p] + Asked(uses, p)
  {
    at.(consumed := seq(|at.consumed|, p requires 0 <= p < |at.consumed| => at.consumed[p] + Asked(uses, p)))
  }

  function Produced(at: Streaming, uses: seq<Use>, production: seq<Product>): (r: Streaming)
    requires |production| <= |uses|
    ensures |r.written| == |at.written|
    ensures forall q :: 0 <= q < |at.written| ==> r.written[q] == at.written[q] + Put(uses, production, q)
  {
    at.(written := seq(|at.written|, q requires 0 <= q < |at.written| => at.written[q] + Put(uses, production, q)))
  }

  /** The streams after action a fired with this production. */
  function After(at: Streaming, a: Action, production: seq<Product>): Streaming
    requires |production| <= |a.output|
  {
    Produced(Consumed(at, a.input), a.output, production)
  }

  // ------------------------------------------------------------ enough tokens, enough room

  ghost predicate Enough(ins: seq<Inport>, at: Streaming, input: seq<Use>)
    requires |at.consumed| == |ins| && forall i :: 0 <= i < |input| ==> input[i].port < |ins|
  {
    forall i :: 0 <= i < |input| ==> Reach(ins[input[i].port]) - at.consumed[input[i].port] >= input[i].repeat
  }

  ghost predicate Formed(outs: seq<FifoState>) { forall q :: 0 <= q < |outs| ==> outs[q].WellFormed() }

  ghost predicate Room(outs: seq<FifoState>, output: seq<Use>)
    requires Formed(outs)
    requires forall i :: 0 <= i < |output| ==> output[i].port < |outs|
  {
    forall i :: 0 <= i < |output| ==> AvailableSlots(outs[output[i].port]) >= output[i].repeat
  }

  lemma {:induction false} AskedAbsent(uses: seq<Use>, p: nat)
    requires forall i :: 0 <= i < |uses| ==> uses[i].port != p
    ensures Asked(uses, p) == 0
    decreases |uses|
  {
    if uses != [] { AskedAbsent(uses[..|uses| - 1], p); }
  }

  lemma AskedNext(uses: seq<Use>, i: nat, p: nat)
    requires i < |uses|
    ensures Asked(uses[..i + 1], p) == Asked(uses[..i], p) + if uses[i].port == p then uses[i].repeat else 0
    ensures Sum(uses[..i + 1]) == Sum(uses[..i]) + uses[i].repeat
  {
    assert uses[..i + 1][..i] == uses[..i];
  }

  lemma PutNext(uses: seq<Use>, production: seq<Product>, i: nat, q: nat)
    requires i < |production| <= |uses|
    ensures Put(uses, production[..i + 1], q)
         == Put(uses, production[..i], q) + if uses[i].port == q then Written(uses[i], production[i]) else []
  {
    assert production[..i + 1][..i] == production[..i];
  }

  lemma {:induction false} PutAbsent(uses: seq<Use>, production: seq<Product>, q: nat)
    requires |production| <= |uses| && forall i :: 0 <= i < |production| ==> uses[i].port != q
    ensures Put(uses, production, q) == []
    decreases |production|
  {
    if production != [] { PutAbsent(uses, production[..|production| - 1], q); }
  }

  /** Writing takes one slot. */
  lemma WriteTakesOne(f: FifoState, hist: seq<Token>, t: Token)
    requires Implements(f, hist) && AvailableSlots(f) > 0
    ensures CanWrite(f) && Implements(Write(f, t), hist + [t])
    ensures AvailableSlots(Write(f, t)) == AvailableSlots(f) - 1
  {
    hide Retains;
    SpaceIsExact(f, hist);
    WriteRefines(f, hist, t);
    SpaceIsExact(Write(f, t), hist + [t]);
  }

  // ------------------------------------------------------------ one inport used

  /** Inports after the uses so far: those asked moved by `step`, the others as they were. */
  ghost predicate Peeked(names: seq<PortId>, was: seq<Inport>, now: seq<Inport>, uses: seq<Use>) {
    && |now| == |was| == |names| && (forall p :: 0 <= p < |was| ==> Usable(was[p], names[p]))
    && forall p :: 0 <= p < |was| ==> now[p] == PeekAll(was[p], names[p], Asked(uses, p)).0
  }

  /** Every inport can be used, and those an action reads from have their leftovers spliced in. */
  ghost predicate Checked(names: seq<PortId>, ins: seq<Inport>, at: Streaming, uses: seq<Use>) {
    && |names| == |ins| == |at.arriving| == |at.consumed|
    && (forall p :: 0 <= p < |ins| ==> Rests(ins[p], names[p], at.arriving[p], at.consumed[p]) && Usable(ins[p], names[p]))
    && (forall p :: 0 <= p < |ins| && Asked(uses, p) > 0 ==> Ready(ins[p], names[p], at.arriving[p], at.consumed[p]))
  }

  lemma AskedOnce(uses: seq<Use>, i: nat, ports: nat)
    requires Declares(uses, ports) && i < |uses|
    ensures Asked(uses[..i], uses[i].port) == 0
  {
    AskedAbsent(uses[..i], uses[i].port);
  }

  lemma {:induction false} AskedAt(uses: seq<Use>, i: nat, ports: nat)
    requires Declares(uses, ports) && i < |uses|
    ensures Asked(uses, uses[i].port) == uses[i].repeat
    decreases |uses|
  {
    var init := uses[..|uses| - 1];
    if i == |uses| - 1 {
      AskedAbsent(init, uses[i].port);
    } else {
      AskedAt(init, i, ports);
    }
  }

  /** The inports after the uses so far were asked how much they have. */
  ghost predicate Seen(names: seq<PortId>, was: seq<Inport>, now: seq<Inport>, at: Streaming, uses: seq<Use>) {
    && Checked(names, now, at, uses) && |was| == |now|
    && forall p :: 0 <= p < |was| ==> SeenAt(names[p], was[p], now[p], Asked(uses, p) > 0)
  }

  predicate SeenAt(me: PortId, was: Inport, now: Inport, asked: bool) {
    Usable(was, me) && Reach(now) == Reach(was) && now == if asked then Available(was, me).0 else was
  }

  lemma SeenNext(names: seq<PortId>, was: seq<Inport>, now: seq<Inport>, at: Streaming, input: seq<Use>, i: nat)
    requires Declares(input, |names|) && i < |input| && Seen(names, was, now, at, input[..i])
    ensures var p := input[i].port;
            && p < |now| == |names| == |at.consumed| == |was| && Usable(now[p], names[p])
            && Seen(names, was, now[p := Available(now[p], names[p]).0], at, input[..i + 1])
            && Available(now[p], names[p]).1 == Reach(was[p]) - at.consumed[p]
  {
    hide Rests, Ready, Reach, Available, Usable;
    var u := input[i];
    var next := now[u.port := Available(now[u.port], names[u.port]).0];
    AskedOnce(input, i, |names|);
    AvailableIsReady(now[u.port], names[u.port], at.arriving[u.port], at.consumed[u.port]);
    ReadyRests(next[u.port], names[u.port], at.arriving[u.port], at.consumed[u.port]);
    forall p: nat ensures Asked(input[..i + 1], p) == Asked(input[..i], p) + if u.port == p then u.repeat else 0 {
      AskedNext(input, i, p);
    }
    forall p | 0 <= p < |was| && p != u.port
      ensures Asked(input[..i + 1], p) == Asked(input[..i], p) && next[p] == now[p]
    {
    }
  }

  lemma SeenStart(names: seq<PortId>, ins: seq<Inport>, at: Streaming)
    requires Checked(names, ins, at, [])
    ensures Seen(names, ins, ins, at, [])
  {
    hide Rests, Ready, Reach, Available, Usable;
  }

  lemma PeekedStart(names: seq<PortId>, ins: seq<Inport>, at: Streaming, input: seq<Use>)
    requires Checked(names, ins, at, input)
    ensures |names| == |ins| == |at.arriving| == |at.consumed| && Peeked(names, ins, ins, [])
  {
    hide Rests, Ready, PeekAll, Usable;
    forall p | 0 <= p < |ins| ensures PeekAll(ins[p], names[p], 0).0 == ins[p] { PeekAllStep(ins[p], names[p], 0); }
  }

  lemma PeekedNext(names: seq<PortId>, was: seq<Inport>, now: seq<Inport>, input: seq<Use>, i: nat)
    requires Declares(input, |names|) && i < |input| && Peeked(names, was, now, input[..i])
    ensures var u := input[i];
            && u.port < |names| == |now| == |was| && Usable(now[u.port], names[u.port]) && now[u.port] == was[u.port]
            && Peeked(names, was, now[u.port := PeekAll(now[u.port], names[u.port], u.repeat).0], input[..i + 1])
  {
    hide PeekAll, Usable, Asked;
    var u := input[i];
    AskedOnce(input, i, |names|);
    PeekAllStep(was[u.port], names[u.port], 0);
    forall p: nat ensures Asked(input[..i + 1], p) == Asked(input[..i], p) + if u.port == p then u.repeat else 0 {
      AskedNext(input, i, p);
    }
  }

  lemma {:induction false} AskedUse(uses: seq<Use>, p: nat, ports: nat) returns (j: nat)
    requires Declares(uses, ports) && Asked(uses, p) > 0
    ensures j < |uses| && uses[j].port == p && Asked(uses, p) == uses[j].repeat
    decreases |uses|
  {
    var k := |uses| - 1;
    if uses[k].port == p {
      AskedAbsent(uses[..k], p);
      j := k;
    } else {
      j := AskedUse(uses[..k], p, ports);
    }
  }

  /** The next tokens of input i. */
  lemma PeekedArg(names: seq<PortId>, was: seq<Inport>, at: Streaming, input: seq<Use>, i: nat)
    requires Declares(input, |names|) && i < |input| && Checked(names, was, at, input) && Enough(was, at, input)
    ensures var u := input[i];
            var c := at.consumed[u.port];
            && c + u.repeat <= |at.arriving[u.port]|
            && PeekAll(was[u.port], names[u.port], u.repeat).1 == Found(at.arriving[u.port][c..c + u.repeat])
  {
    hide Rests, Ready, PeekAll, Usable, Asked, Rewind, Commit, Reach;
    var u := input[i];
    AskedAt(input, i, |names|);
    RestsUsable(was[u.port], names[u.port], at.arriving[u.port], at.consumed[u.port]);
    PeekedTokens(was[u.port], names[u.port], at.arriving[u.port], at.consumed[u.port], u.repeat);
  }

  function Settle(x: Inport, me: PortId, commit: bool): Inport
    requires Usable(x, me)
  {
    if commit then Commit(x, me) else Rewind(x, me)
  }

  /** Inports while they are committed or rewound: those done so far, and those still peeked. */
  ghost predicate Settling(names: seq<PortId>, was: seq<Inport>, now: seq<Inport>, input: seq<Use>, i: nat, commit: bool) {
    && i <= |input| && |now| == |was| == |names|
    && forall p :: 0 <= p < |was| ==>
         SettlingAt(names[p], was[p], now[p], Asked(input, p), Asked(input[..i], p) > 0, commit)
  }

  ghost predicate SettlingAt(me: PortId, was: Inport, now: Inport, peeks: nat, done: bool, commit: bool) {
    Usable(was, me)
    && var peeked := PeekAll(was, me, peeks).0;
       now == if done then Settle(peeked, me, commit) else peeked
  }

  lemma SettlingStart(names: seq<PortId>, was: seq<Inport>, now: seq<Inport>, input: seq<Use>, commit: bool)
    requires Peeked(names, was, now, input)
    ensures Settling(names, was, now, input, 0, commit)
  {
    hide PeekAll, Usable, Settle;
    assert input[..0] == [];
  }

  lemma SettlingNext(names: seq<PortId>, was: seq<Inport>, now: seq<Inport>, input: seq<Use>, i: nat, commit: bool)
    requires Declares(input, |names|) && i < |input| && Settling(names, was, now, input, i, commit)
    ensures var p := input[i].port;
            && p < |names| == |now| && Usable(now[p], names[p])
            && Settling(names, was, now[p := Settle(now[p], names[p], commit)], input, i + 1, commit)
  {
    hide PeekAll, Usable, Settle, Asked;
    var u := input[i];
    AskedOnce(input, i, |names|);
    forall p: nat ensures Asked(input[..i + 1], p) == Asked(input[..i], p) + if u.port == p then u.repeat else 0 {
      AskedNext(input, i, p);
    }
  }

  lemma SettledAt(me: PortId, was: Inport, now: Inport, hist: seq<Token>, c: nat, k: nat, commit: bool)
    requires Rests(was, me, hist, c) && (k > 0 ==> Ready(was, me, hist, c) && c + k <= Reach(was))
    requires SettlingAt(me, was, now, k, k > 0, commit)
    ensures !commit ==> now == was
    ensures commit ==> Rests(now, me, hist, c + k) && Reach(now) == Reach(was)
  {
    hide Rests, Ready, PeekAll, Usable, Rewind, Commit, Reach;
    RestsUsable(was, me, hist, c);
    if k > 0 { PeekedTokens(was, me, hist, c, k); } else { PeekAllStep(was, me, 0); }
  }

  lemma EnoughAt(names: seq<PortId>, was: seq<Inport>, at: Streaming, input: seq<Use>, p: nat)
    requires Declares(input, |names|) && Checked(names, was, at, input) && Enough(was, at, input) && p < |was|
    ensures Rests(was[p], names[p], at.arriving[p], at.consumed[p])
    ensures Asked(input, p) > 0 ==>
              && Ready(was[p], names[p], at.arriving[p], at.consumed[p])
              && at.consumed[p] + Asked(input, p) <= Reach(was[p])
  {
    hide Rests, Ready, Usable, Asked, Reach;
    if Asked(input, p) > 0 { var j := AskedUse(input, p, |names|); }
  }

  /** A rewind of all declared inports restores them exactly; a commit consumes what was declared. */
  lemma SettlingEnd(names: seq<PortId>, was: seq<Inport>, now: seq<Inport>, at: Streaming, input: seq<Use>, commit: bool)
    requires Declares(input, |names|) && Settling(names, was, now, input, |input|, commit)
    requires Checked(names, was, at, input) && Enough(was, at, input)
    ensures !commit ==> now == was
    ensures commit ==> |now| == |was| && forall p :: 0 <= p < |was| ==>
              Rests(now[p], names[p], at.arriving[p], at.consumed[p] + Asked(input, p)) && Reach(now[p]) == Reach(was[p])
  {
    hide Rests, Ready, Usable, Asked, Reach, SettlingAt, Enough;
    assert input[..|input|] == input;
    forall p | 0 <= p < |was|
      ensures !commit ==> now[p] == was[p]
      ensures commit ==> Rests(now[p], names[p], at.arriving[p], at.consumed[p] + Asked(input, p))
      ensures commit ==> Reach(now[p]) == Reach(was[p])
    {
      EnoughAt(names, was, at, input, p);
      SettledAt(names[p], was[p], now[p], at.arriving[p], at.consumed[p], Asked(input, p), commit);
    }
  }

  lemma SeenSizes(names: seq<PortId>, ins: seq<Inport>, at: Streaming)
    requires Checked(names, ins, at, [])
    ensures |names| == |ins| == |at.arriving| == |at.consumed|
  {
  }

  // ------------------------------------------------------------ what a firing means, port by port

  /** What outport u gains from the product p: a list given for more than one token, in order; a token given for
      one; and a list given for one as a single list-valued token. */
  ghost predicate Delivers(u: Use, p: Product, gained: seq<Token>) {
    if u.repeat > 1 then p.Many? && gained == p.tokens
    else
      |gained| == 1 &&
      match p
      case One(t) => gained[0] == t
      case Many(ts) =>
        && gained[0].class_ == Plain && gained[0].value.Items? && |gained[0].value.items| == |ts|
        && forall i :: 0 <= i < |ts| ==> gained[0].value.items[i] == ts[i].value
  }

  predicate Unused(uses: seq<Use>, p: nat) { forall i :: 0 <= i < |uses| ==> uses[i].port != p }

  predicate Took(at: Streaming, at': Streaming, u: Use) {
    u.port < |at.consumed| == |at'.consumed| && at'.consumed[u.port] == at.consumed[u.port] + u.repeat
  }

  ghost predicate Gained(at: Streaming, at': Streaming, u: Use, p: Product) {
    && u.port < |at.written| == |at'.written| && at.written[u.port] <= at'.written[u.port]
    && Delivers(u, p, at'.written[u.port][|at.written[u.port]|..])
  }

  /** Each declared inport has given the declared number of tokens, each declared outport has gained what was
      returned for it, and nothing else has moved. */
  ghost predicate FiredAs(at: Streaming, at': Streaming, a: Action, production: seq<Product>) {
    && at'.arriving == at.arriving && |at'.consumed| == |at.consumed| && |at'.written| == |at.written|
    && |production| == |a.output|
    && (forall i :: 0 <= i < |a.input| ==> Took(at, at', a.input[i]))
    && (forall p :: 0 <= p < |at.consumed| && Unused(a.input, p) ==> at'.consumed[p] == at.consumed[p])
    && (forall i :: 0 <= i < |a.output| ==> Gained(at, at', a.output[i], production[i]))
    && (forall q :: 0 <= q < |at.written| && Unused(a.output, q) ==> at'.written[q] == at.written[q])
  }

  lemma DeliversWritten(u: Use, p: Product, gained: seq<Token>)
    requires u.repeat > 1 ==> p.Many?
    ensures Delivers(u, p, gained) <==> gained == Written(u, p)
  {
    if u.repeat <= 1 && p.Many? && Delivers(u, p, gained) {
      assert gained[0].value.items == Whole(p).value.items;
    }
  }

  /** A production is valid exactly when each declared outport can gain what it declares. */
  lemma HonoursIff(a: Action, production: seq<Product>)
    requires forall i :: 0 <= i < |a.output| ==> a.output[i].repeat > 0
    ensures Honours(a, production) <==>
              && |production| == |a.output|
              && forall i :: 0 <= i < |production| ==> Fits(a.output[i], production[i])
  {
    hide Delivers;
    if |production| == |a.output| {
      forall i | 0 <= i < |production|
        ensures Fits(a.output[i], production[i]) <==>
                  (a.output[i].repeat > 1 ==> production[i].Many? && |production[i].tokens| == a.output[i].repeat)
      {
        FitsIff(a.output[i], production[i]);
      }
    }
  }

  ghost predicate Fits(u: Use, p: Product) { exists gained :: Delivers(u, p, gained) && |gained| == u.repeat }

  lemma FitsIff(u: Use, p: Product)
    requires u.repeat > 0
    ensures Fits(u, p) <==> (u.repeat > 1 ==> p.Many? && |p.tokens| == u.repeat)
  {
    if u.repeat > 1 ==> p.Many? { DeliversWritten(u, p, Written(u, p)); }
  }

  lemma {:induction false} PutAt(uses: seq<Use>, production: seq<Product>, i: nat, ports: nat)
    requires Declares(uses, ports) && i < |production| <= |uses|
    ensures Put(uses, production, uses[i].port) == Written(uses[i], production[i])
    decreases |production|
  {
    var k := |production| - 1;
    if i == k {
      PutAbsent(uses, production[..k], uses[i].port);
      assert [] + Written(uses[i], production[i]) == Written(uses[i], production[i]);
    } else {
      PutAt(uses, production[..k], i, ports);
      assert Written(uses[i], production[i]) + [] == Written(uses[i], production[i]);
    }
  }

  lemma PortTaken(at: Streaming, at': Streaming, a: Action, production: seq<Product>, p: nat)
    requires Declared(a, |at.consumed|, |at.written|) && FiredAs(at, at', a, production) && p < |at.consumed|
    ensures at'.consumed[p] == at.consumed[p] + Asked(a.input, p)
  {
    if Unused(a.input, p) {
      AskedAbsent(a.input, p);
    } else {
      var i :| 0 <= i < |a.input| && a.input[i].port == p;
      AskedAt(a.input, i, |at.consumed|);
      assert Took(at, at', a.input[i]);
    }
  }

  lemma PortGained(at: Streaming, at': Streaming, a: Action, production: seq<Product>, q: nat)
    requires Declared(a, |at.consumed|, |at.written|) && Honours(a, production)
    requires FiredAs(at, at', a, production) && q < |at.written|
    ensures at'.written[q] == at.written[q] + Put(a.output, production, q)
  {
    hide Delivers, Written, Put, Whole;
    if Unused(a.output, q) {
      PutAbsent(a.output, production, q);
      assert at.written[q] + [] == at.written[q];
    } else {
      var i :| 0 <= i < |a.output| && a.output[i].port == q;
      PutAt(a.output, production, i, |at.written|);
      assert Gained(at, at', a.output[i], production[i]);
      DeliversWritten(a.output[i], production[i], at'.written[q][|at.written[q]|..]);
    }
  }

  lemma AfterFires(at: Streaming, a: Action, production: seq<Product>)
    requires Declared(a, |at.consumed|, |at.written|) && Honours(a, production)
    ensures FiredAs(at, After(at, a, production), a, production)
  {
    hide Delivers, Written, Put, Whole, Asked;
    var at' := After(at, a, production);
    forall i | 0 <= i < |a.input| ensures Took(at, at', a.input[i]) { AskedAt(a.input, i, |at.consumed|); }
    forall p | 0 <= p < |at.consumed| && Unused(a.input, p) ensures at'.consumed[p] == at.consumed[p] {
      AskedAbsent(a.input, p);
    }
    forall i | 0 <= i < |a.output| ensures Gained(at, at', a.output[i], production[i]) {
      PutAt(a.output, production, i, |at.written|);
      DeliversWritten(a.output[i], production[i], Written(a.output[i], production[i]));
    }
    forall q | 0 <= q < |at.written| && Unused(a.output, q) ensures at'.written[q] == at.written[q] {
      PutAbsent(a.output, production, q);
    }
  }

  /** The streams after a firing are the ones where each port has given or gained what it should, and no others. */
  lemma AfterIsFiredAs(at: Streaming, at': Streaming, a: Action, production: seq<Product>)
    requires Declared(a, |at.consumed|, |at.written|) && Honours(a, production)
    ensures at' == After(at, a, production) <==> FiredAs(at, at', a, production)
  {
    hide FiredAs, Honours, Asked, Put;
    AfterFires(at, a, production);
    if FiredAs(at, at', a, production) { FiredIsAfter(at, at', a, production); }
  }

  lemma FiredIsAfter(at: Streaming, at': Streaming, a: Action, production: seq<Product>)
    requires Declared(a, |at.consumed|, |at.written|) && Honours(a, production) && FiredAs(at, at', a, production)
    ensures at' == After(at, a, production)
  {
    hide Asked, Put, Took, Gained, Unused;
    var x := After(at, a, production);
    forall p | 0 <= p < |at.consumed| ensures at'.consumed[p] == x.consumed[p] { PortTaken(at, at', a, production, p); }
    forall q | 0 <= q < |at.written| ensures at'.written[q] == x.written[q] { PortGained(at, at', a, production, q); }
    assert at'.consumed == x.consumed && at'.written == x.written;
  }

  // ------------------------------------------------------------ sums

  function SumOf(xs: seq<int>): int { if xs == [] then 0 else SumOf(xs[..|xs| - 1]) + xs[|xs| - 1] }

  lemma {:induction false} SumUpdate(xs: seq<int>, k: nat, v: int)
    requires k < |xs|
    ensures SumOf(xs[k := v]) == SumOf(xs) - xs[k] + v
    decreases |xs|
  {
    var init := xs[..|xs| - 1];
    if k < |xs| - 1 {
      assert xs[k := v][..|xs| - 1] == init[k := v];
      SumUpdate(init, k, v);
    } else {
      assert xs[k := v][..|xs| - 1] == init;
    }
  }

  /** Adding to each number what a list of uses asks of its port adds the sum of the uses. */
  lemma {:induction false} SumShift(xs: seq<int>, ys: seq<int>, uses: seq<Use>, sign: int)
    requires |xs| == |ys| && forall i :: 0 <= i < |uses| ==> uses[i].port < |xs|
    requires forall p :: 0 <= p < |xs| ==> ys[p] == xs[p] + sign * Asked(uses, p)
    ensures SumOf(ys) == SumOf(xs) + sign * Sum(uses)
    decreases |uses|
  {
    if uses == [] {
      assert ys == xs;
    } else {
      var init, u := uses[..|uses| - 1], uses[|uses| - 1];
      var zs := ys[u.port := ys[u.port] - sign * u.repeat];
      SumUpdate(ys, u.port, ys[u.port] - sign * u.repeat);
      Distribute(sign, Asked(init, u.port), u.repeat);
      Distribute(sign, Sum(init), u.repeat);
      SumShift(xs, zs, init, sign);
    }
  }

  lemma Distribute(a: int, b: int, c: int)
    ensures a * (b + c) == a * b + a * c
  {
  }

  lemma {:induction false} PutLength(a: Action, production: seq<Product>, k: nat, q: nat)
    requires Honours(a, production) && k <= |production| && forall i :: 0 <= i < |a.output| ==> a.output[i].repeat > 0
    ensures |Put(a.output, production[..k], q)| == Asked(a.output[..k], q)
    decreases k
  {
    if k > 0 {
      PutLength(a, production, k - 1, q);
      PutNext(a.output, production, k - 1, q);
      AskedNext(a.output, k - 1, q);
    }
  }

  function Total(xs: seq<nat>): int { SumOf(seq(|xs|, i requires 0 <= i < |xs| => xs[i] as int)) }

  function Lengths(xs: seq<seq<Token>>): (r: seq<nat>)
    ensures |r| == |xs| && forall i :: 0 <= i < |xs| ==> r[i] == |xs[i]|
  {
    seq(|xs|, i requires 0 <= i < |xs| => |xs[i]|)
  }

  /** A firing moves the consumed positions by what it declares to take, in all, and the written ones by
      what it declares to produce. */
  lemma FiringCounts(at: Streaming, a: Action, production: seq<Product>)
    requires Declared(a, |at.consumed|, |at.written|) && Honours(a, production)
    ensures Total(After(at, a, production).consumed) == Total(at.consumed) + Sum(a.input)
    ensures Total(Lengths(After(at, a, production).written)) == Total(Lengths(at.written)) + Sum(a.output)
  {
    var at' := After(at, a, production);
    var n, m := |at.consumed|, |at.written|;
    SumShift(seq(n, i requires 0 <= i < n => at.consumed[i] as int),
             seq(n, i requires 0 <= i < n => at'.consumed[i] as int), a.input, 1);
    assert a.output[..|production|] == a.output && production[..|production|] == production;
    forall q | 0 <= q < m ensures |at'.written[q]| == |at.written[q]| + Asked(a.output, q) {
      PutLength(a, production, |production|, q);
    }
    var ws, ws' := Lengths(at.written), Lengths(at'.written);
    SumShift(seq(m, i requires 0 <= i < m => ws[i] as int), seq(m, i requires 0 <= i < m => ws'[i] as int), a.output, 1);
  }

  /** Tokens that can still be read, plus tokens that can still be written. */
  ghost function Left(reach: seq<nat>, consumed: seq<nat>, slots: seq<int>): int
    requires |reach| == |consumed|
  {
    SumOf(seq(|reach|, p requires 0 <= p < |reach| => reach[p] as int - consumed[p])) + SumOf(slots)
  }

  /** Every firing brings it down by the tokens moved. */
  lemma FiringUsesUp(reach: seq<nat>, consumed: seq<nat>, slots: seq<int>, consumed': seq<nat>, slots': seq<int>, a: Action)
    requires |reach| == |consumed| == |consumed'| && |slots| == |slots'| && Declared(a, |reach|, |slots|)
    requires forall p :: 0 <= p < |reach| ==> consumed'[p] == consumed[p] + Asked(a.input, p)
    requires forall q :: 0 <= q < |slots| ==> slots'[q] == slots[q] - Asked(a.output, q)
    ensures Left(reach, consumed', slots') == Left(reach, consumed, slots) - Sum(a.input) - Sum(a.output)
  {
    var n := |reach|;
    SumShift(seq(n, p requires 0 <= p < n => reach[p] as int - consumed[p]),
             seq(n, p requires 0 <= p < n => reach[p] as int - consumed'[p]), a.input, -1);
    SumShift(slots, slots', a.output, -1);
  }

  function Reaches(ins: seq<Inport>): (r: seq<nat>)
    ensures |r| == |ins| && forall p :: 0 <= p < |ins| ==> r[p] == Reach(ins[p])
  {
    seq(|ins|, p requires 0 <= p < |ins| => Reach(ins[p]))
  }

  ghost function Rooms(outs: seq<FifoState>): (r: seq<int>)
    requires Formed(outs)
    ensures |r| == |outs| && forall q :: 0 <= q < |outs| ==> r[q] == AvailableSlots(outs[q])
  {
    seq(|outs|, q requires 0 <= q < |outs| => AvailableSlots(outs[q]))
  }

  ghost function LeftAt(ins: seq<Inport>, outs: seq<FifoState>, at: Streaming): int
    requires |ins| == |at.consumed| && Formed(outs)
  {
    Left(Reaches(ins), at.consumed, Rooms(outs))
  }

  // ------------------------------------------------------------ what bounds a run of firings

  /** How far each inport can see into its stream, and how many tokens each outport could be given in all. While
      fire() runs nobody else writes to the one or reads from the other. */
  datatype Limits = Limits(reach: seq<nat>, room: seq<int>)

  ghost function LimitsOf(ins: seq<Inport>, outs: seq<FifoState>, at: Streaming): (l: Limits)
    requires Formed(outs) && |outs| == |at.written|
    ensures |l.reach| == |ins| && forall p :: 0 <= p < |ins| ==> l.reach[p] == Reach(ins[p])
    ensures |l.room| == |outs| && forall q :: 0 <= q < |outs| ==> l.room[q] == |at.written[q]| + AvailableSlots(outs[q])
  {
    Limits(Reaches(ins), seq(|outs|, q requires 0 <= q < |outs| => |at.written[q]| + AvailableSlots(outs[q])))
  }

  /** The action finds its tokens, and room for its results. */
  predicate May(l: Limits, a: Action, at: Streaming) {
    && (forall i :: 0 <= i < |a.input| ==> HasTokens(l, at, a.input[i]))
    && (forall i :: 0 <= i < |a.output| ==> HasRoom(l, at, a.output[i]))
  }

  predicate HasTokens(l: Limits, at: Streaming, u: Use) {
    u.port < |at.consumed| && u.port < |l.reach| && at.consumed[u.port] + u.repeat <= l.reach[u.port]
  }

  predicate HasRoom(l: Limits, at: Streaming, u: Use) {
    u.port < |at.written| && u.port < |l.room| && |at.written[u.port]| + u.repeat <= l.room[u.port]
  }

  lemma CanIsMay(ins: seq<Inport>, outs: seq<FifoState>, at: Streaming, a: Action)
    requires |at.consumed| == |ins| && |outs| == |at.written| && Formed(outs) && Declared(a, |ins|, |outs|)
    ensures Enough(ins, at, a.input) && Room(outs, a.output) <==> May(LimitsOf(ins, outs, at), a, at)
  {
    hide FifoSpec.AvailableSlots, Reach, HasTokens, HasRoom;
    var l := LimitsOf(ins, outs, at);
    forall i | 0 <= i < |a.input|
      ensures Reach(ins[a.input[i].port]) - at.consumed[a.input[i].port] >= a.input[i].repeat
         <==> HasTokens(l, at, a.input[i])
    {
      TokensAt(l, at, a.input[i]);
    }
    forall i | 0 <= i < |a.output|
      ensures AvailableSlots(outs[a.output[i].port]) >= a.output[i].repeat <==> HasRoom(l, at, a.output[i])
    {
      RoomAt(l, at, a.output[i]);
    }
  }

  lemma TokensAt(l: Limits, at: Streaming, u: Use)
    requires u.port < |at.consumed| == |l.reach|
    ensures HasTokens(l, at, u) <==> l.reach[u.port] - at.consumed[u.port] >= u.repeat
  {
  }

  lemma RoomAt(l: Limits, at: Streaming, u: Use)
    requires u.port < |at.written| == |l.room|
    ensures HasRoom(l, at, u) <==> l.room[u.port] - |at.written[u.port]| >= u.repeat
  {
  }

  /** A firing uses up tokens and room, and leaves the bounds where they are. */
  lemma LimitsStay(was: seq<Inport>, now: seq<Inport>, outs: seq<FifoState>, outs': seq<FifoState>, at: Streaming,
                   a: Action, production: seq<Product>)
    requires Declared(a, |was|, |outs|) && Honours(a, production) && Formed(outs) && Formed(outs')
    requires |now| == |was| && |outs'| == |outs| == |at.written|
    requires forall p :: 0 <= p < |was| ==> Reach(now[p]) == Reach(was[p])
    requires forall q :: 0 <= q < |outs| ==> AvailableSlots(outs'[q]) == AvailableSlots(outs[q]) - Asked(a.output, q)
    ensures LimitsOf(now, outs', After(at, a, production)) == LimitsOf(was, outs, at)
  {
    hide Formed, FifoSpec.AvailableSlots, Reach, Asked, Put, Honours;
    HonoursSize(a, production);
    var l, l' := LimitsOf(was, outs, at), LimitsOf(now, outs', After(at, a, production));
    assert a.output[..|production|] == a.output && production[..|production|] == production;
    forall q | 0 <= q < |outs| ensures l'.room[q] == l.room[q] { PutLength(a, production, |production|, q); }
    assert l'.reach == l.reach && l'.room == l.room;
  }

  lemma HonoursSize(a: Action, production: seq<Product>)
    requires Honours(a, production)
    ensures |production| == |a.output|
  {
  }

  // ------------------------------------------------------------ what fire() does, pass by pass

  /** What the n-th attempt made comes to when it runs action k on these tokens. */
  type Oracle = (nat, nat, seq<seq<Token>>) -> Outcome

  predicate ArgsFit(at: Streaming, input: seq<Use>) {
    && |at.arriving| == |at.consumed|
    && forall i :: 0 <= i < |input| ==>
         && input[i].port < |at.consumed|
         && at.consumed[input[i].port] + input[i].repeat <= |at.arriving[input[i].port]|
  }

  /** In a pass whose first attempt has number `first`, action k may run, and this is what running it comes to. */
  ghost predicate Gives(l: Limits, actions: seq<Action>, k: nat, first: nat, oracle: Oracle, at: Streaming,
                        outcome: Outcome)
  {
    && k < |actions| && May(l, actions[k], at) && ArgsFit(at, actions[k].input)
    && oracle(first + k, k, Args(at, actions[k].input)) == outcome
  }

  /** Action k lacks tokens or room, or the attempt at it was refused. */
  ghost predicate Idle(l: Limits, actions: seq<Action>, k: nat, first: nat, oracle: Oracle, at: Streaming)
    requires k < |actions|
  {
    May(l, actions[k], at) ==> Gives(l, actions, k, first, oracle, at, Refused)
  }

  ghost predicate AllIdle(l: Limits, actions: seq<Action>, upto: nat, first: nat, oracle: Oracle, at: Streaming)
    requires upto <= |actions|
  {
    forall j :: 0 <= j < upto ==> Idle(l, actions, j, first, oracle, at)
  }

  /** The pass comes to action k, all before it being idle, and fires it. */
  ghost predicate PassFires(l: Limits, actions: seq<Action>, k: nat, first: nat, oracle: Oracle, at: Streaming,
                            at': Streaming)
  {
    && k < |actions| && AllIdle(l, actions, k, first, oracle, at)
    && exists production :: Gives(l, actions, k, first, oracle, at, Fired(production))
                            && Honours(actions[k], production) && FiredAs(at, at', actions[k], production)
  }

  /** The pass comes to action k, all before it being idle, and what it returns does not fit its outports. */
  ghost predicate PassRaises(l: Limits, actions: seq<Action>, k: nat, first: nat, oracle: Oracle, at: Streaming) {
    && k < |actions| && AllIdle(l, actions, k, first, oracle, at)
    && exists production :: Gives(l, actions, k, first, oracle, at, Fired(production))
                            && !Honours(actions[k], production)
  }

  /** A pass that fired action k, and where that left the streams. */
  datatype Pass = Pass(k: nat, at: Streaming)

  /** How many attempts the passes made. */
  function Attempts(run: seq<Pass>): nat {
    if run == [] then 0 else Attempts(run[..|run| - 1]) + run[|run| - 1].k + 1
  }

  function Reached(run: seq<Pass>, at: Streaming): Streaming {
    if run == [] then at else run[|run| - 1].at
  }

  /** From `at`, pass after pass fires, each starting over with the first action where the one before it left the
      streams. */
  ghost predicate Fires(l: Limits, actions: seq<Action>, oracle: Oracle, run: seq<Pass>, at: Streaming) {
    run == [] ||
    var init, last := run[..|run| - 1], run[|run| - 1];
    && Fires(l, actions, oracle, init, at)
    && PassFires(l, actions, last.k, Attempts(init), oracle, Reached(init, at), last.at)
  }

  lemma FiresStart(l: Limits, actions: seq<Action>, oracle: Oracle, at: Streaming)
    ensures Fires(l, actions, oracle, [], at) && Attempts([]) == 0 && Reached([], at) == at
  {
  }

  lemma FiresNext(l: Limits, actions: seq<Action>, oracle: Oracle, run: seq<Pass>, at: Streaming, k: nat, at': Streaming)
    requires Fires(l, actions, oracle, run, at)
    requires PassFires(l, actions, k, Attempts(run), oracle, Reached(run, at), at')
    ensures Fires(l, actions, oracle, run + [Pass(k, at')], at)
    ensures Attempts(run + [Pass(k, at')]) == Attempts(run) + k + 1 && Reached(run + [Pass(k, at')], at) == at'
  {
    hide PassFires;
    assert (run + [Pass(k, at')])[..|run|] == run;
  }

  lemma ConsistentParts(names: seq<PortId>, ins: seq<Inport>, outs: seq<FifoState>, at: Streaming)
    requires Consistent(names, ins, outs, at)
    ensures Checked(names, ins, at, []) && Formed(outs)
    ensures |names| == |ins| == |at.arriving| == |at.consumed| && |outs| == |at.written|
    ensures forall q :: 0 <= q < |outs| ==> Implements(outs[q], at.written[q])
  {
    hide Rests, Usable;
    forall p | 0 <= p < |ins| ensures Usable(ins[p], names[p]) {
      RestsUsable(ins[p], names[p], at.arriving[p], at.consumed[p]);
    }
    forall q | 0 <= q < |outs| ensures outs[q].WellFormed() { Positions(outs[q], at.written[q]); }
  }

  /** Asking how much there is leaves the ports consistent. */
  lemma SeenConsistent(names: seq<PortId>, was: seq<Inport>, now: seq<Inport>, outs: seq<FifoState>, at: Streaming, uses: seq<Use>)
    requires Consistent(names, was, outs, at) && Seen(names, was, now, at, uses)
    ensures Consistent(names, now, outs, at) && Reaches(now) == Reaches(was) && Checked(names, now, at, uses)
    ensures forall input :: Declares(input, |names|) ==> (Enough(now, at, input) <==> Enough(was, at, input))
  {
    hide Rests, Usable, Ready, Asked;
    assert Reaches(now) == Reaches(was);
    forall input | Declares(input, |names|)
      ensures Enough(now, at, input) <==> Enough(was, at, input)
    {
    }
  }

  /** What one attempt comes to: nothing, a firing, or an exception about what the action returned. */
  function Attempted(at: Streaming, a: Action, can: bool, outcome: Outcome): (Result<ActionResult>, Streaming) {
    if !can || outcome.Refused? then (Ok(ActionResult(false, 0, 0)), at)
    else if Honours(a, outcome.production) then
      (Ok(ActionResult(true, Sum(a.input), Sum(a.output))), After(at, a, outcome.production))
    else (Raised("invalid production"), at)
  }

  lemma {:induction false} SumNonNegative(xs: seq<int>)
    requires forall i :: 0 <= i < |xs| ==> xs[i] >= 0
    ensures SumOf(xs) >= 0
    decreases |xs|
  {
    if xs != [] { SumNonNegative(xs[..|xs| - 1]); }
  }

  lemma LeftNonNegative(names: seq<PortId>, ins: seq<Inport>, outs: seq<FifoState>, at: Streaming)
    requires Consistent(names, ins, outs, at) && Formed(outs)
    ensures |ins| == |at.consumed| && LeftAt(ins, outs, at) >= 0
  {
    hide Rests, Implements, FifoSpec.AvailableSlots, Reach;
    forall p | 0 <= p < |ins| ensures Reaches(ins)[p] >= at.consumed[p] {
      RestsUsable(ins[p], names[p], at.arriving[p], at.consumed[p]);
    }
    forall q | 0 <= q < |outs| ensures Rooms(outs)[q] >= 0 { RoomNonNegative(outs[q], at.written[q]); }
    SumNonNegative(seq(|ins|, p requires 0 <= p < |ins| => Reaches(ins)[p] as int - at.consumed[p]));
    SumNonNegative(Rooms(outs));
  }

  lemma RoomNonNegative(f: FifoState, hist: seq<Token>)
    requires Implements(f, hist)
    ensures AvailableSlots(f) >= 0
  {
    SpaceIsExact(f, hist);
  }

  /** The streams only move forward. */
  predicate Onward(at: Streaming, at': Streaming) {
    && at'.arriving == at.arriving && |at'.consumed| == |at.consumed| && |at'.written| == |at.written|
    && (forall p :: 0 <= p < |at.consumed| ==> at.consumed[p] <= at'.consumed[p])
    && (forall q :: 0 <= q < |at.written| ==> at.written[q] <= at'.written[q])
  }

  /** What an attempt's counts say about the streams. */
  lemma AttemptCounts(at: Streaming, a: Action, can: bool, outcome: Outcome)
    requires Declared(a, |at.consumed|, |at.written|)
    ensures var (r, at') := Attempted(at, a, can, outcome);
            && Onward(at, at')
            && (r.Ok? ==>
                  && Total(at'.consumed) == Total(at.consumed) + r.value.consumed
                  && Total(Lengths(at'.written)) == Total(Lengths(at.written)) + r.value.produced
                  && (!r.value.didFire ==> at' == at && r.value.consumed == 0 && r.value.produced == 0)
                  && (r.value.didFire ==> r.value.consumed == Sum(a.input) && r.value.produced == Sum(a.output)))
            && (r.Raised? ==> at' == at)
  {
    hide Asked, Put, Total, Sum;
    if can && outcome.Fired? && Honours(a, outcome.production) { FiringCounts(at, a, outcome.production); }
  }
}
