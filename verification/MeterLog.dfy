/** The timed log of firings, read by several users (metering.py:61-124). */
module MeterLog {
  import opened Wrappers

  type Time = real

  datatype Entry = Entry(time: Time, action: string)

  type Log = map<string, seq<Entry>>

  /** actors_log, users (each with the time of its last access), oldest, last_forget; `now` is the last
      reading of the clock. */
  datatype Meter = Meter(log: Log, users: map<string, Time>, oldest: Time, lastForget: Time, timeout: Time, now: Time)

  function Since(es: seq<Entry>, t: Time): (r: seq<Entry>) {
    if es == [] then [] else Since(es[..|es| - 1], t) + if es[|es| - 1].time > t then [es[|es| - 1]] else []
  }

  function AllSince(log: Log, t: Time): (r: Log)
    ensures r.Keys == log.Keys && forall a :: a in log ==> r[a] == Since(log[a], t)
  {
    map a | a in log :: Since(log[a], t)
  }

  /** min(self.users.values()) */
  ghost predicate Least(users: map<string, Time>, t: Time) {
    (exists u :: u in users && users[u] == t) && forall u :: u in users ==> t <= users[u]
  }

  lemma {:induction false} LeastExists(users: map<string, Time>) returns (t: Time)
    requires users != map[]
    ensures Least(users, t)
    decreases |users|
  {
    var u :| u in users;
    var rest := users - {u};
    if rest == map[] {
      t := users[u];
      assert forall v :: v in users && v != u ==> v in rest;
    } else {
      assert |rest.Keys| == |users.Keys - {u}|;
      var m := LeastExists(rest);
      t := if m <= users[u] then m else users[u];
      var w :| w in rest && rest[w] == m;
      assert w in users && users[w] == m;
      forall v | v in users ensures t <= users[v] { if v != u { assert v in rest; } }
    }
  }

  ghost function MinUser(users: map<string, Time>): (t: Time)
    requires users != map[]
    ensures Least(users, t)
  {
    assert exists t :: Least(users, t) by { var t := LeastExists(users); }
    var t :| Least(users, t);
    t
  }

  lemma LeastUnique(users: map<string, Time>, s: Time, t: Time)
    requires Least(users, s) && Least(users, t)
    ensures s == t
  {
  }

  /** How far back a forget at this time keeps entries. */
  ghost function Cut(m: Meter, current: Time): Time
    requires m.users != map[]
  {
    var t := MinUser(m.users);
    if t < current - m.timeout then current - m.timeout else t
  }

  ghost function Forgotten(m: Meter, current: Time): Meter {
    if m.users == map[] then m.(lastForget := current, log := map[], oldest := current)
    else m.(lastForget := current, log := AllSince(m.log, Cut(m, current)), oldest := Cut(m, current))
  }

  datatype Event =
    | Known(actor: string)
    | Fired(actor: string, action: string, time: Time)
    | Register(user: string, time: Time)
    | Unregister(user: string, time: Time)
    | Poll(user: string, time: Time)

  function Logged(m: Meter, actor: string, action: string, t: Time): Meter
    requires actor in m.log
  {
    m.(log := m.log[actor := m.log[actor] + [Entry(t, action)]], now := t)
  }

  /** What an event does, and the exception it raises instead. */
  ghost function Step(m: Meter, e: Event): Result<Meter> {
    match e
    case Known(a) => Ok(if a in m.log then m else m.(log := m.log[a := []]))
    case Fired(a, action, t) =>
      if m.users == map[] || m.timeout <= 0.0 then Ok(m.(now := t))
      else if a !in m.log then Raised("KeyError")
      else
        var m1 := Logged(m, a, action, t);
        Ok(if m1.oldest < t - m1.timeout && m1.lastForget < t - 1.0 then Forgotten(m1, t) else m1)
    case Register(u, t) => if u in m.users then Raised("User id already in use") else Ok(m.(users := m.users[u := t], now := t))
    case Unregister(u, t) =>
      if u !in m.users then Raised("User id not found") else Ok(Forgotten(m.(users := m.users - {u}, now := t), t))
    case Poll(u, t) =>
      if u !in m.users then Raised("User id not found") else Ok(Forgotten(m.(users := m.users[u := t], now := t), t))
  }

  /** The meter after the event; an exception leaves it as it is. */
  ghost function Next(m: Meter, e: Event): Meter { if Step(m, e).Ok? then Step(m, e).value else m }

  /** The response to a poll. */
  function Response(m: Meter, user: string): Log
    requires user in m.users
  {
    AllSince(m.log, m.users[user])
  }

  // ------------------------------------------------------------ exactly once

  function TimeOf(m: Meter, e: Event): Time { if e.Known? then m.now else e.time }

  predicate Inv(m: Meter) {
    && m.timeout > 0.0
    && (forall a, i :: a in m.log && 0 <= i < |m.log[a]| ==> m.log[a][i].time <= m.now)
    && (forall u :: u in m.users ==> m.users[u] <= m.now)
  }

  /** The clock moves on at every event; user u stays and is never out of touch longer than the timeout. */
  predicate Attentive(m: Meter, e: Event, u: string) {
    && u in m.users && (!e.Known? ==> e.time > m.now)
    && TimeOf(m, e) - m.users[u] <= m.timeout
    && (e.Unregister? ==> e.user != u)
  }

  /** The actor that fires has a log. */
  predicate HasLog(m: Meter, e: Event) { e.Fired? ==> e.actor in m.log }

  /** What u has still to be told about actor a. */
  function Unseen(m: Meter, u: string, a: string): seq<Entry>
    requires u in m.users
  {
    if a in m.log then Since(m.log[a], m.users[u]) else []
  }

  /** What u is told about a by this event. */
  function Told(m: Meter, e: Event, u: string, a: string): seq<Entry> {
    if e.Poll? && e.user == u && u in m.users && a in m.log then Response(m, u)[a] else []
  }

  function FiringOf(e: Event, a: string): seq<Entry> {
    if e.Fired? && e.actor == a then [Entry(e.time, e.action)] else []
  }

  lemma {:induction false} SinceConcat(es: seq<Entry>, fs: seq<Entry>, t: Time)
    ensures Since(es + fs, t) == Since(es, t) + Since(fs, t)
    decreases |fs|
  {
    if fs == [] {
      assert es + fs == es;
    } else {
      assert (es + fs)[..|es + fs| - 1] == es + fs[..|fs| - 1];
      SinceConcat(es, fs[..|fs| - 1], t);
    }
  }

  lemma {:induction false} SinceSince(es: seq<Entry>, s: Time, t: Time)
    requires s <= t
    ensures Since(Since(es, s), t) == Since(es, t)
    decreases |es|
  {
    if es != [] {
      var init, e := es[..|es| - 1], es[|es| - 1];
      SinceSince(init, s, t);
      SinceConcat(Since(init, s), if e.time > s then [e] else [], t);
      SinceOne(e, t);
    }
  }

  lemma SinceOne(e: Entry, t: Time)
    ensures Since([e], t) == if e.time > t then [e] else []
    ensures Since([], t) == []
  {
    assert [e][..0] == [];
  }

  lemma {:induction false} SinceNothing(es: seq<Entry>, t: Time)
    requires forall i :: 0 <= i < |es| ==> es[i].time <= t
    ensures Since(es, t) == []
    decreases |es|
  {
    if es != [] { SinceNothing(es[..|es| - 1], t); }
  }

  lemma {:induction false} SinceWithin(es: seq<Entry>, t: Time, i: nat)
    requires i < |Since(es, t)|
    ensures Since(es, t)[i] in es
    decreases |es|
  {
    if i < |Since(es[..|es| - 1], t)| { SinceWithin(es[..|es| - 1], t, i); }
  }

  /** A forget keeps all that an attentive user has not seen. */
  lemma ForgetSpares(m: Meter, current: Time, u: string, a: string)
    requires Inv(m) && u in m.users && current - m.users[u] <= m.timeout
    ensures var f := Forgotten(m, current);
            && f.users == m.users && f.now == m.now && f.timeout == m.timeout && f.log.Keys == m.log.Keys
            && Inv(f) && Unseen(f, u, a) == Unseen(m, u, a)
  {
    var f := Forgotten(m, current);
    assert Cut(m, current) <= m.users[u];
    forall b, i | b in f.log && 0 <= i < |f.log[b]| ensures f.log[b][i].time <= m.now {
      SinceWithin(m.log[b], Cut(m, current), i);
    }
    if a in m.log { SinceSince(m.log[a], Cut(m, current), m.users[u]); }
  }

  lemma LogUnseen(m: Meter, actor: string, action: string, t: Time, u: string, a: string)
    requires Inv(m) && u in m.users && actor in m.log && t > m.now
    ensures var m1 := Logged(m, actor, action, t);
            && Inv(m1) && Unseen(m1, u, a) == Unseen(m, u, a) + if a == actor then [Entry(t, action)] else []
  {
    if a == actor {
      SinceConcat(m.log[a], [Entry(t, action)], m.users[u]);
      SinceOne(Entry(t, action), m.users[u]);
    } else {
      assert Unseen(m, u, a) + [] == Unseen(m, u, a);
    }
  }

  /** Told and yet to be told after the event is yet to be told before it and what the event adds. */
  ghost predicate Conserved(m: Meter, e: Event, u: string, a: string) {
    var m1 := Next(m, e);
    && Inv(m1) && u in m.users && u in m1.users
    && Told(m, e, u, a) + Unseen(m1, u, a) == Unseen(m, u, a) + FiringOf(e, a)
  }

  lemma FiredConserves(m: Meter, e: Event, u: string, a: string)
    requires Inv(m) && Attentive(m, e, u) && e.Fired? && HasLog(m, e)
    ensures Conserved(m, e, u, a)
  {
    hide Forgotten, Unseen, Logged;
    LogUnseen(m, e.actor, e.action, e.time, u, a);
    LoggedUsers(m, e.actor, e.action, e.time);
    ForgetSpares(Logged(m, e.actor, e.action, e.time), e.time, u, a);
    var later := Step(m, e).value;
    assert [] + Unseen(later, u, a) == Unseen(later, u, a);
  }

  lemma LoggedUsers(m: Meter, actor: string, action: string, t: Time)
    requires actor in m.log
    ensures Logged(m, actor, action, t).users == m.users && Logged(m, actor, action, t).timeout == m.timeout
  {
  }

  lemma UnregisterConserves(m: Meter, e: Event, u: string, a: string)
    requires Inv(m) && Attentive(m, e, u) && e.Unregister?
    ensures Conserved(m, e, u, a)
  {
    hide Forgotten, Since;
    ForgetSpares(m.(users := m.users - {e.user}, now := e.time), e.time, u, a);
    assert Unseen(m, u, a) + [] == Unseen(m, u, a);
  }

  lemma PollConserves(m: Meter, e: Event, u: string, a: string)
    requires Inv(m) && Attentive(m, e, u) && e.Poll?
    ensures Conserved(m, e, u, a)
  {
    hide Forgotten, Since;
    var m1 := m.(users := m.users[e.user := e.time], now := e.time);
    ForgetSpares(m1, e.time, u, a);
    assert Unseen(m, u, a) + [] == Unseen(m, u, a);
    if e.user == u && a in m.log { SinceNothing(m.log[a], e.time); }
  }

  lemma OtherConserves(m: Meter, e: Event, u: string, a: string)
    requires Inv(m) && Attentive(m, e, u) && (e.Known? || e.Register?)
    ensures Conserved(m, e, u, a)
  {
    assert Unseen(m, u, a) + [] == Unseen(m, u, a);
  }

  /** Firings told and firings yet to be told add up, at every event of any user, calls that raise included. */
  lemma StepConserves(m: Meter, e: Event, u: string, a: string)
    requires Inv(m) && Attentive(m, e, u) && HasLog(m, e)
    ensures Conserved(m, e, u, a)
  {
    hide Inv, Attentive, Conserved;
    match e
    case Fired(_, _, _) => FiredConserves(m, e, u, a);
    case Unregister(_, _) => UnregisterConserves(m, e, u, a);
    case Poll(_, _) => PollConserves(m, e, u, a);
    case _ => OtherConserves(m, e, u, a);
  }

  // ------------------------------------------------------------ whole runs

  ghost function Run(m: Meter, es: seq<Event>): Meter
    decreases |es|
  {
    if es == [] then m else Run(Next(m, es[0]), es[1..])
  }

  ghost predicate Attended(m: Meter, es: seq<Event>, u: string)
    decreases |es|
  {
    es == [] || (Attentive(m, es[0], u) && Attended(Next(m, es[0]), es[1..], u))
  }

  /** What u's polls deliver about actor a, put together. */
  ghost function Delivered(m: Meter, es: seq<Event>, u: string, a: string): seq<Entry>
    decreases |es|
  {
    if es == [] then [] else Told(m, es[0], u, a) + Delivered(Next(m, es[0]), es[1..], u, a)
  }

  function Firings(es: seq<Event>, a: string): seq<Entry>
    decreases |es|
  {
    if es == [] then [] else FiringOf(es[0], a) + Firings(es[1..], a)
  }

  /** add_actor_info: the actor has a log afterwards, an empty one unless it had one before; nothing else
      changes. */
  lemma KnownHasLog(m: Meter, a: string)
    ensures var r := Step(m, Known(a));
            && r.Ok? && r.value.log.Keys == m.log.Keys + {a}
            && r.value.log[a] == (if a in m.log then m.log[a] else [])
            && (forall b :: b in m.log ==> r.value.log[b] == m.log[b])
            && r.value == m.(log := r.value.log)
  {
  }

  /** Every actor that fires is one of those known, or was made known before in the list. */
  predicate Introduced(es: seq<Event>, known: set<string>) {
    forall i :: 0 <= i < |es| && es[i].Fired? ==>
      es[i].actor in known || exists j :: 0 <= j < i && es[j] == Known(es[i].actor)
  }

  function MadeKnown(e: Event): set<string> { if e.Known? then {e.actor} else {} }

  lemma IntroducedNext(es: seq<Event>, known: set<string>)
    requires es != [] && Introduced(es, known)
    ensures es[0].Fired? ==> es[0].actor in known
    ensures Introduced(es[1..], known + MadeKnown(es[0]))
  {
    var rest := es[1..];
    forall i | 0 <= i < |rest| && rest[i].Fired?
      ensures rest[i].actor in known + MadeKnown(es[0]) || exists j :: 0 <= j < i && rest[j] == Known(rest[i].actor)
    {
      assert rest[i] == es[i + 1];
      if rest[i].actor !in known {
        var j :| 0 <= j < i + 1 && es[j] == Known(es[i + 1].actor);
        if j > 0 { assert rest[j - 1] == es[j]; }
      }
    }
  }

  /** While someone is registered no log goes away. */
  lemma LogsStay(m: Meter, e: Event, u: string)
    requires Attentive(m, e, u)
    ensures m.log.Keys + MadeKnown(e) <= Next(m, e).log.Keys
  {
    hide Since;
    if e.Unregister? {
      assert u in m.users - {e.user};
    } else if e.Poll? {
      assert u in m.users[e.user := e.time];
    }
  }

  /** The user is one where it has to be, and is not where it must not be. */
  predicate Proper(m: Meter, e: Event) {
    && (e.Register? ==> e.user !in m.users)
    && (e.Unregister? || e.Poll? ==> e.user in m.users)
  }

  /** So no firing raises, and of the calls those that name the wrong user. */
  lemma {:induction false} OnlyWrongRaises(m: Meter, es: seq<Event>, u: string, i: nat)
    requires Inv(m) && Attended(m, es, u) && Introduced(es, m.log.Keys) && i < |es|
    ensures Step(Run(m, es[..i]), es[i]).Raised? <==> !Proper(Run(m, es[..i]), es[i])
    decreases |es|
  {
    hide Inv, Attentive;
    IntroducedNext(es, m.log.Keys);
    StepConserves(m, es[0], u, "");
    if i == 0 {
      assert es[..0] == [];
      RaisesAt(m, es[0], u);
    } else {
      LogsStay(m, es[0], u);
      MoreKnown(es[1..], m.log.Keys + MadeKnown(es[0]), Next(m, es[0]).log.Keys);
      OnlyWrongRaises(Next(m, es[0]), es[1..], u, i - 1);
      assert es[..i][0] == es[0] && es[..i][1..] == es[1..][..i - 1];
    }
  }

  lemma RaisesAt(m: Meter, e: Event, u: string)
    requires Attentive(m, e, u) && HasLog(m, e)
    ensures Step(m, e).Raised? <==> !Proper(m, e)
  {
  }

  lemma MoreKnown(es: seq<Event>, known: set<string>, more: set<string>)
    requires Introduced(es, known) && known <= more
    ensures Introduced(es, more)
  {
  }

  lemma {:induction false} RunConserves(m: Meter, es: seq<Event>, u: string, a: string)
    requires Inv(m) && u in m.users && Attended(m, es, u) && Introduced(es, m.log.Keys)
    ensures Inv(Run(m, es)) && u in Run(m, es).users
    ensures Delivered(m, es, u, a) + Unseen(Run(m, es), u, a) == Unseen(m, u, a) + Firings(es, a)
    decreases |es|
  {
    hide Inv, Unseen, Told, FiringOf, Attentive, Step, Introduced;
    if es != [] {
      IntroducedNext(es, m.log.Keys);
      StepConserves(m, es[0], u, a);
      LogsStay(m, es[0], u);
      var m1 := Next(m, es[0]);
      MoreKnown(es[1..], m.log.Keys + MadeKnown(es[0]), m1.log.Keys);
      RunConserves(m1, es[1..], u, a);
      var d, rest := Told(m, es[0], u, a), Delivered(m1, es[1..], u, a);
      assert d + rest + Unseen(Run(m, es), u, a) == d + (rest + Unseen(Run(m, es), u, a));
      assert d + (Unseen(m1, u, a) + Firings(es[1..], a)) == (d + Unseen(m1, u, a)) + Firings(es[1..], a);
      assert (Unseen(m, u, a) + FiringOf(es[0], a)) + Firings(es[1..], a)
          == Unseen(m, u, a) + (FiringOf(es[0], a) + Firings(es[1..], a));
    }
  }

  /** A user who has just registered, or just polled, has nothing left to be told. */
  lemma NothingUnseen(m: Meter, u: string, a: string)
    requires Inv(m) && u in m.users && m.users[u] == m.now
    ensures Unseen(m, u, a) == []
  {
    if a in m.log { SinceNothing(m.log[a], m.now); }
  }

  /** Registering, then staying in touch and polling last: the responses are the firings, each exactly
      once and in order, whatever other users did meanwhile, if every actor that fires has been made known. */
  lemma EachFiringOnce(m: Meter, es: seq<Event>, u: string, a: string)
    requires Inv(m) && u in m.users && m.users[u] == m.now && Attended(m, es, u) && Introduced(es, m.log.Keys)
    requires u in Run(m, es).users && Run(m, es).users[u] == Run(m, es).now
    ensures Delivered(m, es, u, a) == Firings(es, a)
  {
    hide Inv, Unseen, Attended, Run, Delivered, Firings, Introduced;
    RunConserves(m, es, u, a);
    NothingUnseen(m, u, a);
    NothingUnseen(Run(m, es), u, a);
    assert Delivered(m, es, u, a) + [] == Delivered(m, es, u, a) && [] + Firings(es, a) == Firings(es, a);
  }

  // ------------------------------------------------------------ how much is kept

  /** Nothing in the log is as old as `oldest`. */
  predicate Bounded(m: Meter) {
    m.oldest <= m.now && forall a, i :: a in m.log && 0 <= i < |m.log[a]| ==> m.log[a][i].time > m.oldest
  }

  lemma {:induction false} SinceLater(es: seq<Entry>, t: Time)
    ensures forall i :: 0 <= i < |Since(es, t)| ==> Since(es, t)[i].time > t
    decreases |es|
  {
    if es != [] { SinceLater(es[..|es| - 1], t); }
  }

  /** A forget leaves nothing out of the timeout, and nothing that every user has been told. */
  lemma ForgetBounds(m: Meter, current: Time)
    requires current >= m.now && m.timeout > 0.0 && (forall u :: u in m.users ==> m.users[u] <= m.now)
    ensures var f := Forgotten(m, current);
            && Bounded(f.(now := current)) && f.lastForget == current && f.oldest >= current - m.timeout
            && forall a, i :: a in f.log && 0 <= i < |f.log[a]| ==>
                 && f.log[a][i].time > current - m.timeout
                 && exists u :: u in m.users && f.log[a][i].time > m.users[u]
  {
    var f := Forgotten(m, current);
    forall a | a in f.log
      ensures forall i :: 0 <= i < |f.log[a]| ==> f.log[a][i].time > f.oldest
    {
      SinceLater(m.log[a], Cut(m, current));
    }
    if m.users != map[] {
      var u :| u in m.users && m.users[u] == MinUser(m.users);
    }
  }

  /** At a firing, what is out of the timeout has gone, or something was forgotten within the last second; and
      a firing forgets at most once a second. */
  lemma FiringForgets(m: Meter, a: string, action: string, t: Time)
    requires Inv(m) && Bounded(m) && m.users != map[] && a in m.log && t > m.now
    ensures var r := Step(m, Fired(a, action, t));
            && r.Ok? && Bounded(r.value)
            && (r.value.oldest >= t - m.timeout || r.value.lastForget >= t - 1.0)
            && (r.value.lastForget == m.lastForget || (r.value.lastForget == t && m.lastForget < t - 1.0))
  {
    hide Forgotten;
    var m1 := Logged(m, a, action, t);
    forall b, i | b in m1.log && 0 <= i < |m1.log[b]| ensures m1.log[b][i].time > m1.oldest {
      assert m1.log[b][i] == if b == a && i == |m.log[a]| then Entry(t, action) else m.log[b][i];
    }
    ForgetBounds(m1, t);
    assert Forgotten(m1, t).now == t by { SameNow(m1, t); }
  }

  lemma SameNow(m: Meter, current: Time)
    ensures Forgotten(m, current).now == m.now
  {
  }

  // ------------------------------------------------------------ which actors have a log

  /** The last user leaves. */
  predicate Empties(m: Meter, e: Event) { e.Unregister? && m.users.Keys == {e.user} }

  /** From event i on there is always someone left when a user leaves. */
  ghost predicate SomeoneSince(m: Meter, es: seq<Event>, i: nat) {
    forall j :: i <= j < |es| ==> !Empties(Run(m, es[..j]), es[j])
  }

  ghost predicate KnownSince(m: Meter, es: seq<Event>, a: string) {
    || (a in m.log && SomeoneSince(m, es, 0))
    || exists i :: 0 <= i < |es| && es[i] == Known(a) && SomeoneSince(m, es, i + 1)
  }

  lemma {:induction false} RunLast(m: Meter, es: seq<Event>)
    requires es != []
    ensures Run(m, es) == Next(Run(m, es[..|es| - 1]), es[|es| - 1])
    decreases |es|
  {
    hide Next;
    if |es| == 1 {
      assert es[..0] == [] && es[1..] == [];
    } else {
      RunLast(Next(m, es[0]), es[1..]);
      assert es[1..][..|es| - 2] == es[..|es| - 1][1..];
    }
  }

  lemma LogAfter(m: Meter, e: Event, a: string)
    ensures a in Next(m, e).log <==> e == Known(a) || (a in m.log && !Empties(m, e))
  {
    hide Since;
    if e.Unregister? && e.user in m.users {
      assert (m.users - {e.user}).Keys == m.users.Keys - {e.user};
      assert m.users - {e.user} == map[] <==> (m.users - {e.user}).Keys == {};
    } else if e.Poll? {
      assert e.user in m.users[e.user := e.time];
    }
  }

  lemma SinceNext(m: Meter, es: seq<Event>, i: nat)
    requires i < |es|
    ensures var n := |es| - 1;
            SomeoneSince(m, es, i) <==> SomeoneSince(m, es[..n], i) && !Empties(Run(m, es[..n]), es[n])
    ensures SomeoneSince(m, es, |es|)
  {
    var n := |es| - 1;
    var init := es[..n];
    forall j | 0 <= j < n ensures init[j] == es[j] && init[..j] == es[..j] {}
    if SomeoneSince(m, es, i) {
      forall j | i <= j < n ensures !Empties(Run(m, init[..j]), init[j]) {
        assert init[..j] == es[..j] && init[j] == es[j];
      }
    }
    if SomeoneSince(m, init, i) && !Empties(Run(m, init), es[n]) {
      forall j | i <= j < |es| ensures !Empties(Run(m, es[..j]), es[j]) {
        if j < n { assert init[..j] == es[..j] && init[j] == es[j]; } else { assert es[..j] == init; }
      }
    }
  }

  lemma KnownSinceNext(m: Meter, es: seq<Event>, a: string)
    requires es != []
    ensures var n := |es| - 1;
            KnownSince(m, es, a) <==>
              es[n] == Known(a) || (KnownSince(m, es[..n], a) && !Empties(Run(m, es[..n]), es[n]))
  {
    hide SomeoneSince, Empties;
    var n := |es| - 1;
    var init := es[..n];
    SinceNext(m, es, 0);
    forall i: nat | i < |es| ensures i < n ==> init[i] == es[i]
      ensures SomeoneSince(m, es, i) <==> SomeoneSince(m, init, i) && !Empties(Run(m, init), es[n])
    {
      SinceNext(m, es, i);
    }
    SinceNext(m, es, n);
    if KnownSince(m, init, a) && !Empties(Run(m, init), es[n]) && !(a in m.log && SomeoneSince(m, init, 0)) {
      var i :| 0 <= i < n && init[i] == Known(a) && SomeoneSince(m, init, i + 1);
      assert es[i] == Known(a) && SomeoneSince(m, es, i + 1);
    }
    if KnownSince(m, es, a) && es[n] != Known(a) && !(a in m.log && SomeoneSince(m, es, 0)) {
      var i :| 0 <= i < |es| && es[i] == Known(a) && SomeoneSince(m, es, i + 1);
      assert init[i] == Known(a) && SomeoneSince(m, init, i + 1);
    }
  }

  /** After any events, in any order and some of them raising, an actor has a log if and only if it was made
      known and someone has been left ever since whenever a user left. */
  lemma {:induction false} LoggedIff(m: Meter, es: seq<Event>, a: string)
    ensures a in Run(m, es).log <==> KnownSince(m, es, a)
    decreases |es|
  {
    hide KnownSince, Empties, Next;
    if es == [] {
      NothingSince(m, a);
    } else {
      LoggedIff(m, es[..|es| - 1], a);
      RunLast(m, es);
      LogAfter(Run(m, es[..|es| - 1]), es[|es| - 1], a);
      KnownSinceNext(m, es, a);
    }
  }

  lemma NothingSince(m: Meter, a: string)
    ensures KnownSince(m, [], a) <==> a in m.log
  {
  }

  /** So recording a firing raises exactly when someone meters and the actor was not made known since there
      last was nobody. */
  lemma FiringRaisesIff(m: Meter, es: seq<Event>, a: string, action: string, t: Time)
    ensures Step(Run(m, es), Fired(a, action, t)).Raised? <==>
              Run(m, es).users != map[] && Run(m, es).timeout > 0.0 && !KnownSince(m, es, a)
  {
    hide KnownSince, Run;
    LoggedIff(m, es, a);
    FiredRaisesIff(Run(m, es), a, action, t);
  }

  /** From any start: a user registers, stays in touch and polls last. If every actor that fires was made known
      before, with someone left ever since whenever a user left, no firing raises meanwhile and the user gets each
      exactly once. */
  lemma RegisteredGetsAll(m: Meter, before: seq<Event>, u: string, t: Time, es: seq<Event>, a: string)
    requires var m1 := Run(m, before);
             && Inv(m1) && u !in m1.users && t > m1.now
             && Attended(Next(m1, Register(u, t)), es, u)
             && u in Run(Next(m1, Register(u, t)), es).users
             && Run(Next(m1, Register(u, t)), es).users[u] == Run(Next(m1, Register(u, t)), es).now
    requires forall i :: 0 <= i < |es| && es[i].Fired? ==>
               KnownSince(m, before, es[i].actor) || exists j :: 0 <= j < i && es[j] == Known(es[i].actor)
    ensures var m2 := Next(Run(m, before), Register(u, t));
            && Delivered(m2, es, u, a) == Firings(es, a)
            && forall i :: 0 <= i < |es| ==>
                 (Step(Run(m2, es[..i]), es[i]).Raised? <==> !Proper(Run(m2, es[..i]), es[i]))
  {
    hide KnownSince, Run, Attended, Delivered, Firings;
    var m1 := Run(m, before);
    var m2 := Next(m1, Register(u, t));
    assert Inv(m2) && u in m2.users && m2.users[u] == m2.now && m2.log == m1.log;
    forall i | 0 <= i < |es| && es[i].Fired?
      ensures es[i].actor in m2.log.Keys || exists j :: 0 <= j < i && es[j] == Known(es[i].actor)
    {
      LoggedIff(m, before, es[i].actor);
    }
    EachFiringOnce(m2, es, u, a);
    forall i | 0 <= i < |es|
      ensures Step(Run(m2, es[..i]), es[i]).Raised? <==> !Proper(Run(m2, es[..i]), es[i])
    {
      OnlyWrongRaises(m2, es, u, i);
    }
  }

  // ------------------------------------------------------------ who is a user

  predicate NotLeft(es: seq<Event>, i: nat, u: string) {
    forall j :: i <= j < |es| ==> !(es[j].Unregister? && es[j].user == u)
  }

  predicate Registers(e: Event, u: string) { e.Register? && e.user == u }

  /** Registered, and not unregistered since. */
  predicate UserSince(m: Meter, es: seq<Event>, u: string) {
    || (u in m.users && NotLeft(es, 0, u))
    || exists i :: 0 <= i < |es| && Registers(es[i], u) && NotLeft(es, i + 1, u)
  }

  lemma UserAfter(m: Meter, e: Event, u: string)
    ensures u in Next(m, e).users <==>
              Registers(e, u) || (u in m.users && !(e.Unregister? && e.user == u))
    ensures Step(m, e).Ok? ==> Next(m, e).now == TimeOf(m, e)
  {
    hide Since;
    if e.Unregister? && e.user in m.users {
      assert (m.users - {e.user}).Keys == m.users.Keys - {e.user};
    }
  }

  lemma NotLeftNext(es: seq<Event>, i: nat, u: string)
    requires i < |es|
    ensures var n := |es| - 1;
            NotLeft(es, i, u) <==> NotLeft(es[..n], i, u) && !(es[n].Unregister? && es[n].user == u)
  {
    var n := |es| - 1;
    var init := es[..n];
    if NotLeft(es, i, u) {
      forall j | i <= j < n ensures !(init[j].Unregister? && init[j].user == u) { assert init[j] == es[j]; }
    }
    if NotLeft(init, i, u) && !(es[n].Unregister? && es[n].user == u) {
      forall j | i <= j < |es| ensures !(es[j].Unregister? && es[j].user == u) {
        if j < n { assert init[j] == es[j]; }
      }
    }
  }

  lemma UserSinceNext(m: Meter, es: seq<Event>, u: string)
    requires es != []
    ensures var n := |es| - 1;
            UserSince(m, es, u) <==>
              Registers(es[n], u) || (UserSince(m, es[..n], u) && !(es[n].Unregister? && es[n].user == u))
  {
    var n := |es| - 1;
    var init := es[..n];
    forall i: nat | i <= n
      ensures NotLeft(es, i, u) <==> NotLeft(init, i, u) && !(es[n].Unregister? && es[n].user == u)
    {
      NotLeftNext(es, i, u);
    }
    assert NotLeft(es, |es|, u);
    if UserSince(m, init, u) && !(es[n].Unregister? && es[n].user == u) && !(u in m.users && NotLeft(init, 0, u)) {
      var i :| 0 <= i < n && Registers(init[i], u) && NotLeft(init, i + 1, u);
      assert Registers(es[i], u) && NotLeft(es, i + 1, u);
    }
    if UserSince(m, es, u) && !Registers(es[n], u) && !(u in m.users && NotLeft(es, 0, u)) {
      var i :| 0 <= i < |es| && Registers(es[i], u) && NotLeft(es, i + 1, u);
      assert Registers(init[i], u) && NotLeft(init, i + 1, u);
    }
  }

  /** After any events, some of them raising, the users are those who registered and did not unregister since. */
  lemma {:induction false} UserIff(m: Meter, es: seq<Event>, u: string)
    ensures u in Run(m, es).users <==> UserSince(m, es, u)
    decreases |es|
  {
    hide UserSince, Next;
    if es == [] {
      NoEvents(m, u);
    } else {
      UserIff(m, es[..|es| - 1], u);
      RunLast(m, es);
      UserAfter(Run(m, es[..|es| - 1]), es[|es| - 1], u);
      UserSinceNext(m, es, u);
    }
  }

  lemma NoEvents(m: Meter, u: string)
    ensures UserSince(m, [], u) <==> u in m.users
  {
  }

  /** So registering raises exactly for a user, unregistering and polling exactly for anyone else; what raises
      changes nothing. */
  lemma CallRaisesIff(m: Meter, es: seq<Event>, u: string, t: Time)
    ensures Step(Run(m, es), Register(u, t)).Raised? <==> UserSince(m, es, u)
    ensures Step(Run(m, es), Unregister(u, t)).Raised? <==> !UserSince(m, es, u)
    ensures Step(Run(m, es), Poll(u, t)).Raised? <==> !UserSince(m, es, u)
  {
    hide UserSince, Run;
    UserIff(m, es, u);
  }

  // ------------------------------------------------------------ what goes wrong

  /** Recording a firing raises exactly when someone meters and the actor has no log. */
  lemma FiredRaisesIff(m: Meter, a: string, action: string, t: Time)
    ensures Step(m, Fired(a, action, t)).Raised? <==> m.users != map[] && m.timeout > 0.0 && a !in m.log
  {
  }

  /** After the last user leaves, no actor has a log, so with the next user every firing raises until the
      actor is made known again. */
  lemma LastLeavingBreaks(m: Meter, u: string, v: string, a: string, action: string, t: Time)
    requires m.users.Keys == {u} && m.timeout > 0.0
    ensures var m1 := Step(m, Unregister(u, t));
            && m1.Ok?
            && var m2 := Step(m1.value, Register(v, t + 1.0));
               m2.Ok? && Step(m2.value, Fired(a, action, t + 2.0)).Raised?
  {
    assert u in m.users.Keys;
    assert m.users - {u} == map[];
    var m1 := Step(m, Unregister(u, t)).value;
    assert m1.users == map[] && m1.log == map[];
    var m2 := Step(m1, Register(v, t + 1.0)).value;
    assert v in m2.users;
    FiredRaisesIff(m2, a, action, t + 2.0);
  }

  /** Everything later than t is also later than the cut. */
  predicate NoneBetween(es: seq<Entry>, cut: Time, t: Time) {
    forall i :: 0 <= i < |es| && es[i].time > t ==> es[i].time > cut
  }

  lemma NoneBetweenLast(es: seq<Entry>, cut: Time, t: Time)
    requires es != []
    ensures var e := es[|es| - 1];
            NoneBetween(es, cut, t) <==> NoneBetween(es[..|es| - 1], cut, t) && (e.time > t ==> e.time > cut)
  {
    var init := es[..|es| - 1];
    assert forall i :: 0 <= i < |init| ==> init[i] == es[i];
  }

  lemma SinceLast(es: seq<Entry>, t: Time)
    requires es != []
    ensures Since(es, t) == Since(es[..|es| - 1], t) + if es[|es| - 1].time > t then [es[|es| - 1]] else []
  {
  }

  lemma {:induction false} SinceLosesIff(es: seq<Entry>, cut: Time, t: Time)
    ensures Since(Since(es, cut), t) == Since(es, t) <==> NoneBetween(es, cut, t)
    ensures |Since(Since(es, cut), t)| <= |Since(es, t)|
    decreases |es|
  {
    if es != [] {
      hide Since, NoneBetween;
      var init, e := es[..|es| - 1], es[|es| - 1];
      SinceLosesIff(init, cut, t);
      NoneBetweenLast(es, cut, t);
      SinceLast(es, t);
      SinceLast(es, cut);
      SinceConcat(Since(init, cut), if e.time > cut then [e] else [], t);
      SinceOne(e, t);
      var kept, whole := Since(Since(init, cut), t), Since(init, t);
      assert kept + [] == kept && whole + [] == whole;
      if e.time > t && e.time > cut {
        assert (kept + [e])[..|kept|] == kept && (whole + [e])[..|whole|] == whole;
      }
    }
  }

  /** A forget takes from what a user has not seen exactly when some of it is as old as the cut. */
  lemma ForgetLosesIff(m: Meter, current: Time, u: string, a: string)
    requires u in m.users && a in m.log
    ensures Unseen(Forgotten(m, current), u, a) == Unseen(m, u, a) <==>
              NoneBetween(m.log[a], Cut(m, current), m.users[u])
  {
    SinceLosesIff(m.log[a], Cut(m, current), m.users[u]);
  }

  /** A user out of touch for longer than the timeout loses what another user's poll forgets. */
  lemma LateUserLoses(a: string, u: string, v: string)
    requires u != v
    ensures var m := Meter(map[a := [Entry(1.0, "x")]], map[u := 0.0, v := 0.0], 0.0, 0.0, 5.0, 1.0);
            var m1 := Step(m, Poll(v, 7.0));
            Inv(m) && Unseen(m, u, a) == [Entry(1.0, "x")] && m1.Ok? && Unseen(m1.value, u, a) == []
  {
    var m := Meter(map[a := [Entry(1.0, "x")]], map[u := 0.0, v := 0.0], 0.0, 0.0, 5.0, 1.0);
    SinceOne(Entry(1.0, "x"), 0.0);
    var p := m.(users := m.users[v := 7.0], now := 7.0);
    assert p.users[u] == 0.0;
    assert Cut(p, 7.0) == 2.0;
    SinceOne(Entry(1.0, "x"), 2.0);
    SinceOne(Entry(1.0, "x"), 0.0);
  }
}
