/** The write-behind cache for set values in the storage (storage.py:71-103, 252-283, 326-404), for one
    key: what is still to be added to and removed from the set at the backend. */
module StorageSets {
  import opened Wrappers

  type Item = string

  /** localstore_sets[key]. */
  datatype Sets = Sets(plus: set<Item>, minus: set<Item>)

  /** The entry of a key; a key has none when there is nothing to tell the backend. */
  type Entry = Option<Sets>

  function Plus(e: Entry): set<Item> { if e.Some? then e.value.plus else {} }

  function Minus(e: Entry): set<Item> { if e.Some? then e.value.minus else {} }

  function Added(e: Entry, v: set<Item>): Entry {
    Some(if e.Some? then Sets(e.value.plus + v, e.value.minus - v) else Sets(v, {}))
  }

  function Removed(e: Entry, v: set<Item>): Entry {
    Some(if e.Some? then Sets(e.value.plus - v, e.value.minus + v) else Sets({}, v))
  }

  /** append_cb */
  function AddAcked(e: Entry, ok: bool): Entry {
    if !ok || e.None? then e else if e.value.minus != {} then Some(Sets({}, e.value.minus)) else None
  }

  /** remove_cb */
  function RemoveAcked(e: Entry, ok: bool): Entry {
    if !ok || e.None? then e else if e.value.plus != {} then Some(Sets(e.value.plus, {})) else None
  }

  // ------------------------------------------------------------ a key, its backend, and what is under way

  /** An append or a remove sent to the backend; it may take effect and still be answered with a failure. */
  datatype Sent = Sent(items: set<Item>, applied: bool)

  datatype Key = Key(
    entry: Entry, started: bool, backend: set<Item>, intended: set<Item>,
    adding: Option<Sent>, removing: Option<Sent>)

  datatype Event =
    | Append(v: set<Item>) | Remove(v: set<Item>) | Start | Stop | Flush
    | ApplyAdd | ApplyRemove | AckAdd(ok: bool) | AckRemove(ok: bool)

  predicate Quiet(k: Key) { k.adding.None? && k.removing.None? }

  /** At most one append or remove round, or one flush, is outstanding for the key. */
  predicate OneRound(k: Key, e: Event) {
    e.Append? || e.Remove? || e.Flush? ==> Quiet(k)
  }

  predicate Enabled(k: Key, e: Event) {
    match e
    case ApplyAdd => k.adding.Some?
    case ApplyRemove => k.removing.Some?
    case AckAdd(ok) => k.adding.Some? && (ok ==> k.adding.value.applied)
    case AckRemove(ok) => k.removing.Some? && (ok ==> k.removing.value.applied)
    case _ => true
  }

  function Sending(items: set<Item>): Option<Sent> { Some(Sent(items, false)) }

  function Step(k: Key, e: Event): Key
    requires Enabled(k, e)
  {
    match e
    case Append(v) =>
      var entry := Added(k.entry, v);
      k.(entry := entry, intended := k.intended + v,
         adding := if k.started then Sending(Plus(entry)) else k.adding)
    case Remove(v) =>
      var entry := Removed(k.entry, v);
      k.(entry := entry, intended := k.intended - v,
         removing := if k.started then Sending(Minus(entry)) else k.removing)
    case Start => k.(started := true)
    case Stop => k.(started := false)
    case Flush =>
      k.(adding := if Plus(k.entry) != {} then Sending(Plus(k.entry)) else k.adding,
         removing := if Minus(k.entry) != {} then Sending(Minus(k.entry)) else k.removing)
    case ApplyAdd => k.(backend := k.backend + k.adding.value.items, adding := Some(k.adding.value.(applied := true)))
    case ApplyRemove => k.(backend := k.backend - k.removing.value.items, removing := Some(k.removing.value.(applied := true)))
    case AckAdd(ok) => k.(entry := AddAcked(k.entry, ok), adding := None)
    case AckRemove(ok) => k.(entry := RemoveAcked(k.entry, ok), removing := None)
  }

  /** Backend and cache together are the intended set. */
  predicate Inv(k: Key) {
    && Plus(k.entry) !! Minus(k.entry)
    && k.intended == (k.backend - Minus(k.entry)) + Plus(k.entry)
    && (k.adding.Some? ==> k.adding.value.items == Plus(k.entry) && (k.adding.value.applied ==> k.adding.value.items <= k.backend))
    && (k.removing.Some? ==> k.removing.value.items == Minus(k.entry) && (k.removing.value.applied ==> k.removing.value.items !! k.backend))
  }

  lemma StepKeeps(k: Key, e: Event)
    requires Inv(k) && Enabled(k, e) && OneRound(k, e)
    ensures Inv(Step(k, e))
  {
  }

  predicate Allowed(k: Key, es: seq<Event>)
    decreases |es|
  {
    es == [] || (Enabled(k, es[0]) && OneRound(k, es[0]) && Allowed(Step(k, es[0]), es[1..]))
  }

  function Run(k: Key, es: seq<Event>): Key
    requires Allowed(k, es)
    decreases |es|
  {
    if es == [] then k else Run(Step(k, es[0]), es[1..])
  }

  /** The set a user of the key has in mind after these events. */
  function Meant(s: set<Item>, es: seq<Event>): set<Item>
    decreases |es|
  {
    if es == [] then s
    else Meant(if es[0].Append? then s + es[0].v else if es[0].Remove? then s - es[0].v else s, es[1..])
  }

  /** Through failures, retries and offline periods, the backend with the pending changes made to it is
      the set that was asked for. */
  lemma {:induction false} CacheAgrees(k: Key, es: seq<Event>)
    requires Inv(k) && Allowed(k, es)
    ensures var t := Run(k, es);
            && Inv(t) && Plus(t.entry) !! Minus(t.entry)
            && (t.backend - Minus(t.entry)) + Plus(t.entry) == Meant(k.intended, es)
    decreases |es|
  {
    if es != [] {
      StepKeeps(k, es[0]);
      CacheAgrees(Step(k, es[0]), es[1..]);
    }
  }

  // ------------------------------------------------------------ reading

  /** get_concat: the backend's answer, none if the get failed or found nothing, joined with what is to
      be added. */
  function Concat(e: Entry, answer: Option<set<Item>>): Option<set<Item>> {
    var local := Plus(e);
    if answer.Some? && answer.value != {} then Some(answer.value + local)
    else if local != {} then Some(local) else None
  }

  /** Nothing found is reported exactly when neither side has anything. */
  lemma NothingFoundIff(e: Entry, answer: Option<set<Item>>)
    ensures Concat(e, answer).None? <==> ItemsOf(answer) == {} && Plus(e) == {}
  {
  }

  function ItemsOf(r: Option<set<Item>>): set<Item> { if r.Some? then r.value else {} }

  /** A get that reached the backend omits nothing that is meant to be in the set, and has too much only
      of what is still to be removed. */
  lemma ConcatIsIntended(k: Key)
    requires Inv(k)
    ensures ItemsOf(Concat(k.entry, Some(k.backend))) == k.intended + (k.backend * Minus(k.entry))
  {
  }

  /** A get that did not reach it has everything exactly when nothing was left to find there. */
  lemma FailedConcatIff(k: Key)
    requires Inv(k)
    ensures k.intended <= ItemsOf(Concat(k.entry, None)) <==> k.backend - Minus(k.entry) <= Plus(k.entry)
  {
  }

  /** One item stored, one still to be added: a get that fails shows only the second. */
  lemma FailedGetMisses(stored: Item, pending: Item)
    requires stored != pending
    ensures var k := Key(Some(Sets({pending}, {})), true, {stored}, {stored, pending}, None, None);
            Inv(k) && ItemsOf(Concat(k.entry, None)) == {pending} && stored in k.intended
  {
  }

  function Appended(es: seq<Event>): set<Item> {
    if es == [] then {} else (if es[0].Append? then es[0].v else {}) + Appended(es[1..])
  }

  function RemovedItems(es: seq<Event>): set<Item> {
    if es == [] then {} else (if es[0].Remove? then es[0].v else {}) + RemovedItems(es[1..])
  }

  lemma {:induction false} MeantWithin(s: set<Item>, es: seq<Event>)
    ensures s - RemovedItems(es) <= Meant(s, es) <= s + Appended(es)
    decreases |es|
  {
    if es != [] {
      MeantWithin(if es[0].Append? then s + es[0].v else if es[0].Remove? then s - es[0].v else s, es[1..]);
    }
  }

  lemma {:induction false} PendingWithin(k: Key, es: seq<Event>)
    requires Allowed(k, es)
    ensures Plus(Run(k, es).entry) <= Plus(k.entry) + Appended(es)
    ensures Run(k, es).intended == Meant(k.intended, es)
    decreases |es|
  {
    if es != [] {
      var k1 := Step(k, es[0]);
      PendingWithin(k1, es[1..]);
      assert Plus(k1.entry) <= Plus(k.entry) + if es[0].Append? then es[0].v else {};
    }
  }

  /** A get takes the cached additions when it is called; the backend answers after the events es1, the
      answer is handed on after es2 more. Compared with what is then intended, it may lack only what was
      appended meanwhile, and have too much only of what was removed meanwhile or was still to be removed. */
  lemma DelayedGetIsIntended(k: Key, es1: seq<Event>, es2: seq<Event>)
    requires Inv(k) && Allowed(k, es1) && Allowed(Run(k, es1), es2)
    ensures var answered := Run(k, es1);
            var now := Run(answered, es2).intended;
            var got := ItemsOf(Concat(k.entry, Some(answered.backend)));
            && now - got <= Appended(es1) + Appended(es2)
            && got - now <= RemovedItems(es1) + RemovedItems(es2) + (answered.backend * Minus(answered.entry))
  {
    hide Run, Allowed, Meant, Appended, RemovedItems, Step;
    var answered := Run(k, es1);
    CacheAgrees(k, es1);
    PendingWithin(k, es1);
    PendingWithin(answered, es2);
    MeantWithin(k.intended, es1);
    MeantWithin(answered.intended, es2);
  }

  /** A flush that is answered in full leaves nothing to tell, whichever answer comes first. */
  lemma FlushSettles(k: Key, addFirst: bool)
    requires Inv(k) && Quiet(k) && Plus(k.entry) != {} && Minus(k.entry) != {}
    ensures var acks := if addFirst then [AckAdd(true), AckRemove(true)] else [AckRemove(true), AckAdd(true)];
            var es := [Flush, ApplyAdd, ApplyRemove] + acks;
            Allowed(k, es) && Run(k, es).entry == None && Run(k, es).backend == k.intended
  {
    var acks := if addFirst then [AckAdd(true), AckRemove(true)] else [AckRemove(true), AckAdd(true)];
    var es := [Flush, ApplyAdd, ApplyRemove] + acks;
    var k1 := Step(k, Flush);
    var k2 := Step(k1, ApplyAdd);
    var k3 := Step(k2, ApplyRemove);
    StepKeeps(k, Flush);
    StepKeeps(k1, ApplyAdd);
    StepKeeps(k2, ApplyRemove);
    var k4 := Step(k3, acks[0]);
    var k5 := Step(k4, acks[1]);
    StepKeeps(k3, acks[0]);
    StepKeeps(k4, acks[1]);
    RunNothing(k5);
    RunFirst(k4, acks[1], []);
    RunFirst(k3, acks[0], [acks[1]] + []);
    RunFirst(k2, ApplyRemove, [acks[0]] + ([acks[1]] + []));
    RunFirst(k1, ApplyAdd, [ApplyRemove] + ([acks[0]] + ([acks[1]] + [])));
    RunFirst(k, Flush, [ApplyAdd] + ([ApplyRemove] + ([acks[0]] + ([acks[1]] + []))));
    assert es == [Flush] + ([ApplyAdd] + ([ApplyRemove] + ([acks[0]] + ([acks[1]] + []))));
  }

  lemma RunNothing(k: Key)
    ensures Allowed(k, []) && Run(k, []) == k
  {
  }

  lemma RunFirst(k: Key, e: Event, es: seq<Event>)
    requires Enabled(k, e) && OneRound(k, e) && Allowed(Step(k, e), es)
    ensures Allowed(k, [e] + es) && Run(k, [e] + es) == Run(Step(k, e), es)
  {
    assert ([e] + es)[1..] == es;
  }

  // ------------------------------------------------------------ what is sent, and when

  lemma {:induction false} Gathers(k: Key, es: seq<Event>)
    requires !k.started && Quiet(k) && forall i :: 0 <= i < |es| ==> es[i].Append? || es[i].Remove? || es[i].Stop?
    ensures Allowed(k, es) && Quiet(Run(k, es)) && !Run(k, es).started && Run(k, es).backend == k.backend
    decreases |es|
  {
    if es != [] { Gathers(Step(k, es[0]), es[1..]); }
  }

  /** After a stop nothing is sent until the next start or flush: appends and removes only gather in the cache. */
  lemma OfflineSendsNothing(k: Key, es: seq<Event>)
    requires Quiet(k) && forall i :: 0 <= i < |es| ==> es[i].Append? || es[i].Remove? || es[i].Stop?
    ensures var s := Step(k, Stop);
            Allowed(s, es) && Quiet(Run(s, es)) && Run(s, es).backend == k.backend
  {
    Gathers(Step(k, Stop), es);
  }

  /** A flush with nothing pending sends nothing. */
  lemma SettledFlush(k: Key)
    ensures Quiet(k) ==> (Step(k, Flush).adding.Some? <==> Plus(k.entry) != {})
    ensures Quiet(k) ==> (Step(k, Flush).removing.Some? <==> Minus(k.entry) != {})
  {
  }

  /** Whatever was sent takes effect and is answered. */
  function Answers(k: Key): seq<Event> {
    (if k.adding.Some? then [ApplyAdd, AckAdd(true)] else [])
    + (if k.removing.Some? then [ApplyRemove, AckRemove(true)] else [])
  }

  lemma RunBoth(k: Key, es: seq<Event>, fs: seq<Event>)
    requires Allowed(k, es) && Allowed(Run(k, es), fs)
    ensures Allowed(k, es + fs) && Run(k, es + fs) == Run(Run(k, es), fs)
    decreases |es|
  {
    hide Step, Enabled, OneRound;
    if es == [] {
      assert es + fs == fs;
    } else {
      RunBoth(Step(k, es[0]), es[1..], fs);
      assert (es + fs)[1..] == es[1..] + fs;
    }
  }

  lemma AddAnswered(k: Key)
    requires Inv(k) && k.adding.Some?
    ensures Allowed(k, [ApplyAdd, AckAdd(true)])
    ensures var t := Run(k, [ApplyAdd, AckAdd(true)]);
            && Inv(t) && t.adding.None? && t.removing == k.removing && t.intended == k.intended
            && Plus(t.entry) == {} && Minus(t.entry) == Minus(k.entry) && t.started == k.started
            && (Minus(k.entry) == {} ==> t.entry == None)
  {
    hide Inv;
    StepKeeps(k, ApplyAdd);
    var k1 := Step(k, ApplyAdd);
    StepKeeps(k1, AckAdd(true));
    RunNothing(Step(k1, AckAdd(true)));
    RunFirst(k1, AckAdd(true), []);
    RunFirst(k, ApplyAdd, [AckAdd(true)] + []);
    assert [ApplyAdd] + ([AckAdd(true)] + []) == [ApplyAdd, AckAdd(true)];
  }

  lemma RemoveAnswered(k: Key)
    requires Inv(k) && k.removing.Some?
    ensures Allowed(k, [ApplyRemove, AckRemove(true)])
    ensures var t := Run(k, [ApplyRemove, AckRemove(true)]);
            && Inv(t) && t.removing.None? && t.adding == k.adding && t.intended == k.intended
            && Minus(t.entry) == {} && Plus(t.entry) == Plus(k.entry) && t.started == k.started
            && (Plus(k.entry) == {} ==> t.entry == None)
  {
    hide Inv;
    StepKeeps(k, ApplyRemove);
    var k1 := Step(k, ApplyRemove);
    StepKeeps(k1, AckRemove(true));
    RunNothing(Step(k1, AckRemove(true)));
    RunFirst(k1, AckRemove(true), []);
    RunFirst(k, ApplyRemove, [AckRemove(true)] + []);
    assert [ApplyRemove] + ([AckRemove(true)] + []) == [ApplyRemove, AckRemove(true)];
  }

  lemma Answered(k: Key)
    requires Inv(k)
    ensures Allowed(k, Answers(k))
    ensures var t := Run(k, Answers(k));
            && Inv(t) && Quiet(t) && t.intended == k.intended && t.started == k.started
            && Plus(t.entry) == (if k.adding.Some? then {} else Plus(k.entry))
            && Minus(t.entry) == (if k.removing.Some? then {} else Minus(k.entry))
            && (!Quiet(k) && Plus(t.entry) == {} == Minus(t.entry) ==> t.entry == None)
  {
    hide Inv, Allowed, Run;
    RunNothing(k);
    var es := if k.adding.Some? then [ApplyAdd, AckAdd(true)] else [];
    if k.adding.Some? { AddAnswered(k); }
    var k1 := Run(k, es);
    RunNothing(k1);
    if k.removing.Some? { RemoveAnswered(k1); }
    RunBoth(k, es, if k.removing.Some? then [ApplyRemove, AckRemove(true)] else []);
  }

  /** From every state the backend can be brought to hold exactly the intended set: what is under way is answered,
      one flush sends the rest, and that is answered. */
  lemma CanSettle(k: Key)
    requires Inv(k)
    ensures Allowed(k, Answers(k)) && Allowed(Run(k, Answers(k)), [Flush])
    ensures var sent := Step(Run(k, Answers(k)), Flush);
            var es := Answers(k) + [Flush] + Answers(sent);
            && Allowed(k, es)
            && var t := Run(k, es);
               Inv(t) && Quiet(t) && Plus(t.entry) == {} == Minus(t.entry) && t.backend == k.intended == t.intended
  {
    hide Allowed, Run;
    Answered(k);
    var k1 := Run(k, Answers(k));
    StepKeeps(k1, Flush);
    var sent := Step(k1, Flush);
    RunNothing(sent);
    RunFirst(k1, Flush, []);
    assert [Flush] + [] == [Flush];
    Answered(sent);
    RunBoth(k, Answers(k), [Flush]);
    RunBoth(k, Answers(k) + [Flush], Answers(sent));
  }

  /** Once started and up to date, an append or a remove needs no flush: what it sends brings the backend up to
      date. */
  lemma OnlineSettles(k: Key, v: set<Item>)
    requires Inv(k) && Quiet(k) && k.entry == None
    ensures var s := Step(k, Start);
            var added, removed := Step(s, Append(v)), Step(s, Remove(v));
            && Inv(added) && Allowed(added, Answers(added)) && Run(added, Answers(added)).entry == None
            && Run(added, Answers(added)).backend == k.backend + v
            && Inv(removed) && Allowed(removed, Answers(removed)) && Run(removed, Answers(removed)).entry == None
            && Run(removed, Answers(removed)).backend == k.backend - v
  {
    hide Allowed, Run;
    var s := Step(k, Start);
    StepKeeps(k, Start);
    StepKeeps(s, Append(v));
    StepKeeps(s, Remove(v));
    var adding, removing := Step(s, Append(v)), Step(s, Remove(v));
    Answered(adding);
    Answered(removing);
    var added, removed := Run(adding, Answers(adding)), Run(removing, Answers(removing));
    assert added.backend == added.intended == k.backend + v;
    assert removed.backend == removed.intended == k.backend - v;
  }

  /** Cache and backend make up the intended set. */
  predicate Agrees(k: Key) {
    && Plus(k.entry) !! Minus(k.entry)
    && k.intended == (k.backend - Minus(k.entry)) + Plus(k.entry)
  }

  /** Taking an answer as the answer to all that is pending is right exactly when all of it has reached the
      backend; one outstanding round guarantees that. */
  lemma AckSafeIff(k: Key)
    requires Agrees(k) && k.entry.Some?
    ensures Agrees(k.(entry := AddAcked(k.entry, true))) <==> Plus(k.entry) <= k.backend
    ensures Agrees(k.(entry := RemoveAcked(k.entry, true))) <==> Minus(k.entry) !! k.backend
  {
    var plus, minus := Plus(k.entry), Minus(k.entry);
    var added, removed := k.(entry := AddAcked(k.entry, true)), k.(entry := RemoveAcked(k.entry, true));
    if Agrees(added) { assert plus <= (k.backend - minus) + {}; }
    if Agrees(removed) {
      forall e | e in minus ensures e !in k.backend { assert e !in (k.backend - minus) + plus; }
    }
  }

  /** With a second append sent before the first is answered, the first answer drops the entry; if the
      second append then fails, its item is in neither place. */
  lemma TwoRoundsLose(a: Item, b: Item)
    requires a != b
    ensures var k := Key(None, true, {}, {}, None, None);
            var k1 := Step(Step(k, Append({a})), ApplyAdd);
            var first := k1.adding;
            var k2 := Step(k1, Append({b}));
            var k3 := k2.(entry := AddAcked(k2.entry, true));
            var k4 := k3.(entry := AddAcked(k3.entry, false));
            && first == Some(Sent({a}, true)) && k2.adding == Some(Sent({a, b}, false)) && !OneRound(k1, Append({b}))
            && k4.entry == None && k4.backend == {a} && k4.intended == {a, b}
  {
    assert {} + {a} == {a} && {a} + {b} == {a, b};
  }
}
