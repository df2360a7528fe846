/** The cache for all keys, updated in place (storage.py:71-103, 252-283, 326-404). */
module SetCache {
  import opened Wrappers
  import opened StorageSets

  /** What is handed to the backend. */
  datatype Call = CallAppend(key: string, items: set<Item>) | CallRemove(key: string, items: set<Item>)

  class Storage {
    var sets: map<string, Sets>
    var started: bool

    constructor ()
      ensures sets == map[] && !started
    {
      sets := map[];
      started := false;
    }

    ghost function EntryOf(key: string): Entry
      reads this
    {
      if key in sets then Some(sets[key]) else None
    }

    /** Only this key's entry is replaced. */
    twostate predicate Replaced(key: string, e: Entry)
      reads this
    {
      && EntryOf(key) == e && started == old(started)
      && forall k :: k != key ==> EntryOf(k) == old(EntryOf(k))
    }

    method Append(key: string, v: set<Item>) returns (calls: seq<Call>)
      modifies this
      ensures Replaced(key, Added(old(EntryOf(key)), v))
      ensures calls == if started then [CallAppend(key, Plus(EntryOf(key)))] else []
    {
      if key in sets {
        sets := sets[key := Sets(sets[key].plus + v, sets[key].minus)];
        sets := sets[key := Sets(sets[key].plus, sets[key].minus - v)];
      } else {
        sets := sets[key := Sets(v, {})];
      }
      calls := if started then [CallAppend(key, sets[key].plus)] else [];
    }

    method Remove(key: string, v: set<Item>) returns (calls: seq<Call>)
      modifies this
      ensures Replaced(key, Removed(old(EntryOf(key)), v))
      ensures calls == if started then [CallRemove(key, Minus(EntryOf(key)))] else []
    {
      if key in sets {
        sets := sets[key := Sets(sets[key].plus - v, sets[key].minus)];
        sets := sets[key := Sets(sets[key].plus, sets[key].minus + v)];
      } else {
        sets := sets[key := Sets({}, v)];
      }
      calls := if started then [CallRemove(key, sets[key].minus)] else [];
    }

    method AppendCb(key: string, ok: bool)
      modifies this
      ensures Replaced(key, AddAcked(old(EntryOf(key)), ok))
    {
      if ok && key in sets {
        if sets[key].minus != {} {
          sets := sets[key := Sets({}, sets[key].minus)];
        } else {
          sets := sets - {key};
        }
      }
    }

    method RemoveCb(key: string, ok: bool)
      modifies this
      ensures Replaced(key, RemoveAcked(old(EntryOf(key)), ok))
    {
      if ok && key in sets {
        if sets[key].plus != {} {
          sets := sets[key := Sets(sets[key].plus, {})];
        } else {
          sets := sets - {key};
        }
      }
    }

    /** flush_localdata: everything that is pending for any key, once. */
    method Flush() returns (calls: seq<Call>)
      ensures forall k :: CallAppend(k, Plus(EntryOf(k))) in calls <==> Plus(EntryOf(k)) != {}
      ensures forall k :: CallRemove(k, Minus(EntryOf(k))) in calls <==> Minus(EntryOf(k)) != {}
      ensures forall c :: c in calls ==> c.items == if c.CallAppend? then Plus(EntryOf(c.key)) else Minus(EntryOf(c.key))
      ensures forall i, j :: 0 <= i < j < |calls| ==> calls[i] != calls[j]
    {
      calls := [];
      var todo := sets.Keys;
      while todo != {}
        invariant todo <= sets.Keys
        invariant forall c :: c in calls ==>
                    && c.key in sets && c.key !in todo && c.items != {}
                    && c.items == if c.CallAppend? then sets[c.key].plus else sets[c.key].minus
        invariant forall k :: k in sets && k !in todo && sets[k].plus != {} ==> CallAppend(k, sets[k].plus) in calls
        invariant forall k :: k in sets && k !in todo && sets[k].minus != {} ==> CallRemove(k, sets[k].minus) in calls
        invariant forall i, j :: 0 <= i < j < |calls| ==> calls[i] != calls[j]
      {
        var k :| k in todo;
        ghost var before := calls;
        if sets[k].plus != {} { calls := calls + [CallAppend(k, sets[k].plus)]; }
        if sets[k].minus != {} { calls := calls + [CallRemove(k, sets[k].minus)]; }
        assert forall c :: c in calls ==> c in before || c == CallAppend(k, sets[k].plus) || c == CallRemove(k, sets[k].minus);
        todo := todo - {k};
      }
    }

    /** get_concat, given what the backend answered. */
    method GetConcat(key: string, answer: Option<set<Item>>) returns (r: Option<set<Item>>)
      ensures r == Concat(EntryOf(key), answer)
    {
      var local := if key in sets then sets[key].plus else {};
      if answer.Some? && answer.value != {} {
        r := Some(answer.value + local);
      } else {
        r := if local != {} then Some(local) else None;
      }
    }
  }
}
