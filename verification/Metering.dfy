/** The metering object, updated in place on each call (metering.py:41-124). */
module Metering {
  import opened Wrappers
  import opened MeterLog

  class Metering {
    var log: Log
    var users: map<string, Time>
    var active: bool
    var oldest: Time
    var lastForget: Time
    const timeout: Time
    /** The last reading of the clock. */
    ghost var now: Time

    ghost predicate Valid()
      reads this
    {
      active <==> users != map[]
    }

    ghost function View(): Meter
      reads this
    {
      Meter(log, users, oldest, lastForget, timeout, now)
    }

    constructor (limit: Time, time: Time)
      ensures Valid() && View() == Meter(map[], map[], time, time, limit, time)
      ensures limit > 0.0 ==> Inv(View())
    {
      log, users, active, oldest, lastForget := map[], map[], false, time, time;
      timeout, now := limit, time;
    }

    method AddActorInfo(actor: string)
      requires Valid()
      modifies this
      ensures Valid() && Step(old(View()), Known(actor)) == Ok(View())
    {
      if actor !in log { log := log[actor := []]; }
    }

    /** Of each actor, only the entries later than t. */
    method KeepSince(t: Time)
      modifies `log
      ensures log == AllSince(old(log), t)
    {
      log := map a | a in log :: Since(log[a], t);
    }

    method Forget(current: Time)
      requires Valid()
      modifies this
      ensures Valid() && View() == Forgotten(old(View()), current)
    {
      lastForget := current;
      if !active {
        log := map[];
        oldest := current;
        return;
      }
      var t := LeastAccess();
      LeastUnique(users, t, MinUser(users));
      if t < current - timeout { t := current - timeout; }
      oldest := t;
      KeepSince(t);
    }

    method LeastAccess() returns (t: Time)
      requires users != map[]
      ensures Least(users, t)
    {
      var first :| first in users;
      t := users[first];
      var todo := users.Keys - {first};
      while todo != {}
        invariant todo <= users.Keys
        invariant exists u :: u in users && users[u] == t
        invariant forall u :: u in users && u !in todo ==> t <= users[u]
      {
        var u :| u in todo;
        if users[u] < t { t := users[u]; }
        todo := todo - {u};
      }
    }

    method Fired(actor: string, action: string, time: Time) returns (r: Result<()>)
      requires Valid()
      modifies this
      ensures Valid() && (r.Ok? <==> Step(old(View()), Event.Fired(actor, action, time)).Ok?)
      ensures r.Ok? ==> View() == Step(old(View()), Event.Fired(actor, action, time)).value
    {
      now := time;
      if active && timeout > 0.0 {
        if actor !in log { return Raised("KeyError"); }
        log := log[actor := log[actor] + [Entry(time, action)]];
        if oldest < time - timeout && lastForget < time - 1.0 { Forget(time); }
      }
      r := Ok(());
    }

    method Register(user: string, time: Time) returns (r: Result<()>)
      requires Valid()
      modifies this
      ensures Valid() && (r.Ok? <==> user !in old(users))
      ensures r.Ok? ==> Step(old(View()), Event.Register(user, time)) == Ok(View())
    {
      if user in users { return Raised("User id already in use"); }
      users := users[user := time];
      now := time;
      active := true;
      assert user in users;
      r := Ok(());
    }

    method Unregister(user: string, time: Time) returns (r: Result<()>)
      requires Valid()
      modifies this
      ensures Valid() && (r.Ok? <==> user in old(users))
      ensures r.Ok? ==> Step(old(View()), Event.Unregister(user, time)) == Ok(View())
    {
      if user !in users { return Raised("User id not found"); }
      users := users - {user};
      now := time;
      active := users != map[];
      Forget(time);
      r := Ok(());
    }

    method GetTimedMeter(user: string, time: Time) returns (r: Result<Log>)
      requires Valid()
      modifies this
      ensures Valid() && (r.Ok? <==> user in old(users))
      ensures r.Ok? ==> Step(old(View()), Poll(user, time)) == Ok(View()) && r.value == Response(old(View()), user)
    {
      if user !in users { return Raised("User id not found"); }
      var response := map a | a in log :: Since(log[a], users[user]);
      users := users[user := time];
      now := time;
      assert user in users;
      Forget(time);
      r := Ok(response);
    }
  }
}
