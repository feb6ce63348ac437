/**
 The keyed event registry `Event[T]` of event/event.go: an object owning a map
 from event id to handler, an optional locker and an optional watcher.  Its
 methods change the map in place and make calls on the injected objects; every
 such call is recorded, in order, in the ghost `trace`.
 */
module Events {
  import opened Registry
  import opened Trace

  class Event<T> {
    var locker: Option<LockerRef>
    var watcher: Option<WatcherRef>
    var handlers: map<EventID, Handler>
    /** The calls this event has made on lockers, watchers and handlers, oldest first. */
    ghost var trace: seq<Call<T>>

    /** Between operations every lock this event took has been released. */
    ghost predicate Valid()
      reads this
    {
      Balanced(trace)
    }

    /** `NewEvent[T]()`: no handler, no locker, no watcher. */
    constructor ()
      ensures Valid()
      ensures forall id :: id !in handlers
      ensures |handlers| == 0
      ensures locker == None && watcher == None && trace == []
    {
      locker, watcher, handlers := None, None, map[];
      trace := [];
    }

    /** `SetWatcher(w)`: not synchronised, makes no call. */
    method SetWatcher(w: Option<WatcherRef>)
      modifies this`watcher
      ensures watcher == w
    {
      watcher := w;
    }

    /** `SetLocker(l)`: not synchronised, makes no call. */
    method SetLocker(l: Option<LockerRef>)
      modifies this`locker
      ensures locker == l
    {
      locker := l;
    }

    /**
     `Register(id, handler)`: a nil handler is refused before the locker is
     touched; otherwise the whole check-and-insert runs under the lock, and the
     deferred unlock also runs on the duplicate-id error return.
     */
    method Register(id: EventID, handler: Option<Handler>) returns (err: Outcome)
      requires Valid()
      modifies this`handlers, this`trace
      ensures Valid()
      ensures Registration(err, handlers) == Registry.Register(old(handlers), id, handler)
      ensures trace == old(trace) + (if handler.None? then [] else Guarded(locker, []))
    {
      if handler.None? {
        return Fail(NilHandler);
      }
      if locker.Some? {
        trace := trace + [Lock(locker.value)];
      }
      if id in handlers {
        err := Fail(DuplicateID(id));
      } else {
        handlers := handlers[id := handler.value];
        err := Pass;
      }
      if locker.Some? {
        trace := trace + [Unlock(locker.value)];
      }
      assert trace == old(trace) + Guarded(locker, []);
      GuardedKeepsBalance(old(trace), locker, []);
    }

    /**
     `RegisterFunc(id, fn)` as the source writes it: the function value is
     converted to the handler interface and passed on, so a nil `fn` arrives
     at `Register` as a non-nil interface and is stored.
     */
    method RegisterFunc(id: EventID, fn: Option<FuncRef>) returns (err: Outcome)
      requires Valid()
      modifies this`handlers, this`trace
      ensures Valid()
      ensures Registration(err, handlers) == Registry.Register(old(handlers), id, FuncAsHandler(fn))
      ensures trace == old(trace) + Guarded(locker, [])
    {
      err := Register(id, FuncAsHandler(fn));
    }

    /**
     `RegisterFunc(id, fn)` with a nil function refused as a nil handler, before
     the locker is touched, as for `Register`.
     */
    method CheckedRegisterFunc(id: EventID, fn: Option<FuncRef>) returns (err: Outcome)
      requires Valid()
      modifies this`handlers, this`trace
      ensures Valid()
      ensures Registration(err, handlers) == Registry.Register(old(handlers), id, CheckedFuncAsHandler(fn))
      ensures err == Fail(NilHandler) <==> fn.None?
      ensures trace == old(trace) + (if fn.None? then [] else Guarded(locker, []))
    {
      err := Register(id, CheckedFuncAsHandler(fn));
    }

    /** `Unregister(id)`: deletes `id` under the lock; an absent id is no error. */
    method Unregister(id: EventID)
      requires Valid()
      modifies this`handlers, this`trace
      ensures Valid()
      ensures handlers == old(handlers) - {id}
      ensures id !in old(handlers) ==> handlers == old(handlers)
      ensures trace == old(trace) + Guarded(locker, [])
    {
      if locker.Some? {
        trace := trace + [Lock(locker.value)];
      }
      handlers := handlers - {id};
      if locker.Some? {
        trace := trace + [Unlock(locker.value)];
      }
      assert trace == old(trace) + Guarded(locker, []);
      GuardedKeepsBalance(old(trace), locker, []);
    }

    /** `Clear()`: deletes every key, one per iteration of a range over the map, under the lock. */
    method Clear()
      requires Valid()
      modifies this`handlers, this`trace
      ensures Valid()
      ensures handlers == map[]
      ensures forall id :: id in old(handlers) ==> id !in handlers
      ensures trace == old(trace) + Guarded(locker, [])
    {
      if locker.Some? {
        trace := trace + [Lock(locker.value)];
      }
      ghost var entered := trace;
      var keys := handlers.Keys;
      while keys != {}
        invariant handlers.Keys == keys
        invariant trace == entered
        decreases keys
      {
        // The loop guard says the set is not empty, so a key can be picked.
        if forall y :: y !in keys {
          assert false;
        }
        var k :| k in keys;
        handlers := handlers - {k};
        keys := keys - {k};
      }
      assert handlers == map[];
      if locker.Some? {
        trace := trace + [Unlock(locker.value)];
      }
      assert trace == old(trace) + Guarded(locker, []);
      GuardedKeepsBalance(old(trace), locker, []);
    }

    /** `Contains(id)`: whether `id` has a handler, read under the lock. */
    method Contains(id: EventID) returns (found: bool)
      requires Valid()
      modifies this`trace
      ensures Valid()
      ensures found <==> id in handlers
      ensures trace == old(trace) + Guarded(locker, [])
    {
      if locker.Some? {
        trace := trace + [Lock(locker.value)];
      }
      found := id in handlers;
      if locker.Some? {
        trace := trace + [Unlock(locker.value)];
      }
      assert trace == old(trace) + Guarded(locker, []);
      GuardedKeepsBalance(old(trace), locker, []);
    }

    /** `Count()`: the number of handlers, read under the lock. */
    method Count() returns (n: int)
      requires Valid()
      modifies this`trace
      ensures Valid()
      ensures n == |handlers|
      ensures trace == old(trace) + Guarded(locker, [])
    {
      if locker.Some? {
        trace := trace + [Lock(locker.value)];
      }
      n := |handlers|;
      if locker.Some? {
        trace := trace + [Unlock(locker.value)];
      }
      assert trace == old(trace) + Guarded(locker, []);
      GuardedKeepsBalance(old(trace), locker, []);
    }

    /**
     `Trigger(sender, payload)`: under the lock for the whole loop, visits the
     map's entries in some order `order` that lists every key once; for each,
     the watcher's before-hook, then `doHandle`.  The map is not changed.
     */
    method Trigger(sender: Option<Sender>, payload: T) returns (ghost order: seq<EventID>)
      requires Valid()
      modifies this`trace
      ensures Valid()
      ensures Enumerates(order, handlers.Keys)
      ensures trace == old(trace) + Guarded(locker, Dispatch(order, handlers, watcher, sender, payload))
    {
      if locker.Some? {
        trace := trace + [Lock(locker.value)];
      }
      ghost var entered := trace;
      assert entered == if locker.Some? then old(trace) + [Lock(locker.value)] else old(trace);
      var remaining := handlers.Keys;
      order := [];
      while remaining != {}
        invariant remaining <= handlers.Keys
        invariant multiset(order) + multiset(remaining) == multiset(handlers.Keys)
        invariant trace == entered + Dispatch(order, handlers, watcher, sender, payload)
        decreases remaining
      {
        // The loop guard says the set is not empty, so a key can be picked.
        if forall y :: y !in remaining {
          assert false;
        }
        var id :| id in remaining;
        var handler := handlers[id];
        ghost var visited := trace;
        if watcher.Some? {
          trace := trace + [Before(watcher.value, id, sender, payload)];
        }
        assert trace == visited + Announce(watcher, id, sender, payload);
        DoHandle(id, handler, sender, payload);
        ghost var announced := Announce(watcher, id, sender, payload);
        AppendAssoc(visited, announced, [Handle(id, handler, sender, payload)]);
        AppendAssoc(visited, announced + [Handle(id, handler, sender, payload)], Conclude(watcher, id, sender, payload));
        EnumerationStep(order, remaining, handlers.Keys, id);
        DispatchSnoc(order, id, handlers, watcher, sender, payload);
        AppendAssoc(entered, Dispatch(order, handlers, watcher, sender, payload),
                    Visit(watcher, id, handler, sender, payload));
        order := order + [id];
        remaining := remaining - {id};
      }
      ghost var body := Dispatch(order, handlers, watcher, sender, payload);
      if locker.Some? {
        trace := trace + [Unlock(locker.value)];
      }
      GuardedAround(old(trace), locker, body);
      DispatchCallsBelong(order, handlers, watcher, sender, payload);
      GuardedKeepsBalance(old(trace), locker, body);
    }

    /**
     `TriggerAsync(sender, payload)` up to its return: under the lock, for every
     entry in some order listing every key once, the watcher's before-hook and
     the launch of `doHandle` in a goroutine.  The map is not changed.
     */
    method TriggerAsync(sender: Option<Sender>, payload: T) returns (ghost order: seq<EventID>)
      requires Valid()
      modifies this`trace
      ensures Valid()
      ensures Enumerates(order, handlers.Keys)
      ensures trace == old(trace) + Guarded(locker, Launch(order, handlers, watcher, sender, payload))
    {
      if locker.Some? {
        trace := trace + [Lock(locker.value)];
      }
      ghost var entered := trace;
      assert entered == if locker.Some? then old(trace) + [Lock(locker.value)] else old(trace);
      var remaining := handlers.Keys;
      order := [];
      while remaining != {}
        invariant remaining <= handlers.Keys
        invariant multiset(order) + multiset(remaining) == multiset(handlers.Keys)
        invariant trace == entered + Launch(order, handlers, watcher, sender, payload)
        decreases remaining
      {
        // The loop guard says the set is not empty, so a key can be picked.
        if forall y :: y !in remaining {
          assert false;
        }
        var id :| id in remaining;
        var handler := handlers[id];
        ghost var started := trace;
        if watcher.Some? {
          trace := trace + [Before(watcher.value, id, sender, payload)];
        }
        assert trace == started + Announce(watcher, id, sender, payload);
        trace := trace + [Spawn(id, handler, sender, payload)];
        AppendAssoc(started, Announce(watcher, id, sender, payload), [Spawn(id, handler, sender, payload)]);
        EnumerationStep(order, remaining, handlers.Keys, id);
        LaunchSnoc(order, id, handlers, watcher, sender, payload);
        AppendAssoc(entered, Launch(order, handlers, watcher, sender, payload),
                    Start(watcher, id, handler, sender, payload));
        order := order + [id];
        remaining := remaining - {id};
      }
      ghost var body := Launch(order, handlers, watcher, sender, payload);
      if locker.Some? {
        trace := trace + [Unlock(locker.value)];
      }
      GuardedAround(old(trace), locker, body);
      LaunchCallsBelong(order, handlers, watcher, sender, payload);
      GuardedKeepsBalance(old(trace), locker, body);
    }

    /** `doHandle`: the handler, then the deferred after-hook when a watcher is set. */
    method DoHandle(id: EventID, handler: Handler, sender: Option<Sender>, payload: T)
      modifies this`trace
      ensures trace == old(trace) + [Handle(id, handler, sender, payload)] + Conclude(watcher, id, sender, payload)
    {
      trace := trace + [Handle(id, handler, sender, payload)];
      if watcher.Some? {
        trace := trace + [After(watcher.value, id, sender, payload)];
      }
    }
  }
}
