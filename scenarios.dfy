/**
 The two usage scenarios of event/event_test.go, restated as calls on the
 model's methods, with the calls each makes and the state it leaves proved.
 */
module EventScenarios {
  import opened Registry
  import opened Trace
  import opened Events

  /** The only iteration order of a map with the single key `id`. */
  lemma SingleKeyOrder(order: seq<EventID>, id: EventID)
    requires Enumerates(order, {id})
    ensures order == [id]
  {
    EnumeratesLength(order, {id});
    assert order[0] in order;
  }

  /**
   `TestSimpleEvent`: register a function under id 1, trigger twice, unregister,
   trigger again.  Without watcher and locker the only calls are the two
   handler calls, and the last trigger finds no handler.
   */
  method SimpleEvent<T>(f: FuncRef, first: T, second: T, third: T) returns (e: Event<T>)
    ensures e.Valid()
    ensures e.handlers == map[]
    ensures e.trace == [Handle(1, FuncHandler(Some(f)), None, first), Handle(1, FuncHandler(Some(f)), None, second)]
  {
    e := new Event<T>();
    var err := e.RegisterFunc(1, Some(f));
    assert e.handlers == map[1 := FuncHandler(Some(f))];
    var order1 := e.Trigger(None, first);
    SingleKeyOrder(order1, 1);
    assert order1[..0] == [];
    var order2 := e.Trigger(None, second);
    SingleKeyOrder(order2, 1);
    assert order2[..0] == [];
    e.Unregister(1);
    var order3 := e.Trigger(None, third);
    EnumeratesLength(order3, e.handlers.Keys);
  }

  /** Registrations under a locker make only lock calls, on behalf of no key. */
  lemma RegistrationsConcernNoKey<T>(l: LockerRef, id: EventID)
    ensures About(Guarded<T>(Some(l), []), id) == []
  {
    var none: seq<Call<T>> := [];
    AboutGuarded(Some(l), none, id);
  }

  /** With a watcher, one key's part of an asynchronous trigger is its before-hook and its launch. */
  lemma StartWithWatcher<T>(w: WatcherRef, id: EventID, h: Handler, sender: Option<Sender>, payload: T)
    ensures Start(Some(w), id, h, sender, payload) == [Before(w, id, sender, payload), Spawn(id, h, sender, payload)]
  {
  }

  /** After calls on behalf of no key, a locked asynchronous trigger starts each registered key once. */
  lemma LaunchAfter<T>(prefix: seq<Call<T>>, l: LockerRef, order: seq<EventID>, m: map<EventID, Handler>,
                       w: WatcherRef, sender: Option<Sender>, payload: T, id: EventID)
    requires About(prefix, id) == []
    requires Enumerates(order, m.Keys)
    ensures About(prefix + Guarded(Some(l), Launch(order, m, Some(w), sender, payload)), id)
            == if id in m then Start(Some(w), id, m[id], sender, payload) else []
  {
    var launched := Launch(order, m, Some(w), sender, payload);
    AboutAppend(prefix, Guarded(Some(l), launched), id);
    AboutGuarded(Some(l), launched, id);
    LaunchStartsEachKeyOnce(order, m, Some(w), sender, payload, id);
  }

  /**
   The calls of three registrations under the locker `l` followed by the calls
   an asynchronous trigger itself makes: for a registered key, its before-hook
   and its launch.
   */
  lemma AsyncTrace<T>(t: seq<Call<T>>, l: LockerRef, w: WatcherRef, order: seq<EventID>, m: map<EventID, Handler>,
                      sender: Option<Sender>, payload: T, id: EventID)
    requires Enumerates(order, m.Keys)
    requires t == Guarded<T>(Some(l), []) + Guarded<T>(Some(l), []) + Guarded<T>(Some(l), [])
                  + Guarded(Some(l), Launch(order, m, Some(w), sender, payload))
    requires id in m
    ensures About(t, id) == [Before(w, id, sender, payload), Spawn(id, m[id], sender, payload)]
  {
    var g := Guarded<T>(Some(l), []);
    RegistrationsConcernNoKey<T>(l, id);
    AboutAppend(g, g, id);
    AboutAppend(g + g, g, id);
    LaunchAfter(g + g + g, l, order, m, w, sender, payload, id);
    StartWithWatcher(w, id, m[id], sender, payload);
  }

  /** `newAsyncEvent()`: a fresh event with its watcher and its locker set. */
  method NewAsyncEvent<T>(w: WatcherRef, l: LockerRef) returns (e: Event<T>)
    ensures fresh(e)
    ensures e.Valid()
    ensures e.handlers == map[] && e.trace == []
    ensures e.watcher == Some(w) && e.locker == Some(l)
  {
    e := new Event<T>();
    e.SetWatcher(Some(w));
    e.SetLocker(Some(l));
  }

  /** The three `RegisterFunc` calls of "trigger async", on an event without handlers. */
  method RegisterThree<T>(e: Event<T>, f1: FuncRef, f2: FuncRef, f3: FuncRef)
    requires e.Valid() && e.handlers == map[]
    modifies e
    ensures e.Valid()
    ensures e.handlers == map[1 := FuncHandler(Some(f1)), 2 := FuncHandler(Some(f2)), 3 := FuncHandler(Some(f3))]
    ensures e.trace == old(e.trace) + Guarded(e.locker, []) + Guarded(e.locker, []) + Guarded(e.locker, [])
    ensures e.locker == old(e.locker) && e.watcher == old(e.watcher)
  {
    var err1 := e.RegisterFunc(1, Some(f1));
    assert e.handlers == map[1 := FuncHandler(Some(f1))];
    var err2 := e.RegisterFunc(2, Some(f2));
    assert e.handlers == map[1 := FuncHandler(Some(f1)), 2 := FuncHandler(Some(f2))];
    var err3 := e.RegisterFunc(3, Some(f3));
  }

  /**
   `TestAsyncEvent`, "trigger async": an event that is its own watcher and
   locker, three functions registered under ids 1 to 3, one asynchronous
   trigger.  The calls `TriggerAsync` itself makes on behalf of each of the
   three ids are its before-hook (the test's `wg.Add(1)`) and the launch of
   its handler, and nothing else; every lock taken has been released.  Calls
   the launched goroutines make are not part of the trace.
   */
  method AsyncEvent<T>(w: WatcherRef, l: LockerRef, f1: FuncRef, f2: FuncRef, f3: FuncRef, sender: Sender, payload: T)
    returns (e: Event<T>)
    ensures e.Valid()
    ensures e.handlers == map[1 := FuncHandler(Some(f1)), 2 := FuncHandler(Some(f2)), 3 := FuncHandler(Some(f3))]
    ensures About(e.trace, 1) == [Before(w, 1, Some(sender), payload), Spawn(1, FuncHandler(Some(f1)), Some(sender), payload)]
    ensures About(e.trace, 2) == [Before(w, 2, Some(sender), payload), Spawn(2, FuncHandler(Some(f2)), Some(sender), payload)]
    ensures About(e.trace, 3) == [Before(w, 3, Some(sender), payload), Spawn(3, FuncHandler(Some(f3)), Some(sender), payload)]
  {
    e := NewAsyncEvent(w, l);
    RegisterThree(e, f1, f2, f3);
    ghost var g := Guarded<T>(Some(l), []);
    assert [] + g == g;
    ghost var registered := e.trace;
    assert registered == g + g + g;
    var order := e.TriggerAsync(Some(sender), payload);
    assert e.trace == registered + Guarded(Some(l), Launch(order, e.handlers, Some(w), Some(sender), payload));
    AsyncTrace(e.trace, l, w, order, e.handlers, Some(sender), payload, 1);
    AsyncTrace(e.trace, l, w, order, e.handlers, Some(sender), payload, 2);
    AsyncTrace(e.trace, l, w, order, e.handlers, Some(sender), payload, 3);
  }
}
