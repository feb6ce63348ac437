# Keyed event registry — a Dafny model

This project models `Event[T]` from event/event.go. It is a registry that maps an integer `EventID` to a handler, with an optional injected `Locker` and an optional injected `Watcher`. The model covers:

- the operations `NewEvent`, `SetWatcher`, `SetLocker`, `RegisterFunc`, `Register`, `Unregister`, `Clear`, `Contains`, `Count`, `Trigger` and `doHandle`;
- the calls `TriggerAsync` makes on its own goroutine, up to its return.

The model has four modules:

- `Registry` (registry.dfy) — the handler map as a value:
  - what a handler is, including the `EventFunc` case that holds a nil function;
  - the two registration errors;
  - the registration rule;
  - the effect of a whole sequence of `Register`/`Unregister`/`Clear` calls.
- `Trace` (trace.dfy) — the calls the registry makes on the objects injected into it:
  - `Lock`/`Unlock` on the locker;
  - `BeforeTrigger`/`AfterTrigger` on the watcher;
  - `Handle` on a handler;
  - the launch of a `doHandle` goroutine.

  It also defines the exact sequence of calls each operation produces, the lock discipline (`Balanced`), and the projection `About(t, id)` of a trace onto the calls made on behalf of one key.
- `Events` (event.dfy) — the class `Event<T>`:
  - fields `locker`, `watcher`, `handlers` and a ghost `trace` of the calls made so far;
  - one method per operation, changing the map in place;
  - `Clear`, `Trigger` and `TriggerAsync` loop over a shrinking set of keys that are still to visit.

  Together, the `:|` pick of the next key and the ghost out-parameter `order` stand in for Go's unspecified map iteration order. `Valid()` says that every lock taken has been released.
- `EventScenarios` (scenarios.dfy) — the two scenarios of event/event_test.go, restated as calls on the model's methods, with their outcome proved.

How Go constructs are modelled:

- **Nil interfaces and values.** A nil interface value is `None`. A nil `Sender` is `None` as well.
- **Handlers.** Handlers, lockers and watchers are opaque tokens. A handler call is recorded in the trace; it is not executed.
- **`defer`.** The deferred `Unlock` of each operation is its last call. This holds on the duplicate-id error return of `Register` too.
- **The deferred `AfterTrigger` of `doHandle`.** It follows the handler call.

## Model

| member | source | states |
|---|---|---|
| Registry.Register | event/event.go:66-82 | A nil handler fails with `NilHandler`; otherwise an id already present fails with `DuplicateID(id)`; otherwise the call passes. It fails exactly in those cases and the map is unchanged on either failure. On success the keys grow by exactly `id`, the count rises by one, `id` maps to the new handler and every other entry is unchanged. |
| Registry.UnregisterUndoesRegister | event/event.go:66-92 | Registering a fresh id and then unregistering it gives back the original map. |
| Registry.RegisterFuncAcceptsNilFunc | event/event.go:61-69 | As written, `RegisterFunc(id, nil)` on an event without `id` succeeds and stores a handler that cannot be called. |
| Registry.CheckedRegisterFuncStoresCallable | event/event.go:61-69 | With the nil check, `RegisterFunc` fails with `NilHandler` exactly when the function is nil. If every stored handler was callable before, every stored handler is callable after. |
| Registry.LastTouch | event/event.go:66-104 | The position and meaning of the last operation in a sequence that decides whether an id is registered: it touches the id, no later one does, and without a position none does. |
| Registry.ReplayMembership | event/event.go:66-115 | After any sequence of `Register`/`Unregister`/`Clear`, `Contains(id)` holds exactly when the last operation touching `id` was a registration of it with a non-nil handler, whether it succeeded or was refused as a duplicate because `id` was already present. If no operation touched `id`, it holds exactly when `id` was present at the start. |
| Registry.ReplayCount | event/event.go:66-82 | Over a sequence of registrations, `Count()` (lines 118-125) is the starting count plus the number of registrations that returned no error. |
| Trace.GuardedLockCount | event/event.go:71-74 | The guard of `Register`, repeated at lines 86-89, 96-99, 108-111, 119-122, 129-132 and 144-147: a guarded operation with a lock-free body locks and unlocks a locker exactly once if that locker is set, and never otherwise. |
| Trace.GuardedKeepsBalance | event/event.go:71-74 | For the guard of `Register` and its repetitions in the other operations: appending a guarded operation to a balanced trace leaves it balanced: every lock taken is released, by the same locker, without nesting. |
| Trace.BalancedPrefixWellUsed | event/event.go:71-74 | In a balanced trace no prefix misuses the locker: no lock is taken while one is held and no lock is released that is not held. |
| Trace.HoldingMisused | event/event.go:71-74 | A misuse of the locker, once made, is never repaired by later calls: from the misused state every sequence of calls stays misused. |
| Trace.GuardedHoldsThroughout | event/event.go:129-139 | Under a locker, the lock is held after every proper, non-empty prefix of a guarded operation, so the operation's whole body runs under the lock. |
| Trace.EnumeratesLength | event/event.go:134-139 | An iteration order of a key set has as many entries as the set, contains exactly its keys, and is empty for an empty set. |
| Trace.DispatchWithoutHandlers | event/event.go:128-155 | With no handler registered, the loops of `Trigger` and `TriggerAsync` make no call. |
| Trace.DispatchAppend | event/event.go:134-139 | The calls of the trigger loop over two consecutive parts of an order are the calls for the first part followed by those for the second. |
| Trace.DispatchLayout | event/event.go:134-139 | The calls for the `k`-th key form one uninterrupted block, `BeforeTrigger`, handler, `AfterTrigger`. The block comes after the calls for the earlier keys and before those for the later ones. |
| Trace.DispatchLength | event/event.go:134-139 | One synchronous trigger makes three calls per key with a watcher and one without. |
| Trace.DispatchCallsBelong | event/event.go:134-139 | `Trigger`'s loop makes no lock call. Every call it makes is a before-hook, a handler call or an after-hook for a visited, registered key, with the right sender and payload; a handler call uses that key's handler and a hook uses the event's watcher. |
| Trace.LaunchCallsBelong | event/event.go:149-154 | `TriggerAsync`'s loop makes no lock call and no handler call. It makes only before-hooks and goroutine launches for visited, registered keys, each launch carrying that key's handler. |
| Trace.AboutAppend | event/event.go:134-139 | The calls on behalf of one key in a concatenation are that key's calls in the first part followed by those in the second. |
| Trace.AboutGuarded | event/event.go:129-132 | The lock calls around an operation are made on behalf of no key. |
| Trace.AboutVisit | event/event.go:157-165 | Every call of one key's visit is made on behalf of that key and of no other. |
| Trace.AboutDispatch | event/event.go:134-139 | When an order lists `id` at most once, the calls on behalf of `id` are that key's visit if it is listed and registered, and none otherwise. |
| Trace.DispatchVisitsEachKeyOnce | event/event.go:128-140 | For every iteration order of the map and every id: a registered id gets exactly its own visit: with a watcher set, `BeforeTrigger`, its own handler's `Handle`, `AfterTrigger`; without one, only the handler call. An unregistered id gets no call. |
| Trace.AboutStart | event/event.go:149-154 | Every call of one key's announce-and-launch is made on behalf of that key. |
| Trace.AboutLaunch | event/event.go:149-154 | When an order lists `id` at most once, the calls `TriggerAsync` itself makes on behalf of `id` are its before-hook and the launch of its handler if it is listed and registered, and none otherwise. |
| Trace.LaunchStartsEachKeyOnce | event/event.go:143-155 | For every iteration order of the map, the calls `TriggerAsync` itself makes on behalf of a registered id are one before-hook and one launch of its own handler; it makes none on behalf of an unregistered id. Calls made by the launched goroutines are not recorded. |
| Events.Event.constructor | event/event.go:44-50 | A new event has no handler (no id is contained, the count is 0), no locker, no watcher and an empty call trace. |
| Events.Event.SetWatcher | event/event.go:52-54 | Sets the watcher and nothing else; it makes no call. |
| Events.Event.SetLocker | event/event.go:56-58 | Sets the locker and nothing else; it makes no call. |
| Events.Event.Register | event/event.go:66-82 | The returned error and the new map are exactly those of `Registry.Register`. A nil handler makes no lock call. Otherwise the method makes exactly one lock and one unlock when a locker is set, on the duplicate-id return too. Locks stay balanced. |
| Events.Event.RegisterFunc | event/event.go:61-63 | As written: the result is `Register` with the function wrapped as a non-nil handler, even when the function is nil. |
| Events.Event.CheckedRegisterFunc | event/event.go:61-63 | Corrected: fails with `NilHandler` exactly when the function is nil, before the locker is touched; otherwise it behaves as `Register` with that function's handler. |
| Events.Event.Unregister | event/event.go:85-92 | Removes exactly `id` and nothing else, so an absent id is a no-op and a repeated call changes nothing. It makes one lock and one unlock when a locker is set. |
| Events.Event.Clear | event/event.go:95-104 | The range-and-delete loop leaves the map empty: no previously registered id remains. It runs under one lock/unlock pair when a locker is set. |
| Events.Event.Contains | event/event.go:107-115 | Returns whether `id` is registered, under one lock/unlock pair; the map is unchanged. |
| Events.Event.Count | event/event.go:118-125 | Returns the number of registered handlers, under one lock/unlock pair; the map is unchanged. |
| Events.Event.Trigger | event/event.go:128-140 | Leaves the map unchanged and returns the iteration order, which lists every registered key exactly once. The calls it makes are the loop's per-key visits in that order, wrapped in one lock/unlock pair when a locker is set. Locks stay balanced. |
| Events.Event.TriggerAsync | event/event.go:143-155 | Leaves the map unchanged; for an order listing every key once it makes, under one lock/unlock pair, each key's before-hook and the launch of its handler. Locks stay balanced. |
| Events.Event.DoHandle | event/event.go:157-165 | Calls the handler, then the deferred after-hook when a watcher is set. |
| EventScenarios.SingleKeyOrder | event/event_test.go:25-37 | A map with the single key 1 can only be visited in the order `[1]`. |
| EventScenarios.SimpleEvent | event/event_test.go:12-52 | `TestSimpleEvent` has no watcher and no locker. Its only calls are the two handler calls, with the two payloads. The trigger after `Unregister` finds no handler and makes no call, and the map ends empty. |
| EventScenarios.NewAsyncEvent | event/event_test.go:99-106 | `newAsyncEvent` makes a fresh event with its watcher and locker set, no handler and no call. |
| EventScenarios.RegisterThree | event/event_test.go:113-124 | The three registrations of "trigger async" store the three functions under ids 1, 2 and 3. With a locker set they make three lock/unlock pairs. They leave the locks balanced and change neither watcher nor locker. |
| EventScenarios.AsyncTrace | event/event_test.go:113-128 | After three locked registrations and one locked asynchronous trigger, the calls made on behalf of a registered id by the test's own goroutine are exactly its before-hook and its launch. |
| EventScenarios.AsyncEvent | event/event_test.go:109-130 | In "trigger async", the calls `TriggerAsync` itself makes on behalf of each of ids 1, 2 and 3 are exactly one before-hook (the test's `wg.Add(1)`) and one launch of its own handler, the map holds the three handlers, and every lock taken has been released. |

## Left out

- Concurrency. `TriggerAsync`'s launched goroutines, their calls to the handler and to `AfterTrigger`, and any interleaving with other callers are not modelled. The model stops at the launch. `Spawn` records what a launched `doHandle` is given.
- The timing and stress parts of event/event_test.go. This covers the sleeps, the `WaitGroup` barrier `Wait()`, and the "thread-safe event" loop at event/event_test.go:132-153. In that loop, handlers call back into `Unregister`. They run in goroutines launched by `TriggerAsync`, so their `Unregister` waits for the lock until `TriggerAsync`'s or `Clear`'s deferred unlock releases it, then deletes the key and returns. Only a handler of the synchronous `Trigger` that calls back into a lock-guarded operation on the goroutine holding a non-reentrant lock would block forever. The model records no calls made from inside a handler.
- Handler behaviour and panics. A handler is an opaque token and its call is only recorded. The model does not capture that calling an `EventFunc` that holds a nil function panics. It only marks such a handler as not `Callable`.
- Payload aliasing. `BeforeTrigger` and `AfterTrigger` receive a pointer to the payload, and a watcher could write through it. The two pointers differ. `BeforeTrigger`'s (event/event.go:136) points at `Trigger`'s own parameter, the one copy shared by the whole loop, so a write there would reach that key's handler and every later key. `AfterTrigger`'s (event/event.go:160) points at `doHandle`'s parameter, a fresh copy made at each call on event/event.go:138, so a write there would reach nothing else. The model records the payload by value and assumes watchers do not change it.
- Nil pointers inside a non-nil interface. A handler that is an object, `ObjectHandler(obj)`, cannot be a nil pointer held in the interface. Such a value also passes the nil check at event/event.go:67, and calling it may panic; the model treats every object handler as a real object. The same holds for the locker and the watcher: `Option<LockerRef>` and `Option<WatcherRef>` cannot hold a nil pointer in a non-nil interface, which would pass the checks `e.locker != nil` (event/event.go:71 and its repeats) and `e.watcher != nil` (event/event.go:135, 159).
- Exact error strings. "handler is nil" and "event id %d exists" are the two constructors of `Error`. Their text is not modelled.
- Go's `int` width for `EventID` and for `Count()`. Ids are only compared and counts never come near the bound, so both are unbounded integers.
- The "ordered registry" with an `Async` flag and an id-less `Register`. It is used by event/sample_event.go:8-18, sample_notifier.go:10-17 and user/user.go:26-38, but its definition is not part of this model. Likewise `event.UserCreated` (user/user.go:10) is not defined anywhere in the source, which defines `UserCreatedEvent` (event/user_event.go:21).
- The notifier glue and start-up. The notifiers only print (create_notifier.go, delete_notifier.go, sample_notifier.go). The payload declarations are in event/user_event.go, and start-up is in main.go.

## Findings

| source | as written | input that shows it | evidently intended | confidence | as-written member | corrected member |
|---|---|---|---|---|---|---|
| event/event.go:61-69 | `RegisterFunc` passes its `EventFunc[T]` to `Register` as an interface. A nil function becomes a non-nil interface holding a nil function, so `Register`'s `handler == nil` check does not catch it: the call succeeds and stores a handler that panics when triggered. | `RegisterFunc(1, nil)` on a new event | fail with the "handler is nil" error without storing anything, as `Register(1, nil)` does | high; not executed | Registry.RegisterFuncAcceptsNilFunc, Events.Event.RegisterFunc | Registry.CheckedRegisterFuncStoresCallable, Events.Event.CheckedRegisterFunc |
