/**
 The calls the keyed event registry makes on the objects injected into it (the
 locker, the watcher, the handlers), and the exact sequence of those calls that
 each of its operations produces.
 */
module Trace {
  import opened Registry

  /** Opaque identities of the injected `Locker` and `Watcher[T]`. */
  type LockerRef = nat
  type WatcherRef = nat

  /** The `Sender` passed through to handlers and watchers; the engine never inspects it. */
  datatype Sender = Sender(name: string)

  /**
   One observable call: `Lock`/`Unlock` on the locker, `BeforeTrigger`/`AfterTrigger`
   on the watcher, `Handle` on a handler, or the launch (`go e.doHandle`) of a
   handler's goroutine.  The payload is recorded by value, as it is when the
   call is made.
   */
  datatype Call<T> =
    | Lock(locker: LockerRef)
    | Unlock(locker: LockerRef)
    | Before(watcher: WatcherRef, id: EventID, sender: Option<Sender>, payload: T)
    | Handle(id: EventID, handler: Handler, sender: Option<Sender>, payload: T)
    | After(watcher: WatcherRef, id: EventID, sender: Option<Sender>, payload: T)
    | Spawn(id: EventID, handler: Handler, sender: Option<Sender>, payload: T)

  // ---------------------------------------------------------------------------
  // The locker

  /** An operation body between `Lock()` and its deferred `Unlock()`, when a locker is set. */
  function Guarded<T>(locker: Option<LockerRef>, body: seq<Call<T>>): seq<Call<T>>
  {
    match locker
    case None => body
    case Some(l) => [Lock(l)] + body + [Unlock(l)]
  }

  ghost predicate LockFree<T>(t: seq<Call<T>>) {
    forall i :: 0 <= i < |t| ==> !t[i].Lock? && !t[i].Unlock?
  }

  /**
   The state of locking after some calls: no lock held, the lock of one locker
   held, or a call out of place (a lock while a lock is held, which a
   non-reentrant locker never returns from, or an unlock of a lock not held).
   */
  datatype LockState = Free | Held(locker: LockerRef) | Misused

  function Step<T>(s: LockState, c: Call<T>): LockState
  {
    match c
    case Lock(l) => if s == Free then Held(l) else Misused
    case Unlock(l) => if s == Held(l) then Free else Misused
    case _ => s
  }

  /** The lock state after the calls `t`, starting from `s`. */
  function Holding<T>(s: LockState, t: seq<Call<T>>): LockState
    decreases |t|
  {
    if t == [] then s else Holding(Step(s, t[0]), t[1..])
  }

  /** Every lock taken in `t` has been released, by the locker that took it, with no nesting. */
  ghost predicate Balanced<T>(t: seq<Call<T>>) {
    Holding(Free, t) == Free
  }

  /** A misplaced lock call cannot be repaired by later calls. */
  lemma {:induction false} HoldingMisused<T>(t: seq<Call<T>>)
    ensures Holding(Misused, t) == Misused
    decreases |t|
  {
    if t != [] {
      HoldingMisused(t[1..]);
    }
  }

  lemma {:induction false} HoldingAppend<T>(s: LockState, a: seq<Call<T>>, b: seq<Call<T>>)
    ensures Holding(s, a + b) == Holding(Holding(s, a), b)
    decreases |a|
  {
    if a == [] {
      assert a + b == b;
    } else {
      assert (a + b)[0] == a[0] && (a + b)[1..] == a[1..] + b;
      HoldingAppend(Step(s, a[0]), a[1..], b);
    }
  }

  lemma {:induction false} HoldingLockFree<T>(s: LockState, t: seq<Call<T>>)
    requires LockFree(t)
    ensures Holding(s, t) == s
    decreases |t|
  {
    if t != [] {
      assert LockFree(t[1..]);
      HoldingLockFree(s, t[1..]);
    }
  }

  /**
   No prefix of a balanced trace misuses the locker: a lock taken while one is
   held, or an unlock of a lock not held, never occurs in it.
   */
  lemma BalancedPrefixWellUsed<T>(t: seq<Call<T>>, k: nat)
    requires Balanced(t) && k <= |t|
    ensures Holding(Free, t[..k]) != Misused
  {
    assert t == t[..k] + t[k..];
    HoldingAppend(Free, t[..k], t[k..]);
    if Holding(Free, t[..k]) == Misused {
      HoldingMisused(t[k..]);
    }
  }

  lemma LockFreeCounts<T>(t: seq<Call<T>>, l: LockerRef)
    requires LockFree(t)
    ensures multiset(t)[Lock(l)] == 0 && multiset(t)[Unlock(l)] == 0
  {
  }

  /**
   A guarded operation whose body makes no lock calls locks its own locker once
   and unlocks it once, and makes no call on any other locker.
   */
  lemma GuardedLockCount<T>(locker: Option<LockerRef>, body: seq<Call<T>>, l: LockerRef)
    requires LockFree(body)
    ensures multiset(Guarded(locker, body))[Lock(l)] == (if locker == Some(l) then 1 else 0)
    ensures multiset(Guarded(locker, body))[Unlock(l)] == (if locker == Some(l) then 1 else 0)
  {
    LockFreeCounts(body, l);
  }

  /** Concatenation of call sequences is associative; the loop proofs cite it to keep their solver work small. */
  lemma AppendAssoc<T>(a: seq<Call<T>>, b: seq<Call<T>>, c: seq<Call<T>>)
    ensures a + (b + c) == (a + b) + c
  {
  }

  /** The lock call before a body and the unlock call after it make up the guarded body. */
  lemma GuardedAround<T>(t: seq<Call<T>>, locker: Option<LockerRef>, body: seq<Call<T>>)
    ensures (if locker.Some? then t + [Lock(locker.value)] else t) + body
              + (if locker.Some? then [Unlock(locker.value)] else [])
            == t + Guarded(locker, body)
  {
  }

  /** Appending a guarded operation whose body makes no lock call keeps the locker free between operations. */
  lemma GuardedKeepsBalance<T>(t: seq<Call<T>>, locker: Option<LockerRef>, body: seq<Call<T>>)
    requires Balanced(t) && LockFree(body)
    ensures Balanced(t + Guarded(locker, body))
  {
    HoldingAppend(Free, t, Guarded(locker, body));
    match locker
    case None =>
      HoldingLockFree(Free, body);
    case Some(l) =>
      var g := [Lock(l)] + body + [Unlock(l)];
      HoldingAppend(Free, [Lock(l)] + body, [Unlock(l)]);
      HoldingAppend(Free, [Lock(l)], body);
      HoldingLockFree(Held(l), body);
  }

  /**
   With a locker, the lock is held from the first call of a guarded operation
   until its last: after every proper, non-empty prefix the locker is held.
   */
  lemma GuardedHoldsThroughout<T>(l: LockerRef, body: seq<Call<T>>, k: nat)
    requires LockFree(body)
    requires 0 < k < |Guarded(Some(l), body)|
    ensures Holding(Free, Guarded(Some(l), body)[..k]) == Held(l)
  {
    var g := Guarded(Some(l), body);
    assert g[..k] == [Lock(l)] + body[..k - 1];
    HoldingAppend(Free, [Lock(l)], body[..k - 1]);
    assert LockFree(body[..k - 1]);
    HoldingLockFree(Held(l), body[..k - 1]);
  }

  // ---------------------------------------------------------------------------
  // One handler under `Trigger`

  /** `BeforeTrigger(id, sender, &payload)`, when a watcher is set. */
  function Announce<T>(watcher: Option<WatcherRef>, id: EventID, sender: Option<Sender>, payload: T): seq<Call<T>>
  {
    match watcher
    case None => []
    case Some(w) => [Before(w, id, sender, payload)]
  }

  /** The deferred `AfterTrigger(id, sender, &payload)` of `doHandle`, when a watcher is set. */
  function Conclude<T>(watcher: Option<WatcherRef>, id: EventID, sender: Option<Sender>, payload: T): seq<Call<T>>
  {
    match watcher
    case None => []
    case Some(w) => [After(w, id, sender, payload)]
  }

  /** The calls for one map entry: announce, `doHandle` (the handler, then the deferred after-hook). */
  function Visit<T>(watcher: Option<WatcherRef>, id: EventID, h: Handler, sender: Option<Sender>, payload: T): seq<Call<T>>
  {
    Announce(watcher, id, sender, payload) + [Handle(id, h, sender, payload)] + Conclude(watcher, id, sender, payload)
  }

  /** The calls `TriggerAsync` itself makes for one map entry: announce, then `go e.doHandle`. */
  function Start<T>(watcher: Option<WatcherRef>, id: EventID, h: Handler, sender: Option<Sender>, payload: T): seq<Call<T>>
  {
    Announce(watcher, id, sender, payload) + [Spawn(id, h, sender, payload)]
  }

  /** How many calls one map entry contributes to a synchronous trigger. */
  function Stride(watcher: Option<WatcherRef>): nat {
    if watcher.Some? then 3 else 1
  }

  // ---------------------------------------------------------------------------
  // The loops of `Trigger` and `TriggerAsync`

  /** `order` lists every key of `keys` exactly once: a possible iteration order of the map. */
  ghost predicate Enumerates(order: seq<EventID>, keys: set<EventID>) {
    multiset(order) == multiset(keys)
  }

  /**
   The calls of `Trigger`'s loop when it visits the map's keys in the order
   `order`; a key of `order` that is not in the map (which a genuine iteration
   order never has) contributes nothing.
   */
  function Dispatch<T>(order: seq<EventID>, m: map<EventID, Handler>, watcher: Option<WatcherRef>,
                       sender: Option<Sender>, payload: T): seq<Call<T>>
  {
    if order == [] then []
    else
      var last := order[|order| - 1];
      Dispatch(order[..|order| - 1], m, watcher, sender, payload)
        + (if last in m then Visit(watcher, last, m[last], sender, payload) else [])
  }

  /**
   The calls `TriggerAsync`'s own goroutine makes in its loop: per key, the
   announce and the launch of `doHandle` in a new goroutine.  The launched
   goroutines' calls, which may happen before the loop ends, are not recorded.
   */
  function Launch<T>(order: seq<EventID>, m: map<EventID, Handler>, watcher: Option<WatcherRef>,
                     sender: Option<Sender>, payload: T): seq<Call<T>>
  {
    if order == [] then []
    else
      var last := order[|order| - 1];
      Launch(order[..|order| - 1], m, watcher, sender, payload)
        + (if last in m then Start(watcher, last, m[last], sender, payload) else [])
  }

  /** One more step of a range loop: the picked key moves from the keys still to visit to the order. */
  lemma EnumerationStep(order: seq<EventID>, remaining: set<EventID>, keys: set<EventID>, id: EventID)
    requires multiset(order) + multiset(remaining) == multiset(keys)
    requires id in remaining
    ensures multiset(order + [id]) + multiset(remaining - {id}) == multiset(keys)
  {
    assert remaining == (remaining - {id}) + {id};
    assert multiset(remaining) == multiset(remaining - {id}) + multiset{id};
    assert multiset(order + [id]) == multiset(order) + multiset{id};
  }

  /** One more visited key appends that key's visit to the calls of `Trigger`. */
  lemma DispatchSnoc<T>(order: seq<EventID>, id: EventID, m: map<EventID, Handler>, watcher: Option<WatcherRef>,
                        sender: Option<Sender>, payload: T)
    requires id in m
    ensures Dispatch(order + [id], m, watcher, sender, payload)
            == Dispatch(order, m, watcher, sender, payload) + Visit(watcher, id, m[id], sender, payload)
  {
    assert (order + [id])[..|order|] == order;
  }

  /** One more visited key appends that key's start to the calls of `TriggerAsync`. */
  lemma LaunchSnoc<T>(order: seq<EventID>, id: EventID, m: map<EventID, Handler>, watcher: Option<WatcherRef>,
                      sender: Option<Sender>, payload: T)
    requires id in m
    ensures Launch(order + [id], m, watcher, sender, payload)
            == Launch(order, m, watcher, sender, payload) + Start(watcher, id, m[id], sender, payload)
  {
    assert (order + [id])[..|order|] == order;
  }

  /** An iteration order of a key set is as long as the set, lists exactly its keys, and is empty for the empty set. */
  lemma EnumeratesLength(order: seq<EventID>, keys: set<EventID>)
    requires Enumerates(order, keys)
    ensures |order| == |keys|
    ensures keys == {} ==> order == []
    ensures forall id :: id in order <==> id in keys
  {
    assert |multiset(order)| == |order|;
    assert forall id :: id in order <==> id in multiset(order);
  }

  /** With no handler registered, a trigger's loop makes no call at all. */
  lemma DispatchWithoutHandlers<T>(order: seq<EventID>, m: map<EventID, Handler>, watcher: Option<WatcherRef>,
                                   sender: Option<Sender>, payload: T)
    requires Enumerates(order, m.Keys) && m.Keys == {}
    ensures Dispatch(order, m, watcher, sender, payload) == []
    ensures Launch(order, m, watcher, sender, payload) == []
  {
    EnumeratesLength(order, m.Keys);
  }

  /** `Dispatch` distributes over concatenation of iteration orders. */
  lemma {:induction false} DispatchAppend<T>(a: seq<EventID>, b: seq<EventID>, m: map<EventID, Handler>,
                                             watcher: Option<WatcherRef>, sender: Option<Sender>, payload: T)
    ensures Dispatch(a + b, m, watcher, sender, payload)
            == Dispatch(a, m, watcher, sender, payload) + Dispatch(b, m, watcher, sender, payload)
  {
    if b == [] {
      assert a + b == a;
    } else {
      var init, last := b[..|b| - 1], b[|b| - 1];
      var v := if last in m then Visit(watcher, last, m[last], sender, payload) else [];
      assert (a + b)[..|a + b| - 1] == a + init;
      assert (a + b)[|a + b| - 1] == last;
      DispatchAppend(a, init, m, watcher, sender, payload);
      AppendAssoc(Dispatch(a, m, watcher, sender, payload), Dispatch(init, m, watcher, sender, payload), v);
    }
  }

  /**
   Contiguity: whatever the iteration order, the calls for the `k`-th key form
   one uninterrupted block, preceded by the calls for the keys before it and
   followed by those for the keys after it.
   */
  lemma DispatchLayout<T>(order: seq<EventID>, m: map<EventID, Handler>, watcher: Option<WatcherRef>,
                          sender: Option<Sender>, payload: T, k: nat)
    requires k < |order| && order[k] in m
    ensures Dispatch(order, m, watcher, sender, payload)
            == Dispatch(order[..k], m, watcher, sender, payload)
               + Visit(watcher, order[k], m[order[k]], sender, payload)
               + Dispatch(order[k + 1..], m, watcher, sender, payload)
  {
    assert order == order[..k] + [order[k]] + order[k + 1..];
    DispatchAppend(order[..k] + [order[k]], order[k + 1..], m, watcher, sender, payload);
    DispatchAppend(order[..k], [order[k]], m, watcher, sender, payload);
    assert [order[k]][..0] == [];
  }

  /** A synchronous trigger makes `Stride` calls per visited key. */
  lemma {:induction false} DispatchLength<T>(order: seq<EventID>, m: map<EventID, Handler>, watcher: Option<WatcherRef>,
                                             sender: Option<Sender>, payload: T)
    requires forall id :: id in order ==> id in m
    ensures |Dispatch(order, m, watcher, sender, payload)| == |order| * Stride(watcher)
  {
    if order != [] {
      var init := order[..|order| - 1];
      DispatchLength(init, m, watcher, sender, payload);
      assert |order| * Stride(watcher) == |init| * Stride(watcher) + Stride(watcher);
    }
  }

  /**
   `Trigger` makes no call other than before/handle/after for the keys in `order`,
   each with that key's handler, the sender and the payload; in particular it
   calls no locker.
   */
  lemma {:induction false} DispatchCallsBelong<T>(order: seq<EventID>, m: map<EventID, Handler>, watcher: Option<WatcherRef>,
                                                  sender: Option<Sender>, payload: T)
    ensures LockFree(Dispatch(order, m, watcher, sender, payload))
    ensures forall c :: c in Dispatch(order, m, watcher, sender, payload) ==>
              && (c.Before? || c.Handle? || c.After?)
              && c.id in order && c.id in m && c.sender == sender && c.payload == payload
              && (c.Handle? ==> c.handler == m[c.id])
              && (!c.Handle? ==> Some(c.watcher) == watcher)
  {
    if order != [] {
      var init := order[..|order| - 1];
      DispatchCallsBelong(init, m, watcher, sender, payload);
    }
  }

  /** The launch loop of `TriggerAsync` announces and launches, calls no handler and no locker. */
  lemma {:induction false} LaunchCallsBelong<T>(order: seq<EventID>, m: map<EventID, Handler>, watcher: Option<WatcherRef>,
                                                sender: Option<Sender>, payload: T)
    ensures LockFree(Launch(order, m, watcher, sender, payload))
    ensures forall c :: c in Launch(order, m, watcher, sender, payload) ==>
              && (c.Before? || c.Spawn?)
              && c.id in order && c.id in m && c.sender == sender && c.payload == payload
              && (c.Spawn? ==> c.handler == m[c.id])
              && (c.Before? ==> Some(c.watcher) == watcher)
  {
    if order != [] {
      var init := order[..|order| - 1];
      LaunchCallsBelong(init, m, watcher, sender, payload);
    }
  }

  // ---------------------------------------------------------------------------
  // The calls on behalf of one key

  /** Whether `c` is a call made on behalf of the map entry `id` (lock calls are on behalf of none). */
  predicate Concerns<T>(c: Call<T>, id: EventID) {
    !c.Lock? && !c.Unlock? && c.id == id
  }

  /** The calls of `t` made on behalf of `id`, in the order they were made. */
  function About<T>(t: seq<Call<T>>, id: EventID): seq<Call<T>>
  {
    if t == [] then []
    else About(t[..|t| - 1], id) + (if Concerns(t[|t| - 1], id) then [t[|t| - 1]] else [])
  }

  lemma {:induction false} AboutAppend<T>(a: seq<Call<T>>, b: seq<Call<T>>, id: EventID)
    ensures About(a + b, id) == About(a, id) + About(b, id)
  {
    if b == [] {
      assert a + b == a;
    } else {
      var init := b[..|b| - 1];
      assert (a + b)[..|a + b| - 1] == a + init;
      AboutAppend(a, init, id);
    }
  }

  lemma AboutSingle<T>(c: Call<T>, id: EventID)
    ensures About([c], id) == if Concerns(c, id) then [c] else []
  {
    assert [c][..0] == [];
  }

  /** The lock calls around an operation are made on behalf of no key. */
  lemma AboutGuarded<T>(locker: Option<LockerRef>, body: seq<Call<T>>, id: EventID)
    ensures About(Guarded(locker, body), id) == About(body, id)
  {
    match locker
    case None =>
    case Some(l) =>
      AboutAppend([Lock(l)] + body, [Unlock(l)], id);
      AboutAppend([Lock(l)], body, id);
      AboutSingle<T>(Lock(l), id);
      AboutSingle<T>(Unlock(l), id);
  }

  /** Every call of `Visit(…, last, …)` is made on behalf of `last`. */
  lemma AboutVisit<T>(watcher: Option<WatcherRef>, last: EventID, h: Handler, sender: Option<Sender>, payload: T,
                      id: EventID)
    ensures About(Visit(watcher, last, h, sender, payload), id)
            == if last == id then Visit(watcher, last, h, sender, payload) else []
  {
    var hc := Handle(last, h, sender, payload);
    AboutSingle(hc, id);
    match watcher
    case None =>
      assert Visit(watcher, last, h, sender, payload) == [hc];
    case Some(w) =>
      var bc, ac := Before(w, last, sender, payload), After(w, last, sender, payload);
      assert Visit(watcher, last, h, sender, payload) == [bc] + [hc] + [ac];
      AboutAppend([bc] + [hc], [ac], id);
      AboutAppend([bc], [hc], id);
      AboutSingle(bc, id);
      AboutSingle(ac, id);
  }

  /**
   When `order` visits `id` at most once, the calls `Trigger` makes on behalf of
   `id` are exactly that key's visit if `order` contains it, and none otherwise.
   */
  lemma {:induction false} AboutDispatch<T>(order: seq<EventID>, m: map<EventID, Handler>, watcher: Option<WatcherRef>,
                                            sender: Option<Sender>, payload: T, id: EventID)
    requires multiset(order)[id] <= 1
    ensures About(Dispatch(order, m, watcher, sender, payload), id)
            == if id in order && id in m then Visit(watcher, id, m[id], sender, payload) else []
  {
    if order == [] {
      assert Dispatch(order, m, watcher, sender, payload) == [];
    } else {
      var init, last := order[..|order| - 1], order[|order| - 1];
      assert order == init + [last];
      assert multiset(order) == multiset(init) + multiset{last};
      assert id in order <==> id in init || id == last;
      AboutDispatch(init, m, watcher, sender, payload, id);
      var d := Dispatch(init, m, watcher, sender, payload);
      if last in m {
        assert Dispatch(order, m, watcher, sender, payload) == d + Visit(watcher, last, m[last], sender, payload);
        AboutAppend(d, Visit(watcher, last, m[last], sender, payload), id);
        AboutVisit(watcher, last, m[last], sender, payload, id);
      } else {
        assert d + [] == d;
      }
      if last == id {
        assert id !in init by {
          assert multiset(init)[id] == 0;
        }
      }
    }
  }

  /**
   For a genuine iteration order of the map, `Trigger` calls the handler of every
   registered id once, with the watcher's before- and after-hook around it and
   no other call on that id's behalf in between; it makes no call on behalf of
   an id that is not registered.
   */
  lemma DispatchVisitsEachKeyOnce<T>(order: seq<EventID>, m: map<EventID, Handler>, watcher: Option<WatcherRef>,
                                     sender: Option<Sender>, payload: T, id: EventID)
    requires Enumerates(order, m.Keys)
    ensures forall i :: i in order ==> i in m
    ensures About(Dispatch(order, m, watcher, sender, payload), id)
            == if id in m then Visit(watcher, id, m[id], sender, payload) else []
  {
    EnumeratesLength(order, m.Keys);
    AboutDispatch(order, m, watcher, sender, payload, id);
  }

  /** Every call of `Start(…, last, …)` is made on behalf of `last`. */
  lemma AboutStart<T>(watcher: Option<WatcherRef>, last: EventID, h: Handler, sender: Option<Sender>, payload: T,
                      id: EventID)
    ensures About(Start(watcher, last, h, sender, payload), id)
            == if last == id then Start(watcher, last, h, sender, payload) else []
  {
    var sc := Spawn(last, h, sender, payload);
    AboutSingle(sc, id);
    match watcher
    case None =>
      assert Start(watcher, last, h, sender, payload) == [sc];
    case Some(w) =>
      var bc := Before(w, last, sender, payload);
      assert Start(watcher, last, h, sender, payload) == [bc] + [sc];
      AboutAppend([bc], [sc], id);
      AboutSingle(bc, id);
  }

  /**
   When `order` visits `id` at most once, the calls `TriggerAsync` itself makes
   on behalf of `id` are the announce and the launch of that key's handler if
   `order` contains it, and none otherwise.
   */
  lemma {:induction false} AboutLaunch<T>(order: seq<EventID>, m: map<EventID, Handler>, watcher: Option<WatcherRef>,
                                          sender: Option<Sender>, payload: T, id: EventID)
    requires multiset(order)[id] <= 1
    ensures About(Launch(order, m, watcher, sender, payload), id)
            == if id in order && id in m then Start(watcher, id, m[id], sender, payload) else []
  {
    if order == [] {
      assert Launch(order, m, watcher, sender, payload) == [];
    } else {
      var init, last := order[..|order| - 1], order[|order| - 1];
      assert order == init + [last];
      assert multiset(order) == multiset(init) + multiset{last};
      assert id in order <==> id in init || id == last;
      AboutLaunch(init, m, watcher, sender, payload, id);
      var d := Launch(init, m, watcher, sender, payload);
      if last in m {
        assert Launch(order, m, watcher, sender, payload) == d + Start(watcher, last, m[last], sender, payload);
        AboutAppend(d, Start(watcher, last, m[last], sender, payload), id);
        AboutStart(watcher, last, m[last], sender, payload, id);
      } else {
        assert d + [] == d;
      }
      if last == id {
        assert id !in init by {
          assert multiset(init)[id] == 0;
        }
      }
    }
  }

  /**
   For a genuine iteration order of the map, `TriggerAsync` itself announces
   and launches the handler of every registered id once, and makes no call on
   behalf of an id that is not registered.
   */
  lemma LaunchStartsEachKeyOnce<T>(order: seq<EventID>, m: map<EventID, Handler>, watcher: Option<WatcherRef>,
                                   sender: Option<Sender>, payload: T, id: EventID)
    requires Enumerates(order, m.Keys)
    ensures forall i :: i in order ==> i in m
    ensures About(Launch(order, m, watcher, sender, payload), id)
            == if id in m then Start(watcher, id, m[id], sender, payload) else []
  {
    EnumeratesLength(order, m.Keys);
    AboutLaunch(order, m, watcher, sender, payload, id);
  }
}
