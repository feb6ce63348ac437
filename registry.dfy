/**
 The handler map of the keyed event registry (`Event[T]` in event/event.go),
 viewed as a value: what a handler is, the two registration errors, the
 registration rule, and the effect of a whole sequence of registry operations.
 */
module Registry {

  datatype Option<+T> = None | Some(value: T)

  /** Go's `EventID int`: a key of the handler map, never computed with. */
  type EventID = int

  /** Opaque identities of the callbacks a caller hands to the registry. */
  type FuncRef = nat
  type ObjectRef = nat

  /**
   A non-nil value of the interface `interface{ Handle(Sender, T) }`: either an
   `EventFunc[T]` (a wrapped function value, which may itself be nil) or an
   object with a `Handle` method.  A nil interface is `None` of `Option<Handler>`.
   */
  datatype Handler = FuncHandler(fn: Option<FuncRef>) | ObjectHandler(obj: ObjectRef)

  /** A handler whose `Handle` can run: an `EventFunc` holding a nil function panics. */
  predicate Callable(h: Handler) {
    !(h.FuncHandler? && h.fn.None?)
  }

  /** The two errors `Register` returns ("handler is nil", "event id %d exists"). */
  datatype Error = NilHandler | DuplicateID(id: EventID)

  /** An `error` result: nil (`Pass`) or one of the two errors. */
  datatype Outcome = Pass | Fail(error: Error)

  /** What `Register` returns, together with the handler map it leaves behind. */
  datatype Registration = Registration(outcome: Outcome, handlers: map<EventID, Handler>)

  /**
   `Register(id, handler)` on the map `m`: a nil handler is refused first, then
   an id already present; otherwise the handler is stored under `id`.
   */
  function Register(m: map<EventID, Handler>, id: EventID, handler: Option<Handler>): (r: Registration)
    ensures r.outcome == Fail(NilHandler) <==> handler.None?
    ensures r.outcome == Fail(DuplicateID(id)) <==> handler.Some? && id in m
    ensures r.outcome.Pass? <==> handler.Some? && id !in m
    ensures r.outcome.Fail? ==> r.handlers == m
    ensures r.outcome.Pass? ==>
              && r.handlers.Keys == m.Keys + {id}
              && |r.handlers| == |m| + 1
              && r.handlers[id] == handler.value
              && forall k :: k in m ==> r.handlers[k] == m[k]
  {
    if handler.None? then Registration(Fail(NilHandler), m)
    else if id in m then Registration(Fail(DuplicateID(id)), m)
    else
      var m' := m[id := handler.value];
      assert m'.Keys == m.Keys + {id};
      Registration(Pass, m')
  }

  /** Registering a fresh id and then unregistering it gives back the map it started from. */
  lemma UnregisterUndoesRegister(m: map<EventID, Handler>, id: EventID, h: Handler)
    requires id !in m
    ensures Register(m, id, Some(h)).outcome == Pass
    ensures Register(m, id, Some(h)).handlers - {id} == m
  {
    var m' := Register(m, id, Some(h)).handlers;
    assert (m' - {id}).Keys == m.Keys;
  }

  // ---------------------------------------------------------------------------
  // `RegisterFunc` and the nil function value

  /**
   The conversion `RegisterFunc` performs when it passes its `EventFunc[T]` on
   to `Register`: an interface holding the function type, never a nil interface,
   even when the function value `fn` is nil.
   */
  function FuncAsHandler(fn: Option<FuncRef>): Option<Handler>
  {
    Some(FuncHandler(fn))
  }

  /** The conversion `RegisterFunc` is evidently meant to make: a nil function is a nil handler. */
  function CheckedFuncAsHandler(fn: Option<FuncRef>): Option<Handler>
  {
    if fn.None? then None else Some(FuncHandler(fn))
  }

  /**
   As written, `RegisterFunc(id, nil)` on an event without `id` succeeds and
   stores a handler that cannot be called.
   */
  lemma RegisterFuncAcceptsNilFunc(m: map<EventID, Handler>, id: EventID)
    requires id !in m
    ensures Register(m, id, FuncAsHandler(None)).outcome == Pass
    ensures !Callable(Register(m, id, FuncAsHandler(None)).handlers[id])
  {
  }

  /**
   With the check, `RegisterFunc` refuses exactly the nil function with
   `NilHandler`, and whatever it stores can be called.
   */
  lemma CheckedRegisterFuncStoresCallable(m: map<EventID, Handler>, id: EventID, fn: Option<FuncRef>)
    requires forall k :: k in m ==> Callable(m[k])
    ensures Register(m, id, CheckedFuncAsHandler(fn)).outcome == Fail(NilHandler) <==> fn.None?
    ensures forall k :: k in Register(m, id, CheckedFuncAsHandler(fn)).handlers ==>
              Callable(Register(m, id, CheckedFuncAsHandler(fn)).handlers[k])
  {
  }

  // ---------------------------------------------------------------------------
  // Sequences of registry operations

  /** One call that changes the handler map. */
  datatype Op = RegisterOp(id: EventID, handler: Option<Handler>) | UnregisterOp(id: EventID) | ClearOp

  /** The handler map after one operation: `Unregister` deletes one key, `Clear` every key. */
  function Apply(m: map<EventID, Handler>, op: Op): map<EventID, Handler>
  {
    match op
    case RegisterOp(id, h) => Register(m, id, h).handlers
    case UnregisterOp(id) => m - {id}
    case ClearOp => map[]
  }

  /** The handler map after the operations `ops`, applied in order to `m`. */
  function Replay(m: map<EventID, Handler>, ops: seq<Op>): map<EventID, Handler>
  {
    if ops == [] then m else Apply(Replay(m, ops[..|ops| - 1]), ops[|ops| - 1])
  }

  /** The error each operation returns; `Unregister` and `Clear` return none. */
  function Outcomes(m: map<EventID, Handler>, ops: seq<Op>): seq<Outcome>
  {
    if ops == [] then []
    else
      var last := ops[|ops| - 1];
      var before := Replay(m, ops[..|ops| - 1]);
      Outcomes(m, ops[..|ops| - 1]) +
        [if last.RegisterOp? then Register(before, last.id, last.handler).outcome else Pass]
  }

  /** Whether `op` decides whether `id` is registered afterwards. */
  predicate Touches(op: Op, id: EventID) {
    match op
    case RegisterOp(i, h) => i == id && h.Some?
    case UnregisterOp(i) => i == id
    case ClearOp => true
  }

  /** The position of the last operation in `ops` that touches `id`, if any. */
  function LastTouch(ops: seq<Op>, id: EventID): (r: Option<nat>)
    ensures r.Some? ==> r.value < |ops| && Touches(ops[r.value], id)
    ensures r.Some? ==> forall j :: r.value < j < |ops| ==> !Touches(ops[j], id)
    ensures r.None? ==> forall j :: 0 <= j < |ops| ==> !Touches(ops[j], id)
  {
    if ops == [] then None
    else if Touches(ops[|ops| - 1], id) then Some(|ops| - 1)
    else LastTouch(ops[..|ops| - 1], id)
  }

  /**
   `Contains(id)` after a sequence of operations is true exactly when the last
   operation that touched `id` was a registration of `id` with a non-nil
   handler (whether it succeeded, or was refused as a duplicate because `id`
   was already present), or when nothing touched it and it was there at the
   start.
   */
  lemma {:induction false} ReplayMembership(m: map<EventID, Handler>, ops: seq<Op>, id: EventID)
    ensures id in Replay(m, ops) <==>
              match LastTouch(ops, id)
              case None => id in m
              case Some(i) => ops[i].RegisterOp?
  {
    if ops != [] {
      var init := ops[..|ops| - 1];
      ReplayMembership(m, init, id);
      if !Touches(ops[|ops| - 1], id) {
        assert LastTouch(ops, id) == LastTouch(init, id);
        match LastTouch(init, id)
        case None =>
        case Some(i) => assert ops[i] == init[i];
      }
    }
  }

  /**
   Over registrations alone, `Count()` is the starting count plus the number of
   registrations that returned no error.
   */
  lemma {:induction false} ReplayCount(m: map<EventID, Handler>, ops: seq<Op>)
    requires forall i :: 0 <= i < |ops| ==> ops[i].RegisterOp?
    ensures |Replay(m, ops)| == |m| + multiset(Outcomes(m, ops))[Pass]
  {
    if ops != [] {
      var init, last := ops[..|ops| - 1], ops[|ops| - 1];
      assert forall i :: 0 <= i < |init| ==> init[i] == ops[i];
      ReplayCount(m, init);
      var r := Register(Replay(m, init), last.id, last.handler);
      assert Outcomes(m, ops) == Outcomes(m, init) + [r.outcome];
      assert multiset(Outcomes(m, ops)) == multiset(Outcomes(m, init)) + multiset{r.outcome};
    }
  }
}
