/** The native future: its state, its callbacks, and the two ways of scheduling them. */
module Futures {
  import opened Indices
  import opened Bits
  import opened Scheduling

  /** Python objects as far as the core creates or passes them. */
  datatype Obj =
    | Bytes(bytes: seq<byte>)
    | BytesFrom(bytes: seq<byte>, address: nat)
    | Num(n: int)
    | OsError(errno: int)
    | Ref(id: nat)

  datatype FutState = Pending | Finished(value: Obj) | Failed(error: Obj) | Cancelled

  datatype Callback = Callback(func: nat, context: Option<nat>)

  datatype Fut = Fut(state: FutState, callbacks: seq<Callback>)

  datatype FutError = AlreadyDone | LoopClosed

  function HandleOf(id: nat, cb: Callback): Handle {
    Call(cb.func, id, cb.context)
  }

  /** Each callback called with the future as its one argument, in its own context. */
  function HandlesFor(id: nat, cbs: seq<Callback>): (hs: seq<Handle>)
    ensures |hs| == |cbs| && forall i :: 0 <= i < |cbs| ==> hs[i] == Call(cbs[i].func, id, cbs[i].context)
  {
    seq(|cbs|, i requires 0 <= i < |cbs| => HandleOf(id, cbs[i]))
  }

  /** A future and the ready queue after an operation, with the error it raised. */
  datatype Outcome = Outcome(fut: Fut, queue: seq<Handle>, error: Option<FutError>)

  /** Through `call_soon`: a closed loop raises at the first callback, and the drained list is gone. */
  function SettleSlow(f: Fut, id: nat, state: FutState, queue: seq<Handle>, open: bool): Outcome {
    if !f.state.Pending? then Outcome(f, queue, Some(AlreadyDone))
    else if open || f.callbacks == [] then Outcome(Fut(state, []), queue + HandlesFor(id, f.callbacks), None)
    else Outcome(Fut(state, []), queue, Some(LoopClosed))
  }

  /** Straight into the scheduler. */
  function SettleFast(f: Fut, id: nat, state: FutState, queue: seq<Handle>): Outcome {
    if !f.state.Pending? then Outcome(f, queue, Some(AlreadyDone))
    else Outcome(Fut(state, []), queue + HandlesFor(id, f.callbacks), None)
  }

  function AddCallback(f: Fut, id: nat, cb: Callback, queue: seq<Handle>, open: bool): Outcome {
    if f.state.Pending? then Outcome(f.(callbacks := f.callbacks + [cb]), queue, None)
    else if open then Outcome(f, queue + [HandleOf(id, cb)], None)
    else Outcome(f, queue, Some(LoopClosed))
  }

  function Without(cbs: seq<Callback>, func: nat): seq<Callback> {
    if cbs == [] then []
    else if cbs[|cbs| - 1].func == func then Without(cbs[..|cbs| - 1], func)
    else Without(cbs[..|cbs| - 1], func) + [cbs[|cbs| - 1]]
  }

  function RemoveCallback(f: Fut, func: nat): Fut {
    f.(callbacks := Without(f.callbacks, func))
  }

  /** The fast path refines the slow one exactly when the loop is open or there is nothing to schedule. */
  lemma FastRefinesSlowIff(f: Fut, id: nat, state: FutState, queue: seq<Handle>, open: bool)
    ensures SettleFast(f, id, state, queue) == SettleSlow(f, id, state, queue, open)
      <==> open || !f.state.Pending? || f.callbacks == []
  {
  }

  /** On a closed loop: a pending future is settled and its callbacks are gone, but not one was scheduled, and that is the error. */
  lemma ClosedLoop(f: Fut, id: nat, state: FutState, queue: seq<Handle>)
    ensures var r := SettleSlow(f, id, state, queue, false);
            && r.queue == queue
            && (if f.state.Pending? then r.fut == Fut(state, []) && (r.error == Some(LoopClosed) <==> f.callbacks != [])
                else r.fut == f && r.error == Some(AlreadyDone))
            && (r.error.None? <==> f.state.Pending? && f.callbacks == [])
  {
  }

  /** On a closed loop a callback for a finished future is refused and never scheduled; a pending one still keeps it. */
  lemma ClosedLoopCallback(f: Fut, id: nat, cb: Callback, queue: seq<Handle>)
    ensures var r := AddCallback(f, id, cb, queue, false);
            && r.queue == queue
            && (if f.state.Pending? then r.fut == Fut(Pending, f.callbacks + [cb]) && r.error.None?
                else r.fut == f && r.error == Some(LoopClosed))
  {
  }

  // ---------------------------------------------------------------------------
  // Runs on an open loop
  // ---------------------------------------------------------------------------

  /** `Settle` is a result, an exception or a cancellation, by either path. */
  datatype FutOp = Add(cb: Callback) | Drop(func: nat) | Settle(state: FutState, fast: bool)

  function Step(f: Fut, id: nat, queue: seq<Handle>, op: FutOp): Outcome {
    match op
    case Add(cb) => AddCallback(f, id, cb, queue, true)
    case Drop(func) => Outcome(RemoveCallback(f, func), queue, None)
    case Settle(state, fast) => if fast then SettleFast(f, id, state, queue) else SettleSlow(f, id, state, queue, true)
  }

  /** A new future after `ops`, with what it put on an initially empty queue. */
  function Exec(id: nat, ops: seq<FutOp>): Outcome {
    if ops == [] then Outcome(Fut(Pending, []), [], None)
    else
      var before := Exec(id, ops[..|ops| - 1]);
      Step(before.fut, id, before.queue, ops[|ops| - 1])
  }

  /** Position of the first settling operation, or the length if there is none. */
  function FirstSettle(ops: seq<FutOp>): (c: nat)
    ensures c <= |ops|
    ensures c < |ops| ==> ops[c].Settle?
    ensures forall i :: 0 <= i < c ==> !ops[i].Settle?
  {
    if ops == [] || ops[0].Settle? then 0 else 1 + FirstSettle(ops[1..])
  }

  /** Operation `i` registers a callback that no later operation removes. */
  ghost predicate Survives(ops: seq<FutOp>, i: nat) {
    i < |ops| && ops[i].Add? && forall j :: i < j < |ops| ==> ops[j] != Drop(ops[i].cb.func)
  }

  /** The surviving registrations among the first `n` operations, in order. */
  ghost function Survivors(ops: seq<FutOp>, n: nat): seq<Callback>
    requires n <= |ops|
  {
    if n == 0 then []
    else if Survives(ops, n - 1) then Survivors(ops, n - 1) + [ops[n - 1].cb]
    else Survivors(ops, n - 1)
  }

  /** All registrations in `ops`, in order. */
  function Registrations(ops: seq<FutOp>): seq<Callback> {
    if ops == [] then []
    else if ops[|ops| - 1].Add? then Registrations(ops[..|ops| - 1]) + [ops[|ops| - 1].cb]
    else Registrations(ops[..|ops| - 1])
  }

  lemma {:induction false} WithoutMeaning(cbs: seq<Callback>, func: nat)
    ensures forall cb :: cb in Without(cbs, func) <==> cb in cbs && cb.func != func
    ensures |Without(cbs, func)| <= |cbs|
  {
    if cbs != [] {
      var n := |cbs| - 1;
      WithoutMeaning(cbs[..n], func);
      assert cbs == cbs[..n] + [cbs[n]];
    }
  }

  /** One more operation: a removal filters the survivors, anything else leaves them. */
  lemma {:induction false} SurvivorsExtend(ops: seq<FutOp>, op: FutOp, n: nat)
    requires n <= |ops|
    ensures Survivors(ops + [op], n) == if op.Drop? then Without(Survivors(ops, n), op.func) else Survivors(ops, n)
  {
    if n > 0 {
      SurvivorsExtend(ops, op, n - 1);
      var i := n - 1;
      var more := ops + [op];
      assert more[i] == ops[i] && more[|ops|] == op;
      assert Survives(more, i) <==> Survives(ops, i) && op != Drop(ops[i].cb.func) by {
        if Survives(ops, i) && op != Drop(ops[i].cb.func) {
          forall j | i < j < |more| ensures more[j] != Drop(more[i].cb.func) {
            assert j < |ops| ==> more[j] == ops[j];
          }
        }
        if Survives(more, i) {
          forall j | i < j < |ops| ensures ops[j] != Drop(ops[i].cb.func) {
            assert more[j] == ops[j];
          }
        }
      }
      if op.Drop? && Survives(ops, i) {
        var cbs := Survivors(ops, i) + [ops[i].cb];
        assert cbs[..|cbs| - 1] == Survivors(ops, i);
      }
    }
  }

  /** What a future and the queue are after `ops`, said without running them. */
  ghost predicate Lived(id: nat, ops: seq<FutOp>, r: Outcome) {
    if FirstSettle(ops) == |ops| then r.fut == Fut(Pending, Survivors(ops, |ops|)) && r.queue == []
    else r.fut == Fut(ops[FirstSettle(ops)].state, []) && r.queue == Schedule(id, ops, FirstSettle(ops))
  }

  /** Registrations that survived until operation `c`, then all later ones. */
  ghost function Schedule(id: nat, ops: seq<FutOp>, c: nat): seq<Handle>
    requires c < |ops|
  {
    HandlesFor(id, Survivors(ops[..c], c)) + HandlesFor(id, Registrations(ops[c + 1..]))
  }

  /** An operation on a future nobody has settled. */
  lemma LiveOnPending(id: nat, ops: seq<FutOp>, op: FutOp, r: Outcome)
    requires Lived(id, ops, r) && FirstSettle(ops) == |ops|
    ensures Lived(id, ops + [op], Step(r.fut, id, r.queue, op))
  {
    var n, all := |ops|, ops + [op];
    FirstSettleExtend(ops, op);
    SurvivorsExtend(ops, op, n);
    assert all[..n] == ops;
    if op.Settle? {
      assert all[n + 1..] == [];
    } else {
      assert Survives(all, n) <==> op.Add?;
    }
  }

  lemma ScheduleExtend(id: nat, ops: seq<FutOp>, op: FutOp, c: nat)
    requires c < |ops|
    ensures Schedule(id, ops + [op], c) == Schedule(id, ops, c) + if op.Add? then [HandleOf(id, op.cb)] else []
  {
    assert (ops + [op])[..c] == ops[..c];
    assert (ops + [op])[c + 1..] == ops[c + 1..] + [op];
    RegistrationsExtend(id, ops[c + 1..], op);
  }

  /** An operation on a settled future: registrations are scheduled at once, the rest changes nothing. */
  lemma LiveOnSettled(id: nat, ops: seq<FutOp>, op: FutOp, r: Outcome)
    requires Lived(id, ops, r) && FirstSettle(ops) < |ops| && !ops[FirstSettle(ops)].state.Pending?
    ensures Lived(id, ops + [op], Step(r.fut, id, r.queue, op))
  {
    FirstSettleExtend(ops, op);
    ScheduleExtend(id, ops, op, FirstSettle(ops));
    assert (ops + [op])[FirstSettle(ops)] == ops[FirstSettle(ops)];
    StepSettled(r.fut, id, r.queue, op);
  }

  lemma StepSettled(f: Fut, id: nat, queue: seq<Handle>, op: FutOp)
    requires !f.state.Pending? && f.callbacks == []
    ensures Step(f, id, queue, op).fut == f
    ensures Step(f, id, queue, op).queue == queue + if op.Add? then [HandleOf(id, op.cb)] else []
  {
  }

  /**
   The whole life of a future on an open loop. Until something settles it, it holds
   the surviving registrations and schedules nothing. From then on its state is that
   of the first settling operation, it holds no callback, and the schedule is the
   registrations that survived until then followed by every later one.
   */
  lemma {:induction false} FutureLife(id: nat, ops: seq<FutOp>)
    requires forall i :: 0 <= i < |ops| && ops[i].Settle? ==> !ops[i].state.Pending?
    ensures Lived(id, ops, Exec(id, ops))
  {
    if ops != [] {
      var n := |ops| - 1;
      FutureLife(id, ops[..n]);
      assert ops[..n] + [ops[n]] == ops;
      if FirstSettle(ops[..n]) == n {
        LiveOnPending(id, ops[..n], ops[n], Exec(id, ops[..n]));
      } else {
        LiveOnSettled(id, ops[..n], ops[n], Exec(id, ops[..n]));
      }
    }
  }

  lemma RegistrationsExtend(id: nat, ops: seq<FutOp>, op: FutOp)
    ensures HandlesFor(id, Registrations(ops + [op]))
            == HandlesFor(id, Registrations(ops)) + if op.Add? then [HandleOf(id, op.cb)] else []
  {
    assert (ops + [op])[..|ops|] == ops;
  }

  /**
   Every operation of every life reports the right thing: settling raises "already done"
   exactly after the first settling operation (where `cancel` reports false instead), and
   nothing else raises.
   */
  lemma ReportsInLife(id: nat, ops: seq<FutOp>, i: nat)
    requires forall j :: 0 <= j < |ops| && ops[j].Settle? ==> !ops[j].state.Pending?
    requires i < |ops|
    ensures Exec(id, ops[..i + 1]).error == if ops[i].Settle? && FirstSettle(ops) < i then Some(AlreadyDone) else None
  {
    FutureLife(id, ops[..i]);
    assert ops[..i + 1][..i] == ops[..i];
    FirstSettlePrefix(ops, i);
  }

  lemma {:induction false} FirstSettlePrefix(ops: seq<FutOp>, i: nat)
    requires i <= |ops|
    ensures FirstSettle(ops[..i]) == if FirstSettle(ops) < i then FirstSettle(ops) else i
  {
    if i > 0 && !ops[0].Settle? {
      FirstSettlePrefix(ops[1..], i - 1);
      assert ops[..i][1..] == ops[1..][..i - 1];
    }
  }

  lemma {:induction false} FirstSettleExtend(ops: seq<FutOp>, op: FutOp)
    ensures FirstSettle(ops + [op])
            == if FirstSettle(ops) < |ops| then FirstSettle(ops) else if op.Settle? then |ops| else |ops| + 1
  {
    if ops == [] {
      assert [op][1..] == [];
    } else if !ops[0].Settle? {
      FirstSettleExtend(ops[1..], op);
      assert (ops + [op])[1..] == ops[1..] + [op];
    }
  }

  /** A future leaves Pending at most once, never changes its outcome afterwards, and holds no callback once done. */
  lemma SettledForGood(id: nat, ops: seq<FutOp>, more: seq<FutOp>)
    requires forall i :: 0 <= i < |ops| && ops[i].Settle? ==> !ops[i].state.Pending?
    requires forall i :: 0 <= i < |more| && more[i].Settle? ==> !more[i].state.Pending?
    requires !Exec(id, ops).fut.state.Pending?
    ensures Exec(id, ops + more).fut == Fut(Exec(id, ops).fut.state, [])
  {
    var all := ops + more;
    FutureLife(id, ops);
    FutureLife(id, all);
    var c := FirstSettle(ops);
    assert forall i :: 0 <= i < |ops| ==> all[i] == ops[i];
    assert all[c].Settle?;
    assert FirstSettle(all) == c;
  }

  // ---------------------------------------------------------------------------
  // The object
  // ---------------------------------------------------------------------------

  class UringFuture {
    const id: nat
    var state: FutState
    var callbacks: seq<Callback>

    ghost function View(): Fut
      reads this
    {
      Fut(state, callbacks)
    }

    constructor (id: nat)
      ensures View() == Fut(Pending, []) && this.id == id
    {
      this.id := id;
      state, callbacks := Pending, [];
    }

    /** `call_soon` on the future's loop. */
    static method CallSoon(scheduler: Scheduler, open: bool, handle: Handle) returns (error: Option<FutError>)
      modifies scheduler
      ensures scheduler.queue == old(scheduler.queue) + if open then [handle] else []
      ensures error == if open then None else Some(LoopClosed)
    {
      if !open {
        return Some(LoopClosed);
      }
      scheduler.Push(handle);
      return None;
    }

    method ScheduleCallbacks(scheduler: Scheduler, open: bool) returns (error: Option<FutError>)
      modifies this`callbacks, scheduler
      ensures callbacks == []
      ensures scheduler.queue == old(scheduler.queue) + if open then HandlesFor(id, old(callbacks)) else []
      ensures error == if open || old(callbacks) == [] then None else Some(LoopClosed)
    {
      var drained := callbacks;
      callbacks := [];
      ghost var handles := HandlesFor(id, drained);
      var i := 0;
      while i < |drained|
        invariant i <= |drained| && callbacks == []
        invariant scheduler.queue == old(scheduler.queue) + handles[..i]
        invariant i > 0 ==> open
      {
        error := CallSoon(scheduler, open, HandleOf(id, drained[i]));
        if error.Some? {
          return;
        }
        i := i + 1;
      }
      return None;
    }

    method ScheduleFast(scheduler: Scheduler)
      modifies this`callbacks, scheduler
      ensures callbacks == []
      ensures scheduler.queue == old(scheduler.queue) + HandlesFor(id, old(callbacks)) && scheduler.Grew()
    {
      var drained := callbacks;
      callbacks := [];
      ghost var handles := HandlesFor(id, drained);
      var i := 0;
      while i < |drained|
        invariant i <= |drained| && callbacks == []
        invariant scheduler.queue == old(scheduler.queue) + handles[..i]
        invariant scheduler.pushed == old(scheduler.pushed) + handles[..i] && scheduler.taken == old(scheduler.taken)
      {
        scheduler.Push(HandleOf(id, drained[i]));
        i := i + 1;
      }
    }

    method SetResult(scheduler: Scheduler, open: bool, value: Obj) returns (error: Option<FutError>)
      modifies this, scheduler
      ensures Outcome(View(), scheduler.queue, error) == SettleSlow(old(View()), id, Finished(value), old(scheduler.queue), open)
      ensures error == Some(AlreadyDone) <==> !old(state).Pending?
      ensures error == Some(LoopClosed) <==> old(state).Pending? && !open && old(callbacks) != []
    {
      if !state.Pending? {
        return Some(AlreadyDone);
      }
      state := Finished(value);
      error := ScheduleCallbacks(scheduler, open);
    }

    method SetException(scheduler: Scheduler, open: bool, exception: Obj) returns (error: Option<FutError>)
      modifies this, scheduler
      ensures Outcome(View(), scheduler.queue, error) == SettleSlow(old(View()), id, Failed(exception), old(scheduler.queue), open)
      ensures error == Some(AlreadyDone) <==> !old(state).Pending?
      ensures error == Some(LoopClosed) <==> old(state).Pending? && !open && old(callbacks) != []
    {
      if !state.Pending? {
        return Some(AlreadyDone);
      }
      state := Failed(exception);
      error := ScheduleCallbacks(scheduler, open);
    }

    /** Cancelling a finished future is not an error; it just reports false. */
    method Cancel(scheduler: Scheduler, open: bool) returns (r: Result<bool, FutError>)
      modifies this, scheduler
      ensures View() == SettleSlow(old(View()), id, Cancelled, old(scheduler.queue), open).fut
      ensures scheduler.queue == SettleSlow(old(View()), id, Cancelled, old(scheduler.queue), open).queue
      ensures r == Success(false) <==> !old(state).Pending?
      ensures r == Success(true) <==> old(state).Pending? && (open || old(callbacks) == [])
      ensures r.Failure? ==> r.error == LoopClosed
    {
      if !state.Pending? {
        return Success(false);
      }
      state := Cancelled;
      var error := ScheduleCallbacks(scheduler, open);
      return if error.Some? then Failure(error.value) else Success(true);
    }

    method SetResultFast(scheduler: Scheduler, value: Obj) returns (error: Option<FutError>)
      modifies this, scheduler
      ensures Outcome(View(), scheduler.queue, error) == SettleFast(old(View()), id, Finished(value), old(scheduler.queue))
      ensures error == if old(state).Pending? then None else Some(AlreadyDone)
      ensures scheduler.Grew()
    {
      if !state.Pending? {
        return Some(AlreadyDone);
      }
      state := Finished(value);
      ScheduleFast(scheduler);
      return None;
    }

    method SetExceptionFast(scheduler: Scheduler, exception: Obj) returns (error: Option<FutError>)
      modifies this, scheduler
      ensures Outcome(View(), scheduler.queue, error) == SettleFast(old(View()), id, Failed(exception), old(scheduler.queue))
      ensures error == if old(state).Pending? then None else Some(AlreadyDone)
      ensures scheduler.Grew()
    {
      if !state.Pending? {
        return Some(AlreadyDone);
      }
      state := Failed(exception);
      ScheduleFast(scheduler);
      return None;
    }

    method AddDoneCallback(scheduler: Scheduler, open: bool, cb: Callback) returns (error: Option<FutError>)
      modifies this, scheduler
      ensures Outcome(View(), scheduler.queue, error) == AddCallback(old(View()), id, cb, old(scheduler.queue), open)
      ensures error == if state.Pending? || open then None else Some(LoopClosed)
      ensures state == old(state) && callbacks == old(callbacks) + if state.Pending? then [cb] else []
    {
      if !state.Pending? {
        error := CallSoon(scheduler, open, HandleOf(id, cb));
        return;
      }
      callbacks := callbacks + [cb];
      return None;
    }

    /** Keeps the callbacks with another function and reports how many went. */
    method RemoveDoneCallback(func: nat) returns (removed: nat)
      modifies this
      ensures View() == RemoveCallback(old(View()), func)
      ensures removed == |old(callbacks)| - |callbacks|
    {
      var kept := [];
      var i := 0;
      while i < |callbacks|
        invariant i <= |callbacks| && kept == Without(callbacks[..i], func)
      {
        assert callbacks[..i + 1][..i] == callbacks[..i];
        if callbacks[i].func != func {
          kept := kept + [callbacks[i]];
        }
        i := i + 1;
      }
      assert callbacks[..i] == callbacks;
      WithoutMeaning(callbacks, func);
      removed := |callbacks| - |kept|;
      callbacks := kept;
    }
  }
}
