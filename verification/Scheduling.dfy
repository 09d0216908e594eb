/** The ready queue, the timer heap, and what a run of ticks does with them. */
module Scheduling {
  import opened Indices

  /** A handle in the ready queue: a future's callback with its one argument, or any other task. */
  datatype Handle = Call(func: nat, future: nat, context: Option<nat>) | Task(id: nat)

  datatype TimerEntry = TimerEntry(expiration: real, handle: Handle)

  // ---------------------------------------------------------------------------
  // Timers
  // ---------------------------------------------------------------------------

  datatype Ordering = Less | Equal | Greater

  function CompareReal(a: real, b: real): Ordering {
    if a < b then Less else if a == b then Equal else Greater
  }

  /** Reversed, so that a heap that pops its greatest element pops the earliest timer. */
  function Compare(a: TimerEntry, b: TimerEntry): Ordering {
    CompareReal(b.expiration, a.expiration)
  }

  /** `top` is an element that a max-heap may have at its top. */
  ghost predicate IsTop(heap: multiset<TimerEntry>, top: TimerEntry) {
    top in heap && forall e :: e in heap ==> Compare(top, e) != Less
  }

  predicate Sorted(es: seq<TimerEntry>) {
    forall i, j :: 0 <= i < j < |es| ==> es[i].expiration <= es[j].expiration
  }

  /** `popped` is exactly what is due at `now`, earliest first (ties in any order). */
  ghost predicate IsDue(heap: multiset<TimerEntry>, now: real, popped: seq<TimerEntry>) {
    && Sorted(popped)
    && forall e :: multiset(popped)[e] == if e.expiration <= now then heap[e] else 0
  }

  function HandlesOf(es: seq<TimerEntry>): (hs: seq<Handle>)
    ensures |hs| == |es| && forall i :: 0 <= i < |es| ==> hs[i] == es[i].handle
  {
    seq(|es|, i requires 0 <= i < |es| => es[i].handle)
  }

  lemma SomeTop(heap: multiset<TimerEntry>) returns (top: TimerEntry)
    requires |heap| > 0
    ensures IsTop(heap, top)
    decreases |heap|
  {
    var e :| e in heap;
    var rest := heap - multiset{e};
    if |rest| == 0 {
      top := e;
      assert forall x :: x in heap ==> x == e || x in rest;
    } else {
      top := SomeTop(rest);
      assert forall x :: x in heap ==> x == e || x in rest;
      if Compare(top, e) == Less {
        top := e;
      }
    }
  }

  class TimerHeap {
    var heap: multiset<TimerEntry>

    constructor ()
      ensures heap == multiset{}
    {
      heap := multiset{};
    }

    method Push(expiration: real, handle: Handle)
      modifies this
      ensures heap == old(heap) + multiset{TimerEntry(expiration, handle)}
    {
      heap := heap + multiset{TimerEntry(expiration, handle)};
    }

    method Peek() returns (top: Option<TimerEntry>)
      ensures top.None? <==> |heap| == 0
      ensures top.Some? ==> IsTop(heap, top.value)
    {
      if |heap| == 0 {
        return None;
      }
      ghost var first := SomeTop(heap);
      var e :| e in heap && forall x :: x in heap ==> Compare(e, x) != Less;
      return Some(e);
    }

    method NextExpiration() returns (next: Option<real>)
      ensures next.None? <==> |heap| == 0
      ensures next.Some? ==> (exists e :: e in heap && e.expiration == next.value) && forall e :: e in heap ==> next.value <= e.expiration
    {
      var top := Peek();
      return if top.Some? then Some(top.value.expiration) else None;
    }

    /** The top if it is due; otherwise nothing in the heap is due. */
    method PopDue(now: real) returns (top: Option<TimerEntry>)
      modifies this
      ensures top.None? ==> heap == old(heap) && forall e :: e in heap ==> e.expiration > now
      ensures top.Some? ==> IsTop(old(heap), top.value) && top.value.expiration <= now
      ensures top.Some? ==> heap == old(heap) - multiset{top.value} && |heap| < |old(heap)|
    {
      top := Peek();
      if top.None? || top.value.expiration > now {
        return None;
      }
      heap := heap - multiset{top.value};
    }

    method PopExpired(now: real) returns (expired: seq<Handle>, ghost popped: seq<TimerEntry>)
      modifies this
      ensures IsDue(old(heap), now, popped) && expired == HandlesOf(popped)
      ensures heap == old(heap) - multiset(popped)
      ensures forall e :: e in heap ==> e.expiration > now
    {
      expired, popped := [], [];
      ghost var all := heap;
      var more := true;
      while more
        invariant Popping(all, heap, popped, now)
        invariant expired == HandlesOf(popped)
        invariant !more ==> forall e :: e in heap ==> e.expiration > now
        decreases more, |heap|
      {
        ghost var rest := heap;
        var top := PopDue(now);
        if top.None? {
          more := false;
        } else {
          PopOne(all, rest, popped, now, top.value);
          HandlesOfConcat(popped, top.value);
          expired := expired + [top.value.handle];
          popped := popped + [top.value];
        }
      }
      PoppedIsDue(all, heap, popped, now);
    }
  }

  lemma HandlesOfConcat(es: seq<TimerEntry>, e: TimerEntry)
    ensures HandlesOf(es + [e]) == HandlesOf(es) + [e.handle]
  {
  }

  /** Part of `all` has been popped, in order and all of it due; the rest is no earlier. */
  ghost predicate Popping(all: multiset<TimerEntry>, rest: multiset<TimerEntry>, popped: seq<TimerEntry>, now: real) {
    && multiset(popped) + rest == all
    && Sorted(popped)
    && (forall i :: 0 <= i < |popped| ==> popped[i].expiration <= now)
    && (forall i, e :: 0 <= i < |popped| && e in rest ==> popped[i].expiration <= e.expiration)
  }

  lemma PopOne(all: multiset<TimerEntry>, rest: multiset<TimerEntry>, popped: seq<TimerEntry>, now: real, top: TimerEntry)
    requires Popping(all, rest, popped, now) && IsTop(rest, top) && top.expiration <= now
    ensures Popping(all, rest - multiset{top}, popped + [top], now)
    ensures top in rest
  {
    var rest' := rest - multiset{top};
    PoppedMoves(multiset(popped), rest, top);
    assert forall e :: e in rest' ==> e in rest;
    assert forall e :: e in rest ==> top.expiration <= e.expiration;
  }

  lemma PoppedMoves(popped: multiset<TimerEntry>, rest: multiset<TimerEntry>, top: TimerEntry)
    requires top in rest
    ensures popped + multiset{top} + (rest - multiset{top}) == popped + rest
  {
  }

  lemma PoppedIsDue(all: multiset<TimerEntry>, rest: multiset<TimerEntry>, popped: seq<TimerEntry>, now: real)
    requires Popping(all, rest, popped, now)
    requires forall e :: e in rest ==> e.expiration > now
    ensures IsDue(all, now, popped) && rest == all - multiset(popped)
  {
    forall e ensures multiset(popped)[e] == if e.expiration <= now then all[e] else 0 {
      assert all[e] == multiset(popped)[e] + rest[e];
      if e in multiset(popped) {
        assert e in popped;
      }
    }
  }

  // ---------------------------------------------------------------------------
  // The ready queue
  // ---------------------------------------------------------------------------

  /** What happens when a drained handle's turn comes: by then cancelled it is skipped, otherwise it pushes handles. */
  datatype Turn = Turn(cancelled: bool, pushes: seq<Handle>)

  /** What the first `n` turns of a batch push, in order. */
  function Pushed(turns: nat -> Turn, n: nat): seq<Handle> {
    if n == 0 then []
    else if turns(n - 1).cancelled then Pushed(turns, n - 1)
    else Pushed(turns, n - 1) + turns(n - 1).pushes
  }

  /** The handles of a batch that are executed. */
  function Executed(batch: seq<Handle>, turns: nat -> Turn): seq<Handle> {
    if batch == [] then []
    else
      var n := |batch| - 1;
      if turns(n).cancelled then Executed(batch[..n], turns) else Executed(batch[..n], turns) + [batch[n]]
  }

  /** Each executed turn's pushes come together, in order, after those of the turns before it; a skipped turn leaves none. */
  lemma {:induction false} PushedAt(turns: nat -> Turn, n: nat, i: nat)
    requires i < n
    ensures Pushed(turns, i) + (if turns(i).cancelled then [] else turns(i).pushes) <= Pushed(turns, n)
  {
    if i < n - 1 {
      PushedAt(turns, n - 1, i);
    }
  }

  /** What a batch leaves is as long as all its executed turns' pushes together. */
  lemma {:induction false} PushedLength(turns: nat -> Turn, n: nat)
    ensures |Pushed(turns, n)| == PushCount(turns, n)
  {
    if n > 0 {
      PushedLength(turns, n - 1);
    }
  }

  function PushCount(turns: nat -> Turn, n: nat): nat {
    if n == 0 then 0 else PushCount(turns, n - 1) + if turns(n - 1).cancelled then 0 else |turns(n - 1).pushes|
  }

  /** How many of the first `n` turns are not skipped. */
  function Turned(turns: nat -> Turn, n: nat): nat {
    if n == 0 then 0 else Turned(turns, n - 1) + if turns(n - 1).cancelled then 0 else 1
  }

  /** Cancelling a handle skips that handle only: the others are executed in their order. */
  lemma {:induction false} ExecutedAt(batch: seq<Handle>, turns: nat -> Turn, i: nat)
    requires i < |batch|
    ensures |Executed(batch, turns)| == Turned(turns, |batch|)
    ensures Turned(turns, i) <= |Executed(batch, turns)|
    ensures !turns(i).cancelled ==> Turned(turns, i) < |Executed(batch, turns)| && Executed(batch, turns)[Turned(turns, i)] == batch[i]
  {
    var n := |batch| - 1;
    if n > 0 {
      ExecutedAt(batch[..n], turns, if i < n then i else 0);
    }
  }

  /** The same handles have been added at the end of a queue and of a record. */
  ghost predicate Longer(queue: seq<Handle>, queue': seq<Handle>, record: seq<Handle>, record': seq<Handle>) {
    queue <= queue' && record' == record + queue'[|queue|..]
  }

  lemma LongerStill(q: seq<Handle>, q1: seq<Handle>, q2: seq<Handle>, p: seq<Handle>, p1: seq<Handle>, p2: seq<Handle>)
    requires Longer(q, q1, p, p1) && Longer(q1, q2, p1, p2)
    ensures Longer(q, q2, p, p2)
  {
    assert q2[|q|..] == q1[|q|..] + q2[|q1|..];
  }

  class Scheduler {
    var queue: seq<Handle>
    ghost var pushed: seq<Handle>
    ghost var taken: seq<Handle>

    constructor ()
      ensures queue == pushed == taken == []
    {
      queue, pushed, taken := [], [], [];
    }

    /** Handles have been pushed, and none taken. */
    twostate predicate Grew()
      reads this
    {
      Longer(old(queue), queue, old(pushed), pushed) && taken == old(taken)
    }

    method Push(handle: Handle)
      modifies this
      ensures queue == old(queue) + [handle] && Grew()
    {
      queue, pushed := queue + [handle], pushed + [handle];
    }

    method Pop() returns (handle: Option<Handle>)
      modifies this`queue, this`taken
      ensures handle.None? <==> old(queue) == []
      ensures old(queue) == (if handle.Some? then [handle.value] else []) + queue
      ensures taken == old(taken) + if handle.Some? then [handle.value] else []
    {
      if queue == [] {
        return None;
      }
      handle := Some(queue[0]);
      taken := taken + [queue[0]];
      queue := queue[1..];
    }

    /** Swaps the queue for an empty one. */
    method Drain() returns (batch: seq<Handle>)
      modifies this`queue, this`taken
      ensures batch == old(queue) && queue == [] && taken == old(taken) + batch
    {
      if queue == [] {
        return [];
      }
      batch := queue;
      queue, taken := [], taken + batch;
    }

    method PushAll(handles: seq<Handle>)
      modifies this
      ensures queue == old(queue) + handles && pushed == old(pushed) + handles && taken == old(taken)
    {
      var i := 0;
      while i < |handles|
        invariant i <= |handles| && queue == old(queue) + handles[..i]
        invariant pushed == old(pushed) + handles[..i] && taken == old(taken)
      {
        Push(handles[i]);
        i := i + 1;
      }
    }

    /**
     Runs one drained batch. A handle that is not cancelled when its turn comes is
     executed, and pushes what it pushes whether or not it raises; those handles wait
     for the next batch.
     */
    method RunBatch(turns: nat -> Turn) returns (executed: seq<Handle>)
      modifies this
      ensures executed == Executed(old(queue), turns)
      ensures queue == Pushed(turns, |old(queue)|)
      ensures taken == old(taken) + old(queue) && pushed == old(pushed) + queue
    {
      var batch := Drain();
      executed := [];
      var i := 0;
      while i < |batch|
        invariant i <= |batch| && executed == Executed(batch[..i], turns)
        invariant queue == Pushed(turns, i)
        invariant taken == old(taken) + batch && pushed == old(pushed) + queue
      {
        assert batch[..i + 1][..i] == batch[..i];
        if !turns(i).cancelled {
          executed := executed + [batch[i]];
          PushAll(turns(i).pushes);
        }
        i := i + 1;
      }
      assert batch[..i] == batch;
    }
  }

  // ---------------------------------------------------------------------------
  // Runs
  // ---------------------------------------------------------------------------

  /** `pushed` and `taken` record everything ever pushed to and taken from the queue. */
  datatype LoopState = LoopState(timers: multiset<TimerEntry>, queue: seq<Handle>, pushed: seq<Handle>, taken: seq<Handle>)

  datatype LoopStep =
    | PushTask(handle: Handle)
    | PushTimer(entry: TimerEntry)
    | Tick(now: real, due: seq<TimerEntry>, submitOk: bool, completed: seq<Handle>, turns: nat -> Turn)

  ghost predicate LoopAllowed(s: LoopState, step: LoopStep) {
    step.Tick? ==> IsDue(s.timers, step.now, step.due)
  }

  function Enqueue(s: LoopState, handles: seq<Handle>): LoopState {
    s.(queue := s.queue + handles, pushed := s.pushed + handles)
  }

  /** The queue a tick drains: what was ready, then due timers, then what completions scheduled. */
  function Batch(s: LoopState, step: LoopStep): seq<Handle>
    requires step.Tick?
  {
    s.queue + HandlesOf(step.due) + step.completed
  }

  /** A tick whose submission fails returns after queueing the due timers. */
  ghost function LoopNext(s: LoopState, step: LoopStep): LoopState {
    match step
    case PushTask(handle) => Enqueue(s, [handle])
    case PushTimer(entry) => s.(timers := s.timers + multiset{entry})
    case Tick(now, due, submitOk, completed, turns) =>
      var s1 := Enqueue(s.(timers := s.timers - multiset(due)), HandlesOf(due));
      if !submitOk then s1
      else
        var s2 := Enqueue(s1, completed);
        Enqueue(s2.(queue := [], taken := s2.taken + s2.queue), Pushed(turns, |s2.queue|))
  }

  ghost predicate LoopRun(states: seq<LoopState>, steps: seq<LoopStep>) {
    && |states| == |steps| + 1
    && states[0] == LoopState(multiset{}, [], [], [])
    && forall i :: 0 <= i < |steps| ==> LoopAllowed(states[i], steps[i]) && states[i + 1] == LoopNext(states[i], steps[i])
  }

  /** A tick that submits, field by field. */
  lemma TickForm(s: LoopState, step: LoopStep)
    requires step.Tick? && step.submitOk
    ensures var batch := Batch(s, step);
            var left := Pushed(step.turns, |batch|);
            LoopNext(s, step) == LoopState(s.timers - multiset(step.due), left,
                                           s.pushed + HandlesOf(step.due) + step.completed + left, s.taken + batch)
  {
  }

  /** What a submitting tick does once the due timers are queued. */
  ghost function AfterDue(mid: LoopState, completed: seq<Handle>, turns: nat -> Turn): LoopState {
    var batch := mid.queue + completed;
    var left := Pushed(turns, |batch|);
    LoopState(mid.timers, left, mid.pushed + completed + left, mid.taken + batch)
  }

  lemma TickInParts(s: LoopState, step: LoopStep)
    requires step.Tick?
    ensures var mid := Enqueue(s.(timers := s.timers - multiset(step.due)), HandlesOf(step.due));
            LoopNext(s, step) == if step.submitOk then AfterDue(mid, step.completed, step.turns) else mid
  {
    if step.submitOk {
      TickForm(s, step);
    }
  }

  lemma FifoStep(s: LoopState, step: LoopStep)
    requires s.taken + s.queue == s.pushed
    ensures LoopNext(s, step).taken + LoopNext(s, step).queue == LoopNext(s, step).pushed
  {
    if step.Tick? {
      var due := HandlesOf(step.due);
      assert s.taken + (s.queue + due) == s.pushed + due;
      if step.submitOk {
        assert s.taken + Batch(s, step) == s.pushed + due + step.completed;
      }
    } else if step.PushTask? {
      assert s.taken + (s.queue + [step.handle]) == s.pushed + [step.handle];
    }
  }

  /** First in, first out, nothing lost, nothing twice: what was taken, then the queue, is what was pushed. */
  lemma {:induction false} QueueIsFifo(states: seq<LoopState>, steps: seq<LoopStep>)
    requires LoopRun(states, steps)
    ensures states[|steps|].taken + states[|steps|].queue == states[|steps|].pushed
  {
    var n := |steps|;
    if n > 0 {
      QueueIsFifo(states[..n], steps[..n - 1]);
      FifoStep(states[n - 1], steps[n - 1]);
      assert states[n] == LoopNext(states[n - 1], steps[n - 1]);
    }
  }

  /**
   By the end of a tick that submits, everything pushed before it has been taken,
   then the timers it found due, then what its completions scheduled, and nothing that
   its own handles pushed.
   */
  lemma TickTakesBatch(states: seq<LoopState>, steps: seq<LoopStep>, j: nat)
    requires LoopRun(states, steps) && j < |steps| && steps[j].Tick? && steps[j].submitOk
    ensures states[j + 1].taken == states[j].pushed + HandlesOf(steps[j].due) + steps[j].completed
    ensures states[j + 1].pushed == states[j + 1].taken + Pushed(steps[j].turns, |Batch(states[j], steps[j])|)
  {
    QueueIsFifo(states[..j + 1], steps[..j]);
    TickForm(states[j], steps[j]);
    assert states[j + 1] == LoopNext(states[j], steps[j]);
    BatchFollows(states[j].taken, states[j].queue, HandlesOf(steps[j].due), steps[j].completed);
  }

  lemma BatchFollows(taken: seq<Handle>, queue: seq<Handle>, due: seq<Handle>, completed: seq<Handle>)
    ensures taken + (queue + due + completed) == taken + queue + due + completed
  {
  }

  /** Between steps `from` and `to` no tick's clock reached the entry's expiration. */
  ghost predicate NotReached(steps: seq<LoopStep>, from: int, to: int, e: TimerEntry)
    requires to <= |steps|
  {
    forall k :: 0 <= k && from < k < to && steps[k].Tick? ==> steps[k].now < e.expiration
  }

  /** How many of the first `m` steps pushed the entry and have not seen it reached before step `n`. */
  ghost function Unreached(steps: seq<LoopStep>, m: nat, n: nat, e: TimerEntry): nat
    requires m <= n <= |steps|
  {
    if m == 0 then 0
    else Unreached(steps, m - 1, n, e) + if steps[m - 1] == PushTimer(e) && NotReached(steps, m - 1, n, e) then 1 else 0
  }

  /** A step that reaches the entry leaves no push of it waiting; any other leaves them all. */
  lemma {:induction false} UnreachedStep(steps: seq<LoopStep>, m: nat, n: nat, e: TimerEntry)
    requires m < n <= |steps|
    ensures Unreached(steps, m, n, e)
            == if steps[n - 1].Tick? && steps[n - 1].now >= e.expiration then 0 else Unreached(steps, m, n - 1, e)
  {
    if m > 0 {
      UnreachedStep(steps, m - 1, n, e);
      if NotReached(steps, m - 1, n - 1, e) && !NotReached(steps, m - 1, n, e) {
        var k :| m - 1 < k < n && steps[k].Tick? && steps[k].now >= e.expiration;
        assert k == n - 1;
      }
    }
  }

  /** The heap holds an entry as often as it was pushed and not reached since. */
  lemma {:induction false} TimerWaits(states: seq<LoopState>, steps: seq<LoopStep>, n: nat, e: TimerEntry)
    requires LoopRun(states, steps) && n <= |steps|
    ensures states[n].timers[e] == Unreached(steps, n, n, e)
  {
    if n > 0 {
      TimerWaits(states, steps, n - 1, e);
      UnreachedStep(steps, n - 1, n, e);
      var s, step := states[n - 1], steps[n - 1];
      assert LoopAllowed(s, step) && states[n - 1 + 1] == LoopNext(s, step);
      if step.Tick? {
        assert multiset(step.due)[e] == if e.expiration <= step.now then s.timers[e] else 0;
        assert states[n].timers == s.timers - multiset(step.due);
      }
    }
  }

  /**
   Each push of a timer is queued exactly once: a tick queues an entry as often as it was
   pushed before and not reached by an earlier tick, if its clock reaches it. (The clocks
   need not be monotonic.) The handles come after everything pushed before that tick, in
   order of expiration; if the tick submits, the tick itself takes them at that place.
   */
  lemma TimerFiresOnce(states: seq<LoopState>, steps: seq<LoopStep>, j: nat, e: TimerEntry)
    requires LoopRun(states, steps) && j < |steps| && steps[j].Tick?
    ensures multiset(steps[j].due)[e] == if e.expiration <= steps[j].now then Unreached(steps, j, j, e) else 0
    ensures Sorted(steps[j].due)
    ensures forall k :: 0 <= k < |steps[j].due| && steps[j].due[k] == e ==> FiresAt(states[j], steps[j], states[j + 1], k)
  {
    TimerWaits(states, steps, j, e);
    assert LoopAllowed(states[j], steps[j]);
    forall k | 0 <= k < |steps[j].due| && steps[j].due[k] == e ensures FiresAt(states[j], steps[j], states[j + 1], k) {
      DueFires(states, steps, j, k);
    }
  }

  lemma DueFires(states: seq<LoopState>, steps: seq<LoopStep>, j: nat, k: nat)
    requires LoopRun(states, steps) && j < |steps| && steps[j].Tick? && k < |steps[j].due|
    ensures FiresAt(states[j], steps[j], states[j + 1], k)
  {
    assert states[j + 1] == LoopNext(states[j], steps[j]);
    if steps[j].submitOk {
      TickTakesBatch(states, steps, j);
    }
  }

  /** The `k`-th due timer of a tick directly follows what was pushed before and the `k` timers before it. */
  ghost predicate FiresAt(s: LoopState, step: LoopStep, s': LoopState, k: nat)
    requires step.Tick? && k < |step.due|
  {
    && |s.pushed| + k < |s'.pushed| && s'.pushed[|s.pushed| + k] == step.due[k].handle
    && (step.submitOk ==> |s.pushed| + k < |s'.taken| && s'.taken[|s.pushed| + k] == step.due[k].handle)
  }
}
