/**
 The engine object: submissions and completion handling step by step, in the order
 the source does them. `run_tick` works in three batched phases and is proved equal
 to the one-at-a-time loop of module Core.
 */
module Uring {
  import opened Bits
  import opened Indices
  import opened Buffers
  import opened UserData
  import opened Scheduling
  import opened Futures
  import opened Core
  import opened FdStates
  import opened ProvidedRing

  // ---------------------------------------------------------------------------
  // What the batched phases compute
  // ---------------------------------------------------------------------------

  /** Phase one: buffers of all completions, before any future is touched. */
  function ExtractAll(e: Engine, cs: seq<Cqe>): (Engine, seq<Item>) {
    if cs == [] then (e, [])
    else
      var (e1, items) := ExtractAll(e, cs[..|cs| - 1]);
      var (e2, item) := Extract(e1, cs[|cs| - 1]);
      (e2, items + [item])
  }

  /** Phase two: the futures stored for the descriptors of a list. */
  function Taken(futures: map<int, nat>, fds: set<int>): map<int, nat> {
    map fd | fd in futures && fd in fds :: futures[fd]
  }

  /** The descriptors of a list, in order. */
  function FdList(cs: seq<Cqe>): (fds: seq<int>)
    ensures |fds| == |cs| && forall i :: 0 <= i < |cs| ==> fds[i] == FdOf(cs[i].word)
  {
    seq(|cs|, i requires 0 <= i < |cs| => FdOf(cs[i].word))
  }

  lemma FdListStep(cs: seq<Cqe>, i: nat)
    requires i < |cs|
    ensures FdList(cs[..i + 1]) == FdList(cs[..i]) + [FdOf(cs[i].word)]
  {
  }

  function TupleOf(item: Item): Tuple {
    Tuple(item.fd, item.op, item.result, item.data)
  }

  lemma ExtractIgnoresFutures(e: Engine, c: Cqe, futures: map<int, nat>)
    ensures Extract(e.(futures := futures), c) == (Extract(e, c).0.(futures := futures), Extract(e, c).1)
  {
  }

  lemma {:induction false} ExtractAllShape(e: Engine, cs: seq<Cqe>)
    ensures var (e', items) := ExtractAll(e, cs);
            && e'.futures == e.futures && e'.pool.count == e.pool.count && |items| == |cs|
            && forall i :: 0 <= i < |cs| ==> items[i].fd == FdOf(cs[i].word)
  {
    if cs != [] {
      var n := |cs| - 1;
      ExtractAllShape(e, cs[..n]);
      var e1 := ExtractAll(e, cs[..n]).0;
      ExtractKeeps(e1, cs[n]);
      ExtractItem(e1, cs[n]);
    }
  }

  lemma {:induction false} ItemsPrefix(e: Engine, cs: seq<Cqe>, i: nat)
    requires i <= |cs|
    ensures ExtractAll(e, cs[..i]).1 <= ExtractAll(e, cs).1
  {
    if i == |cs| {
      assert cs[..i] == cs;
    } else {
      var n := |cs| - 1;
      ItemsPrefix(e, cs[..n], i);
      assert cs[..n][..i] == cs[..i];
      LastItem(e, cs);
    }
  }

  /** The item of position `i` depends only on the completions before it. */
  lemma ExtractAllPrefix(e: Engine, cs: seq<Cqe>, i: nat)
    requires i < |cs|
    ensures |ExtractAll(e, cs).1| == |cs|
    ensures ExtractAll(e, cs).1[i] == Extract(ExtractAll(e, cs[..i]).0, cs[i]).1
  {
    ExtractAllShape(e, cs);
    ExtractAllShape(e, cs[..i]);
    ItemsPrefix(e, cs, i + 1);
    ExtractAllStep(e, cs, i);
  }

  lemma LastItem(e: Engine, cs: seq<Cqe>)
    requires cs != []
    ensures var before := ExtractAll(e, cs[..|cs| - 1]);
            ExtractAll(e, cs).1 == before.1 + [Extract(before.0, cs[|cs| - 1]).1]
  {
  }

  /** The one-at-a-time loop does the same buffer handling and removes the futures along the way. */
  lemma {:induction false} ProcessIsExtract(t: TickState, cs: seq<Cqe>, foreign: Foreign)
    ensures Process(t, cs, foreign).engine == ExtractAll(t.engine, cs).0.(futures := t.engine.futures - Fds(cs))
  {
    FuturesLeft(t, cs, foreign);
    if cs == [] {
      assert t.engine.futures - Fds(cs) == t.engine.futures;
    } else {
      var n := |cs| - 1;
      ProcessIsExtract(t, cs[..n], foreign);
      var e1 := ExtractAll(t.engine, cs[..n]).0;
      var futures := t.engine.futures - Fds(cs[..n]);
      ExtractIgnoresFutures(e1, cs[n], futures);
      ProcessOneEngine(Process(t, cs[..n], foreign), cs[n], foreign);
    }
  }

  lemma ProcessOneParts(t: TickState, c: Cqe, foreign: Foreign)
    ensures var item := Extract(t.engine, c).1;
            var futures := t.engine.futures;
            var after := ProcessOne(t, c, foreign);
            var resolved := if item.fd in futures then Resolve(t, futures[item.fd], Resolution(item), foreign) else t;
            && after.store == resolved.store && after.queue == resolved.queue && after.events == resolved.events
            && after.tuples == t.tuples + [TupleOf(item)]
  {
    ExtractKeeps(t.engine, c);
  }

  /** One step of phase three matches one step of the simple loop. */
  lemma PhaseThreeStep(t: TickState, cs: seq<Cqe>, i: nat, foreign: Foreign)
    requires i < |cs|
    ensures |ExtractAll(t.engine, cs).1| == |cs|
    ensures var item := ExtractAll(t.engine, cs).1[i];
            var before, after := Process(t, cs[..i], foreign), Process(t, cs[..i + 1], foreign);
            var left := t.engine.futures - Fds(cs[..i]);
            var resolved := if item.fd in left then Resolve(before, left[item.fd], Resolution(item), foreign) else before;
            && after.store == resolved.store && after.queue == resolved.queue && after.events == resolved.events
            && after.tuples == before.tuples + [TupleOf(item)]
            && item.fd == FdOf(cs[i].word)
  {
    var before := Process(t, cs[..i], foreign);
    var e1, left := ExtractAll(t.engine, cs[..i]).0, t.engine.futures - Fds(cs[..i]);
    ExtractAllPrefix(t.engine, cs, i);
    ProcessIsExtract(t, cs[..i], foreign);
    assert before.engine == e1.(futures := left);
    ExtractIgnoresFutures(e1, cs[i], left);
    ExtractItem(e1, cs[i]);
    assert cs[..i + 1][..i] == cs[..i];
    assert Process(t, cs[..i + 1], foreign) == ProcessOne(before, cs[i], foreign);
    ProcessOneParts(before, cs[i], foreign);
  }

  lemma ExtractAllStep(e: Engine, cs: seq<Cqe>, i: nat)
    requires i < |cs|
    ensures var (e1, items) := ExtractAll(e, cs[..i]);
            ExtractAll(e, cs[..i + 1]) == (Extract(e1, cs[i]).0, items + [Extract(e1, cs[i]).1])
  {
    assert cs[..i + 1][..i] == cs[..i];
  }

  lemma {:induction false} ExtractAllReadable(e: Engine, cs: seq<Cqe>)
    requires Readable(e)
    ensures Readable(ExtractAll(e, cs).0) && SameRegion(e, ExtractAll(e, cs).0)
  {
    if cs != [] {
      var n := |cs| - 1;
      ExtractAllReadable(e, cs[..n]);
      ExtractReadable(ExtractAll(e, cs[..n]).0, cs[n]);
    }
  }

  lemma DrainStep(e: Engine, cs: seq<Cqe>, i: nat)
    requires i < |cs|
    ensures var d := Drain(e, cs[..i]);
            var (e', item, ids) := DrainOne(d.engine, cs[i]);
            Drain(e, cs[..i + 1]) == Drained(e', d.items + [item], d.recycled + ids)
  {
    assert cs[..i + 1][..i] == cs[..i];
  }

  /** Once a descriptor has been named, its future is no longer waiting. */
  lemma TakenShrinks(futures: map<int, nat>, cs: seq<Cqe>, i: nat)
    requires i < |cs|
    ensures var fd := FdOf(cs[i].word);
            var waiting := Taken(futures - Fds(cs[..i]), Fds(cs));
            && (fd in waiting <==> fd in futures - Fds(cs[..i]))
            && (fd in waiting ==> waiting[fd] == futures[fd])
            && Taken(futures - Fds(cs[..i + 1]), Fds(cs)) == waiting - {fd}
  {
    FdsExtend(cs, i);
  }

  lemma FdsExtend(cs: seq<Cqe>, i: nat)
    requires i < |cs|
    ensures Fds(cs[..i + 1]) == Fds(cs[..i]) + {FdOf(cs[i].word)}
    ensures FdOf(cs[i].word) in Fds(cs)
  {
    assert cs[..i + 1] == cs[..i] + [cs[i]];
    FdsConcat(cs[..i], cs[i]);
    assert cs[i] in cs;
  }

  /** The ring entry of buffer `bid`; the length is cast to 32 bits. */
  function EntryOf(base: nat, size: nat, bid: nat): Entry {
    Entry(base + bid * size, size % 0x1_0000_0000, bid)
  }

  function Entries(base: nat, size: nat, ids: seq<nat>): (es: seq<Entry>)
    ensures |es| == |ids| && forall i :: 0 <= i < |ids| ==> es[i] == EntryOf(base, size, ids[i])
  {
    seq(|ids|, i requires 0 <= i < |ids| => EntryOf(base, size, ids[i]))
  }

  /** The closure handed to `add_buffers`. */
  function EntryAt(base: nat, size: nat, ids: seq<nat>): nat -> Entry {
    (i: nat) => if i < |ids| then EntryOf(base, size, ids[i]) else Entry(0, 0, 0)
  }

  lemma GivenEntries(base: nat, size: nat, ids: seq<nat>, n: nat)
    requires n <= |ids|
    ensures Given(n, EntryAt(base, size, ids)) == Entries(base, size, ids[..n])
  {
  }

  lemma RemoveAbsent(m: map<int, nat>, k: int)
    requires k !in m
    ensures m - {k} == m
  {
  }

  /** A recorded receive buffer can be read. */
  lemma SlotFits(e: Engine, fd: int)
    requires Readable(e) && fd in e.inflight
    ensures Fits(e.pool.mem, e.pool.size, e.inflight[fd])
  {
    BufferFits(e.pool.mem, e.pool.size, e.pool.count, e.inflight[fd]);
  }

  /** The kernel's and the allocator's answers while an engine starts. */
  datatype Startup = Startup(ringCreated: bool, mapped: bool, buffersRegistered: bool, ringAllocated: bool, ringRegistered: bool)

  datatype StartError = NoRing | NoMemory | BuffersRefused

  /** What the one-at-a-time loop has done to everything but the engine after `i` completions. */
  ghost predicate Reached(t: TickState, cs: seq<Cqe>, i: nat, foreign: Foreign,
                          store: map<nat, Fut>, queue: seq<Handle>, tuples: seq<Tuple>, events: seq<Event>)
    requires i <= |cs|
  {
    var done := Process(t, cs[..i], foreign);
    store == done.store && queue == done.queue && tuples == done.tuples && events == done.events
  }

  lemma ResolutionSettles(item: Item)
    ensures Resolution(item).Finished? || Resolution(item).Failed?
  {
  }

  class UringCore {
    const base: nat
    const pool: BufferPool
    const fds: FdStateManager
    const timers: TimerHeap
    const scheduler: Scheduler
    var pbuf: PBufRing?
    var inflight: map<int, nat>
    var futures: map<int, nat>
    var recvmsg: map<int, Option<nat>>
    var sendmsg: set<int>
    var natives: map<nat, UringFuture>
    ghost var held: multiset<nat>

    ghost function View(): Engine
      reads this, pool, pool.region, fds
    {
      Engine(pool.View(), fds.View(), inflight, futures, recvmsg, sendmsg, held)
    }

    /** The native futures among those handed over, by identity; all others are foreign. */
    ghost function Store(): map<nat, Fut>
      reads this, natives.Values
    {
      map id | id in natives :: natives[id].View()
    }

    ghost predicate Identified()
      reads this, natives.Values
    {
      forall id :: id in natives ==> natives[id].id == id
    }

    /** Timers and ready queue, with everything ever pushed and taken. */
    ghost function Loop(): LoopState
      reads timers, scheduler
    {
      LoopState(timers.heap, scheduler.queue, scheduler.pushed, scheduler.taken)
    }

    /** The ring's slots are not the buffer region. */
    ghost predicate Apart()
      reads this, pbuf
    {
      pbuf != null ==> pbuf.slots as object != pool.region
    }

    /** Around a new pool; the provided-buffer ring is optional. */
    constructor (base: nat, pool: BufferPool, a: Startup)
      ensures this.base == base && this.pool == pool && View() == NewEngine(old(pool.View()))
      ensures inflight == map[] && futures == map[] && recvmsg == map[] && sendmsg == {} && fds.states == map[]
      ensures fresh(fds) && fresh(timers) && fresh(scheduler)
      ensures Loop() == LoopState(multiset{}, [], [], []) && natives == map[]
      ensures Apart() && (pbuf != null <==> a.ringAllocated && a.ringRegistered && pool.count <= 0x8000)
      ensures pbuf != null ==> fresh(pbuf) && fresh(pbuf.slots) && pbuf.Shape()
      ensures pbuf != null ==> pbuf.Contents() == Entries(base, pool.size, Range(pool.count))
    {
      this.base, this.pool := base, pool;
      fds := new FdStateManager();
      timers := new TimerHeap();
      scheduler := new Scheduler();
      inflight, futures, recvmsg, sendmsg, natives, held := map[], map[], map[], {}, map[], multiset{};
      pbuf := null;
      new;
      pbuf := PopulatedRing(base, pool.size, pool.count, a);
    }

    /** Every way the start of an engine can go, in the order of the source. */
    static method Create(base: nat, size: nat, count: nat, a: Startup) returns (r: Result<UringCore, StartError>)
      ensures r.Failure? <==> !a.ringCreated || NewPool(size, count, a.mapped).None? || !a.buffersRegistered
      ensures r.Failure? ==>
                r.error == if !a.ringCreated then NoRing else if NewPool(size, count, a.mapped).None? then NoMemory else BuffersRefused
      ensures r.Success? ==>
                var core := r.value;
                && fresh(core) && core.View() == NewEngine(NewPool(size, count, true).value)
                && core.Loop() == LoopState(multiset{}, [], [], []) && core.natives == map[] && core.Apart()
                && (core.pbuf != null <==> a.ringAllocated && a.ringRegistered && count <= 0x8000)
                && (core.pbuf != null ==> core.pbuf.Shape() && core.pbuf.Contents() == Entries(base, size, Range(count)))
    {
      if !a.ringCreated {
        return Failure(NoRing);
      }
      var pool := BufferPool.Create(size, count, a.mapped);
      if pool == null {
        return Failure(NoMemory);
      }
      if !a.buffersRegistered {
        return Failure(BuffersRefused);
      }
      var core := new UringCore(base, pool, a);
      return Success(core);
    }

    /** The provided-buffer ring with every buffer published, if it can be made and the kernel agrees. */
    static method PopulatedRing(base: nat, size: nat, count: nat, a: Startup) returns (ring: PBufRing?)
      ensures ring != null <==> a.ringAllocated && a.ringRegistered && count <= 0x8000
      ensures ring != null ==> fresh(ring) && fresh(ring.slots) && ring.Shape() && ring.head == 0 && ring.total == count
      ensures ring != null ==> ring.Contents() == Entries(base, size, Range(count)) && count <= ring.slots.Length
      ensures ring != null ==> ring.View() == Appended(RingView(seq(ring.slots.Length, i => Entry(0, 0, 0)), 0, 0, 0), Entries(base, size, Range(count)))
    {
      RingSizeIff(count);
      ring := PBufRing.Create(NextPowerOfTwo(count) % 0x1_0000, 1, a.ringAllocated);
      if ring == null || !a.ringRegistered {
        return null;
      }
      var narrow := count % 0x1_0000;
      var getBuffer := EntryAt(base, size, Range(count));
      ghost var es, empty := Given(narrow, getBuffer), ring.View();
      assert es == Entries(base, size, Range(count)) by {
        assert narrow == count && Range(count)[..count] == Range(count);
        GivenEntries(base, size, Range(count), count);
      }
      AppendedKeepsShape(empty, es);
      ring.AddBuffers(narrow, getBuffer);
      assert ring.View() == Appended(empty, es);
    }

    /** From now on the future with this identity is a native one. */
    method Adopt(future: UringFuture)
      requires Identified() && future.id !in natives
      modifies this`natives
      ensures Identified() && natives == old(natives)[future.id := future]
    {
      natives := natives[future.id := future];
    }

    method PushReady(handle: Handle)
      modifies scheduler
      ensures Loop() == Scheduling.LoopNext(old(Loop()), PushTask(handle))
    {
      scheduler.Push(handle);
    }

    method PushTimerAt(expiration: real, handle: Handle)
      modifies timers
      ensures Loop() == Scheduling.LoopNext(old(Loop()), PushTimer(TimerEntry(expiration, handle)))
    {
      timers.Push(expiration, handle);
    }

    method RegisterDescriptor(fd: int, t: SocketType)
      modifies fds
      ensures View() == Core.RegisterFd(old(View()), fd, t)
    {
      fds.RegisterState(fd, t);
    }

    method UnregisterDescriptor(fd: int)
      modifies this`inflight, pool, fds
      ensures View() == Core.UnregisterFd(old(View()), fd)
    {
      if fd in inflight {
        var index := inflight[fd];
        inflight := inflight - {fd};
        pool.ReleaseBuffer(index, pool.generation);
      }
      var got := fds.UnregisterState(fd);
      if got.Some? {
        var buffers := got.value;
        ghost var free := pool.free;
        var i := 0;
        while i < |buffers|
          invariant i <= |buffers|
          invariant pool.free == free + QueuedIndices(buffers)[..i]
          invariant pool.quarantine == old(pool.quarantine) && pool.generation == old(pool.generation)
          modifies pool
        {
          pool.ReleaseBuffer(buffers[i].index, pool.generation);
          i := i + 1;
        }
        assert QueuedIndices(buffers)[..i] == QueuedIndices(buffers);
      } else {
        assert pool.free + [] == pool.free;
      }
    }

    method SubmitRecv(fd: int, future: nat, now: nat, prepOk: bool, flushOk: bool)
      returns (error: Option<SubmitError>, ghost op: Option<Op>)
      modifies this`inflight, this`futures, pool, fds
      ensures Submission(View(), error, op) == SubmitReceive(old(View()), Recv, fd, future, now, prepOk, flushOk)
    {
      if fd !in fds.states || !ShouldSubmit(fds.states[fd]) {
        return None, None;
      }
      var got := pool.AcquireBuffer(now);
      if got.None? {
        return Some(NoBuffers), None;
      }
      var index := got.value;
      var r := fds.WithStateMut(fd, OnSubmit);
      if r.Failure? {
        pool.ReleaseBuffer(index, pool.generation);
        return Some(BadState(r.error)), None;
      }
      futures := futures[fd := future];
      if !prepOk {
        pool.ReleaseBuffer(index, pool.generation);
        futures := futures - {fd};
        return Some(QueueFull), None;
      }
      TrackBuffer(fd, index);
      return FlushError(flushOk), Some(Op(Recv, fd, index, Some(future)));
    }

    method SubmitRecvFrom(fd: int, future: nat, now: nat, prepOk: bool, flushOk: bool)
      returns (error: Option<SubmitError>, ghost op: Option<Op>)
      modifies this`inflight, this`futures, this`recvmsg, pool, fds
      ensures Submission(View(), error, op) == SubmitReceive(old(View()), RecvMsg, fd, future, now, prepOk, flushOk)
    {
      if fd !in fds.states || !ShouldSubmit(fds.states[fd]) {
        return None, None;
      }
      var got := pool.AcquireBuffer(now);
      if got.None? {
        return Some(NoBuffers), None;
      }
      var index := got.value;
      var r := fds.WithStateMut(fd, OnSubmit);
      if r.Failure? {
        pool.ReleaseBuffer(index, pool.generation);
        return Some(BadState(r.error)), None;
      }
      futures := futures[fd := future];
      if !prepOk {
        pool.ReleaseBuffer(index, pool.generation);
        futures := futures - {fd};
        return Some(QueueFull), None;
      }
      recvmsg := recvmsg[fd := None];
      TrackBuffer(fd, index);
      return FlushError(flushOk), Some(Op(RecvMsg, fd, index, Some(future)));
    }

    /** Records a receive's buffer and releases one still recorded for the descriptor. */
    method TrackBuffer(fd: int, index: nat)
      modifies this`inflight, pool
      ensures View() == Track(old(View()), fd, index)
    {
      if fd in inflight {
        var previous := inflight[fd];
        inflight := inflight[fd := index];
        pool.ReleaseBuffer(previous, pool.generation);
      } else {
        inflight := inflight[fd := index];
      }
    }

    /** The copy panics on a payload that does not fit the buffer it has just taken. */
    method SubmitSendData(fd: int, data: seq<byte>, future: nat, now: nat, prepOk: bool, flushOk: bool)
      returns (error: Option<SubmitError>, ghost op: Option<Op>)
      requires Indexed(View())
      modifies this`futures, this`held, pool, pool.region
      ensures Submission(View(), error, op) == SubmitSend(old(View()), fd, data, future, now, prepOk, flushOk)
    {
      ghost var e := View();
      AcquireTakes(e.pool, now);
      var got := pool.AcquireBuffer(now);
      if got.None? {
        return Some(NoBuffers), None;
      }
      AcquiredExists(e, now);
      if |data| > pool.size {
        held := held + multiset{got.value};
        return Some(Panicked), None;
      }
      pool.Fill(got.value, data);
      ghost var p := Acquire(e.pool, now).0;
      assert pool.View() == p.(mem := StoreIn(p, got.value, data));
      futures := futures[fd := future];
      if !prepOk {
        pool.ReleaseBuffer(got.value, pool.generation);
        futures := futures - {fd};
        UpdateThenRemove(e.futures, fd, future);
        return Some(QueueFull), None;
      }
      held := held + multiset{got.value};
      return FlushError(flushOk), Some(Op(Send, fd, got.value, Some(future)));
    }

    /** The future is stored only once the flush has succeeded. */
    method SubmitSendToAddress(fd: int, future: nat, addressOk: bool, prepOk: bool, flushOk: bool)
      returns (error: Option<SubmitError>, ghost op: Option<Op>)
      modifies this`futures, this`sendmsg
      ensures Submission(View(), error, op) == SubmitSendTo(old(View()), fd, future, addressOk, prepOk, flushOk)
    {
      if !addressOk {
        return Some(BadAddress), None;
      }
      if !prepOk {
        return Some(QueueFull), None;
      }
      sendmsg := sendmsg + {fd};
      if !flushOk {
        return Some(FlushFailed), Some(Op(SendMsg, fd, 0, None));
      }
      futures := futures[fd := future];
      return None, Some(Op(SendMsg, fd, 0, Some(future)));
    }

    method SubmitAcceptOn(fd: int, future: nat, prepOk: bool, flushOk: bool)
      returns (error: Option<SubmitError>, ghost op: Option<Op>)
      modifies this`futures
      ensures Submission(View(), error, op) == SubmitAccept(old(View()), fd, future, prepOk, flushOk)
    {
      UpdateThenRemove(futures, fd, future);
      futures := futures[fd := future];
      if !prepOk {
        futures := futures - {fd};
        return Some(QueueFull), None;
      }
      return FlushError(flushOk), Some(Op(Accept, fd, 0, Some(future)));
    }

    /** The bytes of a buffer of this pool. */
    method ReadBuffer(index: nat, len: nat) returns (bytes: seq<byte>)
      requires Fits(pool.region[..], pool.size, index)
      ensures bytes == SliceOr(View().pool, index, len)
    {
      bytes := pool.Read(index, len);
    }

    // -------------------------------------------------------------------------
    // run_tick
    // -------------------------------------------------------------------------

    /** Takes the recorded buffer of a receive, copies its bytes out and releases it. */
    method TakeReceived(c: Cqe) returns (data: Option<Obj>)
      requires Readable(View())
      modifies this`inflight, this`recvmsg, pool
      ensures View() == ExtractReceive(old(View()), c).0
      ensures data == ExtractReceive(old(View()), c).1.data
    {
      var fd, op := FdOf(c.word), OpOf(c.word);
      if fd !in inflight {
        return None;
      }
      SlotFits(View(), fd);
      var index := inflight[fd];
      inflight := inflight - {fd};
      var address: Option<nat> := None;
      if op.RecvMsg? {
        if fd in recvmsg && c.result > 0 {
          address := recvmsg[fd];
        }
        recvmsg := recvmsg - {fd};
      }
      data := None;
      if c.result > 0 {
        var bytes := ReadBuffer(index, c.result);
        data := Some(if address.Some? then BytesFrom(bytes, address.value) else Bytes(bytes));
      }
      pool.ReleaseBuffer(index, pool.generation);
    }

    /** Phase one for one completion. */
    method ExtractData(c: Cqe) returns (item: Item)
      requires Readable(View()) && SelectionExists(c, pool.count)
      modifies this`inflight, this`recvmsg, this`sendmsg, pool
      ensures (View(), item) == Extract(old(View()), c)
    {
      var fd, op := FdOf(c.word), OpOf(c.word);
      var data: Option<Obj> := None;
      if op.RecvMulti? {
        var selected := BufferIndex(c);
        if selected.Some? && c.result > 0 {
          BufferFits(pool.region[..], pool.size, pool.count, selected.value);
          var bytes := ReadBuffer(selected.value, c.result);
          data := Some(Bytes(bytes));
        }
      }
      if op.SendMsg? {
        sendmsg := sendmsg - {fd};
        data := Some(Num(c.result));
      } else if op.Recv? || op.RecvMsg? {
        data := TakeReceived(c);
      }
      item := Item(fd, op, c.result, data);
    }

    method PhaseOne(cs: seq<Cqe>) returns (items: seq<Item>, fdsToResolve: seq<int>)
      requires Readable(View()) && SelectsExisting(cs, pool.count)
      modifies this`inflight, this`recvmsg, this`sendmsg, pool
      ensures (View(), items) == ExtractAll(old(View()), cs)
      ensures fdsToResolve == FdList(cs)
    {
      ghost var e := View();
      items, fdsToResolve := [], [];
      var i := 0;
      while i < |cs|
        invariant i <= |cs|
        invariant View() == ExtractAll(e, cs[..i]).0
        invariant items == ExtractAll(e, cs[..i]).1
        invariant fdsToResolve == FdList(cs[..i])
      {
        ghost var before := ExtractAll(e, cs[..i]).0;
        ExtractAllStep(e, cs, i);
        ExtractAllReadable(e, cs[..i]);
        var item := ExtractData(cs[i]);
        assert View() == Extract(before, cs[i]).0 && item == Extract(before, cs[i]).1;
        ExtractItem(before, cs[i]);
        items := items + [item];
        FdListStep(cs, i);
        fdsToResolve := fdsToResolve + [item.fd];
        i := i + 1;
      }
      assert cs[..i] == cs;
    }

    method PhaseTwo(fdsToResolve: seq<int>, ghost cs: seq<Cqe>) returns (resolved: map<int, nat>)
      requires fdsToResolve == FdList(cs)
      modifies this`futures
      ensures futures == old(futures) - Fds(cs)
      ensures resolved == Taken(old(futures), Fds(cs))
    {
      resolved := map[];
      var i := 0;
      while i < |fdsToResolve|
        invariant i <= |fdsToResolve|
        invariant futures == old(futures) - Fds(cs[..i])
        invariant resolved == Taken(old(futures), Fds(cs[..i]))
      {
        var fd := fdsToResolve[i];
        FdsExtend(cs, i);
        if fd in futures {
          resolved := resolved[fd := futures[fd]];
        }
        futures := futures - {fd};
        i := i + 1;
      }
      assert cs[..i] == cs;
    }

    /** Settles one future: natively by the fast path, otherwise through its own method; errors are printed. */
    method ResolveFuture(future: nat, state: FutState, foreign: Foreign, ghost t: TickState)
      requires t.store == Store() && t.queue == scheduler.queue && Identified() && (state.Finished? || state.Failed?)
      modifies natives.Values, scheduler
      ensures var after := Resolve(t, future, state, foreign); Store() == after.store && scheduler.queue == after.queue
      ensures scheduler.Grew()
    {
      if future in natives {
        var native := natives[future];
        match state
        case Finished(value) => var _ := native.SetResultFast(scheduler, value);
        case Failed(error) => var _ := native.SetExceptionFast(scheduler, error);
        ghost var r := SettleFast(t.store[future], future, state, t.queue);
        assert native.View() == r.fut;
        assert forall id :: id in natives && id != future ==> natives[id].View() == t.store[id];
        assert Store() == t.store[future := r.fut];
      } else {
        scheduler.PushAll(foreign(future, state));
        assert scheduler.queue[|t.queue|..] == foreign(future, state);
      }
    }

    /** Resolves the future waiting for an item's descriptor, if there is one. */
    method ResolveItem(item: Item, waiting: map<int, nat>, foreign: Foreign, ghost t: TickState)
      returns (rest: map<int, nat>, ghost events: seq<Event>)
      requires t.store == Store() && Identified() && t.queue == scheduler.queue
      modifies natives.Values, scheduler
      ensures rest == waiting - {item.fd}
      ensures var after := if item.fd in waiting then Resolve(t, waiting[item.fd], Resolution(item), foreign) else t;
              Store() == after.store && scheduler.queue == after.queue && t.events + events == after.events
      ensures scheduler.Grew()
    {
      rest, events := waiting, [];
      if item.fd in waiting {
        var future := waiting[item.fd];
        rest := waiting - {item.fd};
        ResolutionSettles(item);
        ResolveFuture(future, Resolution(item), foreign, t);
        events := [Event(future, Resolution(item))];
      } else {
        RemoveAbsent(waiting, item.fd);
      }
      assert Identified();
    }

    /** One turn of phase three: the future, then the result tuple. */
    method HandleItem(i: nat, item: Item, waiting: map<int, nat>, before: seq<Tuple>, foreign: Foreign,
                      ghost t: TickState, ghost cs: seq<Cqe>, ghost resolved: seq<Event>)
      returns (rest: map<int, nat>, results: seq<Tuple>, ghost events: seq<Event>)
      requires i < |cs| == |ExtractAll(t.engine, cs).1| && item == ExtractAll(t.engine, cs).1[i]
      requires waiting == Taken(t.engine.futures - Fds(cs[..i]), Fds(cs)) && Identified()
      requires Reached(t, cs, i, foreign, Store(), scheduler.queue, before, resolved)
      modifies natives.Values, scheduler
      ensures rest == Taken(t.engine.futures - Fds(cs[..i + 1]), Fds(cs)) && scheduler.Grew()
      ensures Reached(t, cs, i + 1, foreign, Store(), scheduler.queue, results, events)
    {
      PhaseThreeStep(t, cs, i, foreign);
      TakenShrinks(t.engine.futures, cs, i);
      ghost var more;
      rest, more := ResolveItem(item, waiting, foreign, Process(t, cs[..i], foreign));
      events := resolved + more;
      results := before + [TupleOf(item)];
    }

    method PhaseThree(items: seq<Item>, resolved: map<int, nat>, foreign: Foreign, ghost t: TickState, ghost cs: seq<Cqe>)
      returns (results: seq<Tuple>, ghost events: seq<Event>)
      requires t.store == Store() && Identified() && t.queue == scheduler.queue && t.tuples == [] && t.events == []
      requires items == ExtractAll(t.engine, cs).1 && resolved == Taken(t.engine.futures, Fds(cs))
      modifies natives.Values, scheduler
      ensures Reached(t, cs, |cs|, foreign, Store(), scheduler.queue, results, events)
      ensures scheduler.Grew()
    {
      ExtractAllShape(t.engine, cs);
      ghost var q0, p0 := scheduler.queue, scheduler.pushed;
      results, events := [], [];
      var waiting := resolved;
      var i := 0;
      assert waiting == Taken(t.engine.futures - Fds(cs[..0]), Fds(cs));
      while i < |items|
        invariant i <= |items| == |cs|
        invariant waiting == Taken(t.engine.futures - Fds(cs[..i]), Fds(cs))
        invariant Reached(t, cs, i, foreign, Store(), scheduler.queue, results, events)
        invariant Longer(q0, scheduler.queue, p0, scheduler.pushed) && scheduler.taken == old(scheduler.taken)
      {
        ghost var q1, p1 := scheduler.queue, scheduler.pushed;
        waiting, results, events := HandleItem(i, items[i], waiting, results, foreign, t, cs, events);
        LongerStill(q0, q1, scheduler.queue, p0, p1, scheduler.pushed);
        i := i + 1;
      }
    }

    /** The three phases over one batch equal the loop that handles completions one at a time. */
    method ProcessCompletions(cs: seq<Cqe>, foreign: Foreign) returns (results: seq<Tuple>, ghost events: seq<Event>)
      requires Readable(View()) && SelectsExisting(cs, pool.count) && Identified()
      modifies this`inflight, this`futures, this`recvmsg, this`sendmsg, natives.Values, pool, scheduler
      ensures var all := Process(TickState(old(View()), old(Store()), old(scheduler.queue), [], []), cs, foreign);
              && View() == all.engine && Store() == all.store && scheduler.queue == all.queue
              && results == all.tuples && events == all.events
      ensures Readable(View()) && scheduler.Grew()
    {
      ghost var t := TickState(View(), Store(), scheduler.queue, [], []);
      ExtractAllReadable(t.engine, cs);
      ProcessIsExtract(t, cs, foreign);
      ExtractAllShape(t.engine, cs);
      var items, fdsToResolve := PhaseOne(cs);
      var resolved := PhaseTwo(fdsToResolve, cs);
      results, events := PhaseThree(items, resolved, foreign, t, cs);
      assert cs[..|cs|] == cs;
    }

    /** Completions, with the handles they schedule told apart from what was ready before. */
    method Complete(cs: seq<Cqe>, foreign: Foreign)
      returns (results: seq<Tuple>, ghost completed: seq<Handle>, ghost events: seq<Event>)
      requires Readable(View()) && SelectsExisting(cs, pool.count) && Identified()
      modifies this`inflight, this`futures, this`recvmsg, this`sendmsg, natives.Values, pool, scheduler
      ensures var all := Process(TickState(old(View()), old(Store()), old(scheduler.queue), [], []), cs, foreign);
              && View() == all.engine && Store() == all.store && results == all.tuples && events == all.events
              && all.queue == old(scheduler.queue) + completed
      ensures completed == Scheduled(old(Store()), events, |events|, foreign)
      ensures Loop() == Enqueue(old(Loop()), completed) && Readable(View())
    {
      ghost var queued := scheduler.queue;
      QueueFollowsEvents(TickState(View(), Store(), scheduler.queue, [], []), cs, foreign);
      results, events := ProcessCompletions(cs, foreign);
      completed := scheduler.queue[|queued|..];
      assert scheduler.queue == queued + completed;
    }

    /** The part of a tick after a successful flush: completions, then one batch. */
    method CompleteAndRun(cs: seq<Cqe>, foreign: Foreign, turns: nat -> Turn)
      returns (results: seq<Tuple>, executed: seq<Handle>, ghost completed: seq<Handle>, ghost events: seq<Event>)
      requires Readable(View()) && SelectsExisting(cs, pool.count) && Identified()
      modifies this`inflight, this`futures, this`recvmsg, this`sendmsg, natives.Values, pool, scheduler
      ensures var all := Process(TickState(old(View()), old(Store()), old(scheduler.queue), [], []), cs, foreign);
              && View() == all.engine && Store() == all.store && results == all.tuples && events == all.events
              && all.queue == old(scheduler.queue) + completed && executed == Executed(all.queue, turns)
      ensures completed == Scheduled(old(Store()), events, |events|, foreign)
      ensures Loop() == AfterDue(old(Loop()), completed, turns)
      ensures Readable(View())
    {
      results, completed, events := Complete(cs, foreign);
      ghost var e, store := View(), Store();
      executed := scheduler.RunBatch(turns);
      assert View() == e && Store() == store;
    }

    /** The timers that are due go to the ready queue, earliest first. */
    method QueueDue(now: real) returns (ghost due: seq<TimerEntry>)
      modifies timers, scheduler
      ensures IsDue(old(timers.heap), now, due)
      ensures Loop() == Enqueue(old(Loop()).(timers := old(timers.heap) - multiset(due)), HandlesOf(due))
    {
      var expired;
      expired, due := timers.PopExpired(now);
      scheduler.PushAll(expired);
    }

    /**
     One tick. `submitOk` is the outcome of flushing submissions; a failure returns
     with the due timers already queued. `turns` says what happens to the drained handles.
     Timers and queue take one step of the loop of module Scheduling, `completed` being
     what the completions scheduled; everything else is the one-at-a-time loop.
     */
    method RunTick(now: real, submitOk: bool, cs: seq<Cqe>, foreign: Foreign, turns: nat -> Turn)
      returns (results: Option<seq<Tuple>>, executed: seq<Handle>,
               ghost due: seq<TimerEntry>, ghost completed: seq<Handle>, ghost events: seq<Event>)
      requires Readable(View()) && SelectsExisting(cs, pool.count) && Identified()
      modifies this`inflight, this`futures, this`recvmsg, this`sendmsg, natives.Values, pool, scheduler, timers
      ensures LoopAllowed(old(Loop()), Tick(now, due, submitOk, completed, turns))
      ensures Loop() == Scheduling.LoopNext(old(Loop()), Tick(now, due, submitOk, completed, turns))
      ensures !submitOk ==> results.None? && executed == [] && View() == old(View()) && Store() == old(Store())
      ensures submitOk ==>
                var queued := old(scheduler.queue) + HandlesOf(due);
                var all := Process(TickState(old(View()), old(Store()), queued, [], []), cs, foreign);
                && View() == all.engine && Store() == all.store
                && results == Some(all.tuples) && events == all.events
                && all.queue == queued + completed && executed == Executed(all.queue, turns)
                && completed == Scheduled(old(Store()), events, |events|, foreign)
      ensures Readable(View())
    {
      ghost var loop, e, store := Loop(), View(), Store();
      executed, events, completed := [], [], [];
      due := QueueDue(now);
      assert View() == e && Store() == store && Identified();
      if !submitOk {
        results := None;
        TickInParts(loop, Tick(now, due, submitOk, completed, turns));
        return;
      }
      var tuples;
      tuples, executed, completed, events := CompleteAndRun(cs, foreign, turns);
      results := Some(tuples);
      TickInParts(loop, Tick(now, due, submitOk, completed, turns));
    }

    // -------------------------------------------------------------------------
    // drain_completions
    // -------------------------------------------------------------------------

    method DrainCompletion(c: Cqe) returns (item: Item, recycled: seq<nat>)
      requires Readable(View()) && SelectionExists(c, pool.count)
      modifies this`inflight, pool, fds
      ensures (View(), item, recycled) == DrainOne(old(View()), c)
      ensures Readable(View())
    {
      var fd, op := FdOf(c.word), OpOf(c.word);
      var selected := BufferIndex(c);
      var data: Option<Obj> := None;
      recycled := [];
      if selected.Some? {
        BufferFits(pool.region[..], pool.size, pool.count, selected.value);
        if c.result > 0 {
          var bytes := ReadBuffer(selected.value, c.result);
          data := Some(Bytes(bytes));
        }
        pool.ReleaseBuffer(selected.value, pool.generation);
        if op.RecvMulti? {
          recycled := [selected.value];
        }
      } else if op.Recv? {
        var _ := fds.WithStateMut(fd, OnCompletionEmpty);
        if fd in inflight {
          var index := inflight[fd];
          inflight := inflight - {fd};
          BufferFits(pool.region[..], pool.size, pool.count, index);
          if c.result > 0 {
            var bytes := ReadBuffer(index, c.result);
            data := Some(Bytes(bytes));
          }
          pool.ReleaseBuffer(index, pool.generation);
        }
      }
      item := Item(fd, op, c.result, data);
    }

    method DrainAll(cs: seq<Cqe>) returns (results: seq<Item>, recycled: seq<nat>)
      requires Readable(View()) && SelectsExisting(cs, pool.count)
      modifies this`inflight, pool, fds
      ensures Drained(View(), results, recycled) == Drain(old(View()), cs) && Readable(View())
    {
      ghost var e := View();
      recycled, results := [], [];
      var i := 0;
      while i < |cs|
        invariant i <= |cs|
        invariant View() == Drain(e, cs[..i]).engine
        invariant results == Drain(e, cs[..i]).items && recycled == Drain(e, cs[..i]).recycled
        invariant Readable(View())
      {
        DrainStep(e, cs, i);
        ghost var before := Drain(e, cs[..i]).engine;
        var item, more := DrainCompletion(cs[i]);
        assert (View(), item, more) == DrainOne(before, cs[i]);
        results := results + [item];
        recycled := recycled + more;
        i := i + 1;
      }
      assert cs[..i] == cs;
    }

    /** Publishes recycled buffers to the kernel's ring, as many as a 16-bit count says. */
    method Replenish(recycled: seq<nat>)
      requires pbuf != null && Apart() && pbuf.Shape()
      modifies pbuf, pbuf.slots
      ensures pbuf.Shape() && pbuf.View() == Appended(old(pbuf.View()), Entries(base, pool.size, recycled[..|recycled| % 0x1_0000]))
    {
      var count := |recycled| % 0x1_0000;
      var getBuffer := EntryAt(base, pool.size, recycled);
      GivenEntries(base, pool.size, recycled, count);
      pbuf.AddBuffers(count, getBuffer);
    }

    /**
     Drains a batch and hands its provided buffers back to the kernel's ring in one
     publication. A batch recycles at most one buffer for each completion, so all of them
     are published when there are fewer than 65536 completions.
     */
    method DrainCompletions(cs: seq<Cqe>) returns (results: seq<Item>, ghost ids: seq<nat>)
      requires Readable(View()) && SelectsExisting(cs, pool.count)
      requires Apart() && (pbuf != null ==> pbuf.Shape())
      modifies this`inflight, pool, fds, pbuf, if pbuf == null then {} else {pbuf.slots}
      ensures Drained(View(), results, ids) == Drain(old(View()), cs) && Readable(View())
      ensures pbuf != null ==> pbuf.Shape()
      ensures pbuf != null && ids != [] ==>
                pbuf.View() == Appended(old(pbuf.View()), Entries(base, pool.size, ids[..|ids| % 0x1_0000]))
      ensures pbuf != null && ids == [] ==> pbuf.View() == old(pbuf.View())
      ensures |ids| <= |cs|
    {
      var recycled;
      DrainRecycles(View(), cs);
      results, recycled := DrainAll(cs);
      ids := recycled;
      if recycled != [] && pbuf != null {
        ghost var e := View();
        Replenish(recycled);
        assert View() == e;
      }
    }
  }

  lemma {:induction false} DrainRecycles(e: Engine, cs: seq<Cqe>)
    ensures |Drain(e, cs).recycled| <= |cs|
  {
    if cs != [] {
      DrainRecycles(e, cs[..|cs| - 1]);
    }
  }
}
