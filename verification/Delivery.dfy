/**
 End-to-end delivery. A system of client, engine and kernel in which buffers are
 recycled freely among descriptors and operations may share a descriptor. Futures are
 stored by descriptor alone, so an operation can lose its future to another one. One
 theorem says of each single operation when its completion settles its own future with
 its own data; another says when all of them do.
 */
module Delivery {
  import opened Bits
  import opened Indices
  import opened Buffers
  import opened UserData
  import opened Scheduling
  import opened Futures
  import opened Core

  /** A completed operation: its result, the bytes the kernel wrote, and the sender's address. */
  datatype Completion = Completion(op: Op, result: int, written: seq<byte>, address: Option<nat>, flags: nat)

  const RING_GENERATION: nat := 1

  /** The queue entry the engine sees. */
  function CqeOf(k: Completion): Cqe {
    Cqe(Encode(k.op.fd, k.op.kind, RING_GENERATION), k.result, k.flags)
  }

  function CqesOf(ks: seq<Completion>): (cs: seq<Cqe>)
    ensures |cs| == |ks| && forall i :: 0 <= i < |ks| ==> cs[i] == CqeOf(ks[i])
  {
    seq(|ks|, i requires 0 <= i < |ks| => CqeOf(ks[i]))
  }

  /**
   `pending` are operations in the submission queue or the kernel, `done` those in the
   completion queue, `seen` those already taken by a tick; `delivered` lists, for each of
   the latter, the futures its completion resolved.
   */
  datatype System = System(
    engine: Engine,
    store: map<nat, Fut>,
    queue: seq<Handle>,
    pending: seq<Op>,
    done: seq<Completion>,
    seen: seq<Completion>,
    delivered: seq<seq<Event>>)

  datatype Move =
    | ClientCalls(step: Step)
    | KernelCompletes(i: nat, result: int, content: seq<byte>, address: Option<nat>, flags: nat)
    | RunTick(foreign: Foreign)

  /** What the caller of a submission is owed once it completes. */
  function Owed(k: Completion): seq<Event> {
    if k.op.future.None? then [] else [Event(k.op.future.value, OwedState(k))]
  }

  function OwedState(k: Completion): FutState {
    if k.result < 0 then Failed(OsError(-k.result))
    else match k.op.kind
      case Recv => Finished(Bytes(k.written))
      case RecvMsg => Finished(if k.result > 0 && k.address.Some? then BytesFrom(k.written, k.address.value) else Bytes(k.written))
      case _ => Finished(Num(k.result))
  }

  function AllOwed(ks: seq<Completion>): seq<Event> {
    if ks == [] then [] else AllOwed(ks[..|ks| - 1]) + Owed(ks[|ks| - 1])
  }

  // ---------------------------------------------------------------------------
  // Moves
  // ---------------------------------------------------------------------------

  function OpsOf(done: seq<Completion>): (ops: seq<Op>)
    ensures |ops| == |done| && forall i :: 0 <= i < |done| ==> ops[i] == done[i].op
  {
    seq(|done|, i requires 0 <= i < |done| => done[i].op)
  }

  /** Submitted, and not yet taken by a tick. */
  predicate Outstanding(s: System, op: Op) {
    op in s.pending || op in OpsOf(s.done)
  }

  /** The descriptors with a pending operation that carries a future. */
  function Waiting(pending: seq<Op>): set<int> {
    set op | op in pending && op.future.Some? :: op.fd
  }

  function Ready(done: seq<Completion>): set<int> {
    set k | k in done && k.op.future.Some? :: k.op.fd
  }

  /** Some outstanding operation on the descriptor carries a future. */
  predicate Carried(s: System, fd: int) {
    fd in Waiting(s.pending) || fd in Ready(s.done)
  }

  function IsBuffered(kind: OpType): bool {
    kind.Recv? || kind.RecvMsg?
  }

  /** A receive is outstanding on the descriptor. */
  ghost predicate Receiving(s: System, fd: int) {
    exists op :: Outstanding(s, op) && op.fd == fd && IsBuffered(op.kind)
  }

  /** No outstanding operation carries the future. */
  ghost predicate Unused(s: System, future: nat) {
    forall op :: Outstanding(s, op) ==> op.future != Some(future)
  }

  /**
   Outstanding operations carry different futures, and a descriptor is not unregistered
   under a receive. The kernel writes no more than the buffer length it is given, which
   is the size cast to 32 bits, and reports no more than it writes.
   */
  ghost predicate MoveAllowed(s: System, m: Move) {
    match m
    case ClientCalls(step) =>
      && StepAllowed(step) && IsI32(step.fd)
      && (Handed(step).Some? ==> Unused(s, Handed(step).value))
      && (step.DoUnregister? ==> !Receiving(s, step.fd))
    case KernelCompletes(i, result, content, _, _) =>
      && i < |s.pending|
      && (IsBuffered(s.pending[i].kind) ==> result <= |content| <= s.engine.pool.size % 0x1_0000_0000)
    case RunTick(_) => true
  }

  /** The kernel fills the operation's buffer, possibly beyond what it reports, and, for recvmsg, the address. */
  function KernelWrites(e: Engine, op: Op, content: seq<byte>, address: Option<nat>): Engine {
    var e1 := if IsBuffered(op.kind) then e.(pool := e.pool.(mem := StoreIn(e.pool, op.buffer, content))) else e;
    if op.kind.RecvMsg? then e1.(recvmsg := e1.recvmsg[op.fd := address]) else e1
  }

  function Started(s: System): TickState {
    TickState(s.engine, s.store, s.queue, [], [])
  }

  /** What processing one completion resolves. */
  function Emitted(t: TickState, c: Cqe): seq<Event> {
    var fd := FdOf(c.word);
    if fd in t.engine.futures then [Event(t.engine.futures[fd], Resolution(Extract(t.engine, c).1))] else []
  }

  /** What each completion of a list resolves, given those before it. */
  function Deliveries(t: TickState, cs: seq<Cqe>, foreign: Foreign): (ds: seq<seq<Event>>)
    ensures |ds| == |cs| && forall k :: 0 <= k < |cs| ==> ds[k] == Emitted(Process(t, cs[..k], foreign), cs[k])
  {
    seq(|cs|, k requires 0 <= k < |cs| => Emitted(Process(t, cs[..k], foreign), cs[k]))
  }

  function Completed(op: Op, result: int, content: seq<byte>, address: Option<nat>, flags: nat): Completion {
    Completion(op, result, if IsBuffered(op.kind) && 0 < result <= |content| then content[..result] else [], address, flags)
  }

  function Next(s: System, m: Move): System {
    match m
    case ClientCalls(step) =>
      var r := Perform(s.engine, step);
      s.(engine := r.engine, pending := if r.op.Some? then s.pending + [r.op.value] else s.pending)
    case KernelCompletes(i, result, content, address, flags) =>
      if i >= |s.pending| then s
      else
        s.(engine := KernelWrites(s.engine, s.pending[i], content, address),
           pending := s.pending[..i] + s.pending[i + 1..],
           done := s.done + [Completed(s.pending[i], result, content, address, flags)])
    case RunTick(foreign) =>
      var t := Process(Started(s), CqesOf(s.done), foreign);
      s.(engine := t.engine, store := t.store, queue := t.queue, done := [], seen := s.seen + s.done,
         delivered := s.delivered + Deliveries(Started(s), CqesOf(s.done), foreign))
  }

  // ---------------------------------------------------------------------------
  // Soundness, and the moves that end it
  // ---------------------------------------------------------------------------

  predicate AsOwed(ds: seq<seq<Event>>, ks: seq<Completion>) {
    |ds| == |ks| && forall i :: 0 <= i < |ks| ==> ds[i] == Owed(ks[i])
  }

  lemma AsOwedConcat(ds: seq<seq<Event>>, ks: seq<Completion>, ds': seq<seq<Event>>, ks': seq<Completion>)
    requires |ds| == |ks|
    ensures AsOwed(ds + ds', ks + ks') <==> AsOwed(ds, ks) && AsOwed(ds', ks')
  {
    var all, of := ds + ds', ks + ks';
    assert forall i :: 0 <= i < |ks| ==> all[i] == ds[i] && of[i] == ks[i];
    assert |ds'| == |ks'| ==> forall i :: 0 <= i < |ks'| ==> all[|ks| + i] == ds'[i] && of[|ks| + i] == ks'[i];
  }

  /** Every completion taken so far resolved exactly what it was owed. */
  predicate AllAsOwed(s: System) {
    AsOwed(s.delivered, s.seen)
  }

  /** The future an operation carries, if any, is the one stored for its descriptor. */
  predicate Stored(e: Engine, op: Op) {
    op.future.Some? ==> op.fd in e.futures && e.futures[op.fd] == op.future.value
  }

  ghost predicate AllStored(s: System) {
    && (forall i :: 0 <= i < |s.pending| ==> Stored(s.engine, s.pending[i]))
    && (forall i :: 0 <= i < |s.done| ==> Stored(s.engine, s.done[i].op))
  }

  /** What was taken was delivered as owed, and no outstanding operation has lost its future. */
  ghost predicate Sound(s: System) {
    AllAsOwed(s) && AllStored(s)
  }

  /** The completion at position `n` carries no future, and one is outstanding behind it on its descriptor. */
  predicate Overtakes(s: System, n: nat) {
    n < |s.done| && s.done[n].op.future.None? && s.done[n].op.fd in Waiting(s.pending) + Ready(s.done[n + 1..])
  }

  /**
   The two ways to lose a future: a further submission that stores one for the same
   descriptor, even if the queue is then full, and a completion without a future that is
   processed first.
   */
  ghost predicate Disturbs(s: System, m: Move) {
    match m
    case ClientCalls(step) => Carried(s, step.fd) && Stores(s.engine, step)
    case KernelCompletes(_, _, _, _, _) => false
    case RunTick(_) => exists n: nat :: Overtakes(s, n)
  }

  /** One of the first `n` completions names the descriptor. */
  ghost predicate Named(done: seq<Completion>, n: nat, fd: int)
    requires n <= |done|
  {
    exists j :: 0 <= j < n && done[j].op.fd == fd
  }

  /** The moves after which a future stored for the descriptor is no longer there: all are moves on that descriptor. */
  ghost predicate Loses(s: System, m: Move, fd: int) {
    match m
    case ClientCalls(step) => step.fd == fd && Stores(s.engine, step)
    case KernelCompletes(_, _, _, _, _) => false
    case RunTick(_) => Named(s.done, |s.done|, fd)
  }

  // ---------------------------------------------------------------------------
  // The invariants
  // ---------------------------------------------------------------------------

  predicate WellFormed(op: Op) {
    && IsI32(op.fd)
    && (op.kind.Recv? || op.kind.RecvMsg? || op.kind.Send? || op.kind.SendMsg? || op.kind.Accept? || op.kind.Close?)
    && (IsBuffered(op.kind) ==> op.future.Some?)
  }

  /** A relation between any two outstanding operations. */
  ghost predicate Pairwise(pending: seq<Op>, done: seq<Completion>, r: (Op, Op) -> bool) {
    && (forall i, j :: 0 <= i < j < |pending| ==> r(pending[i], pending[j]))
    && (forall i, j :: 0 <= i < j < |done| ==> r(done[i].op, done[j].op))
    && (forall i, j :: 0 <= i < |pending| && 0 <= j < |done| ==> r(pending[i], done[j].op))
  }

  ghost predicate Symmetric(r: (Op, Op) -> bool) {
    forall a, b :: r(a, b) ==> r(b, a)
  }

  predicate DifferentFutures(a: Op, b: Op) {
    a.future.Some? ==> a.future != b.future
  }

  predicate NotBothReceives(a: Op, b: Op) {
    IsBuffered(a.kind) && IsBuffered(b.kind) ==> a.fd != b.fd
  }

  /** True in every run. */
  ghost predicate Base(s: System) {
    && (forall i :: 0 <= i < |s.pending| ==> WellFormed(s.pending[i]))
    && (forall i :: 0 <= i < |s.done| ==> WellFormed(s.done[i].op))
    && Pairwise(s.pending, s.done, DifferentFutures)
    && |s.delivered| == |s.seen|
  }

  /** The engine still knows the buffer of a receive. */
  predicate Held(e: Engine, op: Op) {
    IsBuffered(op.kind) ==> op.fd in e.inflight && e.inflight[op.fd] == op.buffer
  }

  /** A completed receive's bytes are still in its buffer. */
  predicate Intact(e: Engine, k: Completion) {
    && Held(e, k.op)
    && (IsBuffered(k.op.kind) && k.result > 0 ==> SliceOr(e.pool, k.op.buffer, k.result) == k.written)
    && (IsBuffered(k.op.kind) && k.result == 0 ==> k.written == [])
    && (k.op.kind.RecvMsg? ==> k.op.fd in e.recvmsg && e.recvmsg[k.op.fd] == k.address)
  }

  ghost predicate AllHeld(e: Engine, pending: seq<Op>) {
    forall i :: 0 <= i < |pending| ==> Held(e, pending[i])
  }

  ghost predicate AllIntact(e: Engine, done: seq<Completion>) {
    forall i :: 0 <= i < |done| ==> Intact(e, done[i])
  }

  /** Every outstanding receive has its buffer to itself, and a completed one its data in it. */
  ghost predicate Data(s: System) {
    && Base(s) && Valid(s.engine)
    && Pairwise(s.pending, s.done, NotBothReceives)
    && AllHeld(s.engine, s.pending)
    && AllIntact(s.engine, s.done)
  }

  /** What holds as long as nothing has disturbed delivery. */
  ghost predicate Good(s: System) {
    && Data(s) && Sound(s)
    && s.engine.futures.Keys <= Waiting(s.pending) + Ready(s.done)
  }

  /** No receive is placed under a receive on its descriptor. */
  ghost predicate Orderly(s: System, m: Move) {
    && MoveAllowed(s, m)
    && (m.ClientCalls? && m.step.DoReceive? && m.step.prepOk && Stores(s.engine, m.step) ==> !Receiving(s, m.step.fd))
  }

  /** Stored and different futures: at most one carrier for each descriptor. */
  lemma OneCarrier(s: System, n: nat)
    requires Base(s) && AllStored(s) && n < |s.done| && s.done[n].op.future.Some?
    ensures s.done[n].op.fd !in Waiting(s.pending) && s.done[n].op.fd !in Ready(s.done[n + 1..])
  {
    var a, rest := s.done[n].op, s.done[n + 1..];
    forall i | 0 <= i < |s.pending| && s.pending[i].future.Some? ensures s.pending[i].fd != a.fd {
      assert DifferentFutures(s.pending[i], a);
    }
    forall j | 0 <= j < |rest| && rest[j].op.future.Some? ensures rest[j].op.fd != a.fd {
      assert rest[j] == s.done[n + 1 + j] && DifferentFutures(a, s.done[n + 1 + j].op);
    }
  }

  lemma PendingIsOutstanding(s: System, i: nat)
    requires i < |s.pending|
    ensures Outstanding(s, s.pending[i])
  {
  }

  lemma DoneIsOutstanding(s: System, i: nat)
    requires i < |s.done|
    ensures Outstanding(s, s.done[i].op)
  {
    assert OpsOf(s.done)[i] == s.done[i].op;
  }

  /** A recorded receive buffer lies in the region, behind no send, and belongs to that descriptor alone. */
  lemma InflightBuffer(e: Engine, fd: int)
    requires Valid(e) && fd in e.inflight
    ensures Fits(e.pool.mem, e.pool.size, e.inflight[fd])
    ensures forall other :: other in e.inflight && e.inflight[other] == e.inflight[fd] ==> other == fd
  {
    var b := e.inflight[fd];
    PartitionMeaning(e.pool.count, Available(e.pool), e.inflight, e.held);
    assert Mapped(e.inflight, b);
    BufferFits(e.pool.mem, e.pool.size, e.pool.count, b);
  }

  // ---------------------------------------------------------------------------
  // Client calls
  // ---------------------------------------------------------------------------

  /** The descriptor an engine call acts on, for calls that submit or unregister. */
  function Target(step: Step): Option<int> {
    match step
    case DoRegister(_, _) => None
    case DoPause(_, _) => None
    case _ => Some(step.fd)
  }

  lemma TrackAgrees(e: Engine, fd: int, buffer: nat, other: int)
    requires fd != other
    ensures AgreeOn(e, Track(e, fd, buffer), other)
  {
  }

  lemma ReceiveAgrees(e: Engine, step: Step, fd: int)
    requires step.DoReceive? && fd != step.fd
    ensures AgreeOn(e, Perform(e, step).engine, fd)
  {
    var (p1, got) := Acquire(e.pool, step.now);
    if FdStates.ShouldSubmitRecv(e.fds, step.fd) && got.Some? && FdStates.Lookup(e.fds, step.fd).Success? && step.prepOk {
      var e1 := e.(pool := p1, fds := FdStates.Update(e.fds, step.fd, FdStates.OnSubmit), futures := e.futures[step.fd := step.future]);
      var e2 := if step.kind.RecvMsg? then e1.(recvmsg := e1.recvmsg[step.fd := None]) else e1;
      assert Perform(e, step).engine == Track(e2, step.fd, got.value);
      TrackAgrees(e2, step.fd, got.value, fd);
    }
  }

  lemma PerformAgrees(e: Engine, step: Step, fd: int)
    requires Target(step) != Some(fd)
    ensures AgreeOn(e, Perform(e, step).engine, fd)
  {
    if step.DoReceive? {
      ReceiveAgrees(e, step, fd);
    }
  }

  lemma SendMemory(e: Engine, step: Step)
    requires step.DoSend?
    ensures var p, got := Perform(e, step).engine.pool, Acquire(e.pool, step.now).1;
            p.mem == (if got.Some? then StoreIn(e.pool, got.value, step.data) else e.pool.mem) && p.size == e.pool.size
  {
    AcquireTakes(e.pool, step.now);
  }

  lemma SendKeepsBytes(e: Engine, step: Step, fd: int, len: nat)
    requires Valid(e) && fd in e.inflight && step.DoSend?
    ensures SliceOr(Perform(e, step).engine.pool, e.inflight[fd], len) == SliceOr(e.pool, e.inflight[fd], len)
  {
    SendMemory(e, step);
    var got := Acquire(e.pool, step.now).1;
    if got.Some? && |step.data| <= e.pool.size {
      AcquiredFits(e, step.now);
      InflightBuffer(e, fd);
      StoreLocal(e.pool.mem, e.pool.size, got.value, step.data, e.inflight[fd], len);
    }
  }

  lemma OthersKeepMemory(e: Engine, step: Step)
    requires Valid(e) && !step.DoSend?
    ensures var p := Perform(e, step).engine.pool; p.mem == e.pool.mem && p.size == e.pool.size
  {
    if step.DoReceive? {
      SubmitReceiveFrame(e, step.kind, step.fd, step.future, step.now, step.prepOk, step.flushOk);
    }
  }

  /** A call leaves the bytes of every recorded receive buffer alone. */
  lemma PerformKeepsBytes(e: Engine, step: Step, fd: int, len: nat)
    requires Valid(e) && fd in e.inflight
    ensures SliceOr(Perform(e, step).engine.pool, e.inflight[fd], len) == SliceOr(e.pool, e.inflight[fd], len)
  {
    if step.DoSend? {
      SendKeepsBytes(e, step, fd, len);
    } else {
      OthersKeepMemory(e, step);
    }
  }

  /** A call that places no receive and does not unregister leaves every recorded receive alone. */
  lemma PlainStep(e: Engine, step: Step)
    requires !step.DoUnregister? && !(step.DoReceive? && step.prepOk && Stores(e, step))
    ensures Perform(e, step).engine.inflight == e.inflight && Perform(e, step).engine.recvmsg == e.recvmsg
  {
    if step.DoReceive? {
      ReceiveRecords(e, step);
    } else {
      OtherCalls(e, step);
    }
  }

  lemma OtherCalls(e: Engine, step: Step)
    requires !step.DoUnregister? && !step.DoReceive?
    ensures Perform(e, step).engine.inflight == e.inflight && Perform(e, step).engine.recvmsg == e.recvmsg
  {
    match step
    case DoRegister(fd, t) =>
    case DoPause(fd, paused) =>
    case DoSend(fd, data, future, now, prepOk, flushOk) => SendRecords(e, fd, data, future, now, prepOk, flushOk);
    case DoSendTo(fd, future, addressOk, prepOk, flushOk) =>
    case DoAccept(fd, future, prepOk, flushOk) =>
    case DoClose(fd, prepOk, flushOk) =>
  }

  lemma SendRecords(e: Engine, fd: int, data: seq<byte>, future: nat, now: nat, prepOk: bool, flushOk: bool)
    ensures var e' := SubmitSend(e, fd, data, future, now, prepOk, flushOk).engine; e'.inflight == e.inflight && e'.recvmsg == e.recvmsg
  {
  }

  /** The entry a call places. */
  lemma PlacedOp(e: Engine, step: Step)
    requires StepAllowed(step) && IsI32(step.fd) && Perform(e, step).op.Some?
    ensures var r := Perform(e, step);
            WellFormed(r.op.value) && r.op.value.fd == step.fd && Held(r.engine, r.op.value)
  {
  }

  /** What a call may do to what is recorded for a receive. */
  lemma ClientAgrees(e: Engine, step: Step, fd: int)
    requires fd == step.fd ==> !step.DoUnregister? && !(step.DoReceive? && step.prepOk && Stores(e, step))
    ensures AgreeOn(e, Perform(e, step).engine, fd)
  {
    if Target(step) != Some(fd) {
      PerformAgrees(e, step, fd);
    } else {
      PlainStep(e, step);
    }
  }

  lemma ClientKeepsIntact(e: Engine, step: Step, k: Completion)
    requires Valid(e) && Intact(e, k)
    requires IsBuffered(k.op.kind) && k.op.fd == step.fd ==> !step.DoUnregister? && !(step.DoReceive? && step.prepOk && Stores(e, step))
    ensures Intact(Perform(e, step).engine, k)
  {
    if IsBuffered(k.op.kind) {
      ClientAgrees(e, step, k.op.fd);
      PerformKeepsBytes(e, step, k.op.fd, if k.result > 0 then k.result else 0);
    }
  }

  lemma PairwiseOneMore(pending: seq<Op>, done: seq<Completion>, op: Op, r: (Op, Op) -> bool)
    requires Pairwise(pending, done, r)
    requires forall i :: 0 <= i < |pending| ==> r(pending[i], op)
    requires forall j :: 0 <= j < |done| ==> r(op, done[j].op)
    ensures Pairwise(pending + [op], done, r)
  {
  }

  lemma WaitingOneMore(pending: seq<Op>, op: Op)
    ensures Waiting(pending + [op]) == Waiting(pending) + if op.future.Some? then {op.fd} else {}
  {
    assert forall o :: o in pending + [op] <==> o in pending || o == op;
  }

  lemma ClientBase(s: System, step: Step)
    requires Base(s) && MoveAllowed(s, ClientCalls(step))
    ensures Base(Next(s, ClientCalls(step)))
  {
    var r := Perform(s.engine, step);
    if r.op.Some? {
      PlacedOp(s.engine, step);
      FuturesAfter(s.engine, step);
      forall i | 0 <= i < |s.pending| ensures DifferentFutures(s.pending[i], r.op.value) {
        PendingIsOutstanding(s, i);
      }
      forall j | 0 <= j < |s.done| ensures DifferentFutures(r.op.value, s.done[j].op) {
        DoneIsOutstanding(s, j);
      }
      PairwiseOneMore(s.pending, s.done, r.op.value, DifferentFutures);
    }
  }

  lemma ClientKeepsOld(s: System, step: Step)
    requires Data(s) && Orderly(s, ClientCalls(step))
    ensures AllHeld(Perform(s.engine, step).engine, s.pending) && AllIntact(Perform(s.engine, step).engine, s.done)
  {
    var e' := Perform(s.engine, step).engine;
    forall i | 0 <= i < |s.pending| ensures Held(e', s.pending[i]) {
      if IsBuffered(s.pending[i].kind) {
        PendingIsOutstanding(s, i);
        ClientAgrees(s.engine, step, s.pending[i].fd);
      }
    }
    forall i | 0 <= i < |s.done| ensures Intact(e', s.done[i]) {
      DoneIsOutstanding(s, i);
      ClientKeepsIntact(s.engine, step, s.done[i]);
    }
  }

  lemma ClientReceives(s: System, step: Step)
    requires Data(s) && Orderly(s, ClientCalls(step)) && Perform(s.engine, step).op.Some?
    ensures Pairwise(s.pending + [Perform(s.engine, step).op.value], s.done, NotBothReceives)
  {
    var op := Perform(s.engine, step).op.value;
    PlacedOp(s.engine, step);
    if IsBuffered(op.kind) {
      ReceiveExits(s.engine, step);
    }
    forall i | 0 <= i < |s.pending| ensures NotBothReceives(s.pending[i], op) {
      PendingIsOutstanding(s, i);
    }
    forall j | 0 <= j < |s.done| ensures NotBothReceives(op, s.done[j].op) {
      DoneIsOutstanding(s, j);
    }
    PairwiseOneMore(s.pending, s.done, op, NotBothReceives);
  }

  lemma ClientData(s: System, step: Step)
    requires Data(s) && Orderly(s, ClientCalls(step))
    ensures Data(Next(s, ClientCalls(step)))
  {
    ClientBase(s, step);
    PerformKeeps(s.engine, step);
    ClientKeepsOld(s, step);
    if Perform(s.engine, step).op.Some? {
      PlacedOp(s.engine, step);
      ClientReceives(s, step);
    }
  }

  lemma ClientFutures(s: System, step: Step)
    requires s.engine.futures.Keys <= Waiting(s.pending) + Ready(s.done) && StepAllowed(step) && IsI32(step.fd)
    ensures var s' := Next(s, ClientCalls(step)); s'.engine.futures.Keys <= Waiting(s'.pending) + Ready(s'.done)
  {
    FuturesAfter(s.engine, step);
    var r := Perform(s.engine, step);
    if r.op.Some? {
      PlacedOp(s.engine, step);
      WaitingOneMore(s.pending, r.op.value);
    }
  }

  // ---------------------------------------------------------------------------
  // Kernel
  // ---------------------------------------------------------------------------

  /** Where the outstanding operations are after one has completed. */
  lemma Moved(s: System, m: Move, j: nat)
    requires MoveAllowed(s, m) && m.KernelCompletes?
    ensures var s' := Next(s, m);
            && (j < |s'.pending| ==> s'.pending[j] == s.pending[if j < m.i then j else j + 1])
            && (j < |s.pending| && j != m.i ==> s.pending[j] == s'.pending[if j < m.i then j else j - 1])
            && s'.done[|s.done|].op == s.pending[m.i]
            && (j < |s.done| ==> s'.done[j] == s.done[j])
            && s'.engine.futures == s.engine.futures
            && |s'.pending| == |s.pending| - 1 && |s'.done| == |s.done| + 1
  {
  }

  lemma PairwiseMoved(s: System, m: Move, r: (Op, Op) -> bool)
    requires MoveAllowed(s, m) && m.KernelCompletes? && Pairwise(s.pending, s.done, r) && Symmetric(r)
    ensures Pairwise(Next(s, m).pending, Next(s, m).done, r)
  {
    var s', n := Next(s, m), |s.done|;
    forall i | 0 <= i < |s'.pending| ensures r(s'.pending[i], s'.done[n].op) {
      Moved(s, m, i);
      assert if i < m.i then r(s.pending[i], s.pending[m.i]) else r(s.pending[m.i], s.pending[i + 1]);
    }
    forall i, j | 0 <= i < j < |s'.pending| ensures r(s'.pending[i], s'.pending[j]) {
      Moved(s, m, i);
      Moved(s, m, j);
    }
    forall j | 0 <= j < n ensures s'.done[j] == s.done[j] && r(s.done[j].op, s'.done[n].op) {
      Moved(s, m, j);
      assert r(s.pending[m.i], s.done[j].op);
    }
    forall i, j | 0 <= i < |s'.pending| && 0 <= j < n ensures r(s'.pending[i], s'.done[j].op) {
      Moved(s, m, i);
      Moved(s, m, j);
    }
  }

  lemma CarriersMoved(s: System, m: Move)
    requires MoveAllowed(s, m) && m.KernelCompletes?
    ensures Waiting(Next(s, m).pending) + Ready(Next(s, m).done) == Waiting(s.pending) + Ready(s.done)
  {
    var s', k := Next(s, m), Next(s, m).done[|s.done|];
    assert s.pending == s.pending[..m.i] + [k.op] + s.pending[m.i + 1..];
    assert forall o :: o in s.pending <==> o in s'.pending || o == k.op;
    assert forall c :: c in s'.done <==> c in s.done || c == k;
  }

  lemma KernelBase(s: System, m: Move)
    requires Base(s) && MoveAllowed(s, m) && m.KernelCompletes?
    ensures Base(Next(s, m))
  {
    var s' := Next(s, m);
    PairwiseMoved(s, m, DifferentFutures);
    forall j | 0 <= j < |s'.pending| ensures WellFormed(s'.pending[j]) {
      Moved(s, m, j);
    }
    forall j | 0 <= j < |s'.done| ensures WellFormed(s'.done[j].op) {
      Moved(s, m, j);
    }
  }

  /** The kernel's write reaches only the buffer and the address of its own operation. */
  lemma WriteIsLocal(e: Engine, op: Op, content: seq<byte>, address: Option<nat>, other: int, len: nat)
    requires Valid(e) && Held(e, op) && other in e.inflight && other != op.fd
    ensures SliceOr(KernelWrites(e, op, content, address).pool, e.inflight[other], len) == SliceOr(e.pool, e.inflight[other], len)
  {
    if IsBuffered(op.kind) {
      InflightBuffer(e, op.fd);
      InflightBuffer(e, other);
      if |content| <= e.pool.size {
        StoreLocal(e.pool.mem, e.pool.size, op.buffer, content, e.inflight[other], len);
      }
    }
  }

  lemma WriteIsRead(e: Engine, op: Op, result: int, content: seq<byte>, address: Option<nat>, flags: nat)
    requires Valid(e) && Held(e, op) && (IsBuffered(op.kind) ==> result <= |content| <= e.pool.size)
    ensures Intact(KernelWrites(e, op, content, address), Completed(op, result, content, address, flags))
  {
    if IsBuffered(op.kind) && result > 0 {
      InflightBuffer(e, op.fd);
      StoreLocal(e.pool.mem, e.pool.size, op.buffer, content, op.buffer, result);
    }
  }

  lemma WriteKeepsIntact(e: Engine, op: Op, content: seq<byte>, address: Option<nat>, k: Completion)
    requires Valid(e) && Held(e, op) && Intact(e, k) && (IsBuffered(op.kind) && IsBuffered(k.op.kind) ==> k.op.fd != op.fd)
    ensures Intact(KernelWrites(e, op, content, address), k)
  {
    if IsBuffered(k.op.kind) && k.result > 0 && IsBuffered(op.kind) {
      WriteIsLocal(e, op, content, address, k.op.fd, k.result);
    }
  }

  lemma KernelIntact(s: System, m: Move)
    requires Data(s) && MoveAllowed(s, m) && m.KernelCompletes?
    ensures AllIntact(Next(s, m).engine, Next(s, m).done)
  {
    var e, op, s' := s.engine, s.pending[m.i], Next(s, m);
    WriteIsRead(e, op, m.result, m.content, m.address, m.flags);
    forall j | 0 <= j < |s'.done| ensures Intact(s'.engine, s'.done[j]) {
      if j < |s.done| {
        assert NotBothReceives(op, s.done[j].op);
        WriteKeepsIntact(e, op, m.content, m.address, s.done[j]);
      }
    }
  }

  lemma KernelData(s: System, m: Move)
    requires Data(s) && MoveAllowed(s, m) && m.KernelCompletes?
    ensures Data(Next(s, m))
  {
    var s' := Next(s, m);
    KernelBase(s, m);
    PairwiseMoved(s, m, NotBothReceives);
    KernelIntact(s, m);
    forall j | 0 <= j < |s'.pending| ensures Held(s'.engine, s'.pending[j]) {
      Moved(s, m, j);
    }
  }

  // ---------------------------------------------------------------------------
  // Ticks
  // ---------------------------------------------------------------------------

  lemma CqeDecodes(k: Completion)
    requires IsI32(k.op.fd)
    ensures FdOf(CqeOf(k).word) == k.op.fd && OpOf(CqeOf(k).word) == k.op.kind
  {
    RoundTrip(k.op.fd, k.op.kind, RING_GENERATION);
  }

  lemma OwnReceive(e: Engine, c: Cqe, k: Completion)
    requires IsBuffered(k.op.kind) && Intact(e, k)
    requires FdOf(c.word) == k.op.fd && OpOf(c.word) == k.op.kind && c.result == k.result
    ensures Resolution(ExtractReceive(e, c).1) == OwedState(k)
  {
    var item := ExtractReceive(e, c).1;
    if k.result > 0 {
      assert item.data == Some(if k.op.kind.RecvMsg? && k.address.Some? then BytesFrom(k.written, k.address.value) else Bytes(k.written));
    } else {
      assert item.data.None?;
    }
  }

  lemma OwnOther(e: Engine, c: Cqe, k: Completion)
    requires !IsBuffered(k.op.kind) && WellFormed(k.op)
    requires FdOf(c.word) == k.op.fd && OpOf(c.word) == k.op.kind && c.result == k.result
    ensures Resolution(Extract(e, c).1) == OwedState(k)
  {
  }

  lemma ReceiveIsExtracted(e: Engine, c: Cqe)
    requires IsBuffered(OpOf(c.word))
    ensures Extract(e, c) == ExtractReceive(e, c)
  {
  }

  /** The engine turns an intact completion into exactly the outcome it is owed. */
  lemma OwnItem(e: Engine, k: Completion)
    requires WellFormed(k.op) && Intact(e, k)
    ensures Resolution(Extract(e, CqeOf(k)).1) == OwedState(k)
  {
    var c := CqeOf(k);
    CqeDecodes(k);
    if IsBuffered(k.op.kind) {
      OwnReceive(e, c, k);
      ReceiveIsExtracted(e, c);
    } else {
      OwnOther(e, c, k);
    }
  }

  lemma EmittedIs(t: TickState, c: Cqe, foreign: Foreign)
    ensures ProcessOne(t, c, foreign).events == t.events + Emitted(t, c)
  {
    ExtractKeeps(t.engine, c);
    ExtractItem(t.engine, c);
  }

  lemma ExtractAgrees(e: Engine, c: Cqe, fd: int)
    requires fd != FdOf(c.word) || !IsBuffered(OpOf(c.word))
    ensures AgreeOn(e, Extract(e, c).0, fd)
  {
  }

  /** Processing a completion leaves alone what is recorded for other descriptors, and, unless it is a receive, for its own. */
  lemma ProcessAgrees(t: TickState, k: Completion, foreign: Foreign, fd: int)
    requires IsI32(k.op.fd) && (fd != k.op.fd || !IsBuffered(k.op.kind))
    ensures var e' := ProcessOne(t, CqeOf(k), foreign).engine;
            AgreeOn(t.engine, e', fd) && e'.pool.mem == t.engine.pool.mem && SameRegion(t.engine, e')
  {
    CqeDecodes(k);
    ProcessOneEngine(t, CqeOf(k), foreign);
    ExtractKeeps(t.engine, CqeOf(k));
    ExtractAgrees(t.engine, CqeOf(k), fd);
  }

  /** Part-way through a tick the receives not yet reached still have their buffers and data. */
  ghost predicate Midway(s: System, t: TickState, n: nat)
    requires n <= |s.done|
  {
    && AllHeld(t.engine, s.pending)
    && forall j :: n <= j < |s.done| ==> Intact(t.engine, s.done[j])
  }

  lemma MidwayStep(s: System, t: TickState, n: nat, foreign: Foreign)
    requires n < |s.done| && Midway(s, t, n) && Base(s) && Pairwise(s.pending, s.done, NotBothReceives)
    ensures Midway(s, ProcessOne(t, CqeOf(s.done[n]), foreign), n + 1)
  {
    var k, e' := s.done[n], ProcessOne(t, CqeOf(s.done[n]), foreign).engine;
    forall i | 0 <= i < |s.pending| ensures Held(e', s.pending[i]) {
      if IsBuffered(s.pending[i].kind) {
        assert NotBothReceives(s.pending[i], k.op);
        ProcessAgrees(t, k, foreign, s.pending[i].fd);
      }
    }
    forall j | n + 1 <= j < |s.done| ensures Intact(e', s.done[j]) {
      if IsBuffered(s.done[j].op.kind) {
        assert NotBothReceives(k.op, s.done[j].op);
        ProcessAgrees(t, k, foreign, s.done[j].op.fd);
      }
    }
  }

  lemma ProcessNext(t: TickState, cs: seq<Cqe>, n: nat, foreign: Foreign)
    requires n < |cs|
    ensures Process(t, cs[..n + 1], foreign) == ProcessOne(Process(t, cs[..n], foreign), cs[n], foreign)
  {
    assert cs[..n + 1][..n] == cs[..n];
  }

  lemma MidwayNext(s: System, n: nat, foreign: Foreign)
    requires Data(s) && n < |s.done| && Midway(s, Process(Started(s), CqesOf(s.done)[..n], foreign), n)
    ensures Midway(s, Process(Started(s), CqesOf(s.done)[..n + 1], foreign), n + 1)
  {
    ProcessNext(Started(s), CqesOf(s.done), n, foreign);
    MidwayStep(s, Process(Started(s), CqesOf(s.done)[..n], foreign), n, foreign);
  }

  lemma {:induction false} TickMidway(s: System, n: nat, foreign: Foreign)
    requires Data(s) && n <= |s.done|
    ensures Midway(s, Process(Started(s), CqesOf(s.done)[..n], foreign), n)
  {
    var cs := CqesOf(s.done);
    if n == 0 {
      assert cs[..0] == [];
    } else {
      TickMidway(s, n - 1, foreign);
      MidwayNext(s, n - 1, foreign);
    }
  }

  lemma FdsNamed(s: System, n: nat, fd: int)
    requires Base(s) && n <= |s.done|
    ensures fd in Fds(CqesOf(s.done)[..n]) <==> Named(s.done, n, fd)
  {
    var cs := CqesOf(s.done)[..n];
    forall j | 0 <= j < n ensures FdOf(cs[j].word) == s.done[j].op.fd && cs[j] in cs {
      CqeDecodes(s.done[j]);
    }
    if fd in Fds(cs) {
      var j :| 0 <= j < |cs| && FdOf(cs[j].word) == fd;
      assert s.done[j].op.fd == fd;
    }
  }

  /** The futures still stored when completion `n` is reached. */
  lemma FuturesAt(s: System, n: nat, foreign: Foreign, fd: int)
    requires Base(s) && n <= |s.done|
    ensures var left := Process(Started(s), CqesOf(s.done)[..n], foreign).engine.futures;
            (fd in left <==> fd in s.engine.futures && !Named(s.done, n, fd)) && (fd in left ==> left[fd] == s.engine.futures[fd])
  {
    FuturesLeft(Started(s), CqesOf(s.done)[..n], foreign);
    FdsNamed(s, n, fd);
  }

  /** The futures still stored after a tick. */
  lemma FuturesEnd(s: System, foreign: Foreign, fd: int)
    requires Base(s)
    ensures var left := Next(s, RunTick(foreign)).engine.futures;
            && (fd in left <==> fd in s.engine.futures && !Named(s.done, |s.done|, fd))
            && (fd in left ==> left[fd] == s.engine.futures[fd])
  {
    var cs := CqesOf(s.done);
    FuturesAt(s, |s.done|, foreign, fd);
    assert cs[..|cs|] == cs;
  }

  lemma TickData(s: System, foreign: Foreign)
    requires Data(s)
    ensures Data(Next(s, RunTick(foreign)))
  {
    var cs := CqesOf(s.done);
    TickMidway(s, |s.done|, foreign);
    assert cs[..|cs|] == cs;
    ProcessKeeps(Started(s), cs, foreign);
  }

  /** Completion `k` of a tick resolves the future stored for its descriptor, if no earlier one did, with its own outcome. */
  lemma DeliveryAt(s: System, k: nat, foreign: Foreign)
    requires Data(s) && k < |s.done|
    ensures var fd := s.done[k].op.fd;
            Deliveries(Started(s), CqesOf(s.done), foreign)[k]
            == if fd in s.engine.futures && !Named(s.done, k, fd) then [Event(s.engine.futures[fd], OwedState(s.done[k]))] else []
  {
    CqeDecodes(s.done[k]);
    FuturesAt(s, k, foreign, s.done[k].op.fd);
    TickMidway(s, k, foreign);
    OwnItem(Process(Started(s), CqesOf(s.done)[..k], foreign).engine, s.done[k]);
  }

  /**
   Position by position: a completion delivers exactly what it is owed iff either it
   carries a future, that one is stored and no earlier completion names its descriptor,
   or it carries none and none is then stored for its descriptor.
   */
  lemma PositionIff(s: System, k: nat, foreign: Foreign)
    requires Data(s) && k < |s.done|
    ensures var op := s.done[k].op;
            Deliveries(Started(s), CqesOf(s.done), foreign)[k] == Owed(s.done[k])
            <==> if op.future.Some? then Stored(s.engine, op) && !Named(s.done, k, op.fd)
                 else op.fd !in s.engine.futures || Named(s.done, k, op.fd)
  {
    DeliveryAt(s, k, foreign);
  }

  // ---------------------------------------------------------------------------
  // Keeping and losing a future
  // ---------------------------------------------------------------------------

  /** An outstanding operation still has its future after a move exactly if it had it before and the move does not lose it. */
  lemma KeepsFutureIff(s: System, m: Move, op: Op)
    requires Base(s) && MoveAllowed(s, m) && Outstanding(s, op) && op.future.Some?
    ensures Stored(Next(s, m).engine, op) <==> Stored(s.engine, op) && !Loses(s, m, op.fd)
  {
    match m
    case ClientCalls(step) => FuturesAfter(s.engine, step);
    case KernelCompletes(_, _, _, _, _) =>
    case RunTick(foreign) => FuturesEnd(s, foreign, op.fd);
  }

  /** What a move leaves outstanding was outstanding, or is the entry it has just placed. */
  lemma StillOutstanding(s: System, m: Move, op: Op)
    requires MoveAllowed(s, m) && Outstanding(Next(s, m), op)
    ensures Outstanding(s, op) || (m.ClientCalls? && Perform(s.engine, m.step).op == Some(op))
  {
    var s' := Next(s, m);
    if m.KernelCompletes? {
      if op in s'.pending {
        var j :| 0 <= j < |s'.pending| && s'.pending[j] == op;
        Moved(s, m, j);
      } else {
        var j :| 0 <= j < |s'.done| && OpsOf(s'.done)[j] == op;
        if j < |s.done| {
          DoneIsOutstanding(s, j);
        }
      }
    }
  }

  /** No outstanding operation loses its future: then all are stored after the move. */
  lemma AllKept(s: System, m: Move)
    requires Base(s) && MoveAllowed(s, m) && AllStored(s)
    requires forall op :: Outstanding(Next(s, m), op) && Outstanding(s, op) && op.future.Some? ==> !Loses(s, m, op.fd)
    ensures AllStored(Next(s, m))
  {
    var s' := Next(s, m);
    forall i | 0 <= i < |s'.pending| ensures Stored(s'.engine, s'.pending[i]) {
      PendingIsOutstanding(s', i);
      StoredAfter(s, m, s'.pending[i]);
    }
    forall i | 0 <= i < |s'.done| ensures Stored(s'.engine, s'.done[i].op) {
      DoneIsOutstanding(s', i);
      StoredAfter(s, m, s'.done[i].op);
    }
  }

  lemma StoredAfter(s: System, m: Move, op: Op)
    requires Base(s) && MoveAllowed(s, m) && AllStored(s) && Outstanding(Next(s, m), op)
    requires Outstanding(s, op) && op.future.Some? ==> !Loses(s, m, op.fd)
    ensures Stored(Next(s, m).engine, op)
  {
    StillOutstanding(s, m, op);
    if op.future.Some? && Outstanding(s, op) {
      AllStoredMeans(s, op);
      KeepsFutureIff(s, m, op);
    } else if op.future.Some? {
      PlacedOp(s.engine, m.step);
      FuturesAfter(s.engine, m.step);
    }
  }

  lemma AllStoredMeans(s: System, op: Op)
    requires AllStored(s) && Outstanding(s, op)
    ensures Stored(s.engine, op)
  {
    if op !in s.pending {
      var j :| 0 <= j < |s.done| && OpsOf(s.done)[j] == op;
    }
  }

  // ---------------------------------------------------------------------------
  // All operations together
  // ---------------------------------------------------------------------------

  lemma UndisturbedPosition(s: System, k: nat, foreign: Foreign)
    requires Good(s) && k < |s.done| && !Disturbs(s, RunTick(foreign))
    ensures Deliveries(Started(s), CqesOf(s.done), foreign)[k] == Owed(s.done[k])
  {
    var op := s.done[k].op;
    PositionIff(s, k, foreign);
    if op.future.Some? {
      forall j | 0 <= j < k ensures s.done[j].op.fd != op.fd {
        assert s.done[j + 1..][k - j - 1] == s.done[k];
        assert s.done[k] in s.done[j + 1..];
        assert !Overtakes(s, j);
        if s.done[j].op.future.Some? {
          OneCarrier(s, j);
        }
      }
    } else if op.fd in s.engine.futures {
      assert !Overtakes(s, k);
      var j :| 0 <= j < |s.done| && s.done[j].op.future.Some? && s.done[j].op.fd == op.fd;
    }
  }

  lemma TickAsOwed(s: System, foreign: Foreign)
    requires Good(s) && !Disturbs(s, RunTick(foreign))
    ensures AllAsOwed(Next(s, RunTick(foreign)))
  {
    var ds := Deliveries(Started(s), CqesOf(s.done), foreign);
    forall k | 0 <= k < |s.done| ensures ds[k] == Owed(s.done[k]) {
      UndisturbedPosition(s, k, foreign);
    }
    AsOwedConcat(s.delivered, s.seen, ds, s.done);
  }

  lemma CarrierIsCarried(s: System, op: Op)
    requires Outstanding(s, op) && op.future.Some?
    ensures Carried(s, op.fd)
  {
    if op !in s.pending {
      var j :| 0 <= j < |s.done| && OpsOf(s.done)[j] == op;
      assert s.done[j] in s.done;
    }
  }

  lemma UndisturbedKeeps(s: System, m: Move, op: Op)
    requires Good(s) && MoveAllowed(s, m) && !Disturbs(s, m)
    requires Outstanding(s, op) && Outstanding(Next(s, m), op) && op.future.Some?
    ensures !Loses(s, m, op.fd)
  {
    CarrierIsCarried(s, op);
    if m.RunTick? {
      forall j | 0 <= j < |s.done| ensures s.done[j].op.fd != op.fd {
        assert !Overtakes(s, j);
        if s.done[j].op.future.Some? {
          OneCarrier(s, j);
        }
      }
    }
  }

  lemma UndisturbedOrderly(s: System, m: Move)
    requires Base(s) && MoveAllowed(s, m) && !Disturbs(s, m)
    ensures Orderly(s, m)
  {
    if m.ClientCalls? && Receiving(s, m.step.fd) {
      var op :| Outstanding(s, op) && op.fd == m.step.fd && IsBuffered(op.kind);
      OutstandingWellFormed(s, op);
      CarrierIsCarried(s, op);
    }
  }

  lemma OutstandingWellFormed(s: System, op: Op)
    requires Base(s) && Outstanding(s, op)
    ensures WellFormed(op)
  {
    if op !in s.pending {
      var j :| 0 <= j < |s.done| && OpsOf(s.done)[j] == op;
    }
  }

  lemma DataKeeps(s: System, m: Move)
    requires Data(s) && Orderly(s, m)
    ensures Data(Next(s, m))
  {
    match m
    case ClientCalls(step) => ClientData(s, step);
    case KernelCompletes(_, _, _, _, _) => KernelData(s, m);
    case RunTick(foreign) => TickData(s, foreign);
  }

  lemma KeysKeep(s: System, m: Move)
    requires Good(s) && MoveAllowed(s, m)
    ensures Next(s, m).engine.futures.Keys <= Waiting(Next(s, m).pending) + Ready(Next(s, m).done)
  {
    match m
    case ClientCalls(step) => ClientFutures(s, step);
    case KernelCompletes(_, _, _, _, _) => CarriersMoved(s, m);
    case RunTick(foreign) =>
      forall fd | fd in Next(s, m).engine.futures ensures fd in Waiting(s.pending) {
        FuturesEnd(s, foreign, fd);
      }
  }

  lemma UndisturbedGood(s: System, m: Move)
    requires Good(s) && MoveAllowed(s, m) && !Disturbs(s, m)
    ensures Good(Next(s, m))
  {
    UndisturbedOrderly(s, m);
    DataKeeps(s, m);
    KeysKeep(s, m);
    forall op | Outstanding(Next(s, m), op) && Outstanding(s, op) && op.future.Some? ensures !Loses(s, m, op.fd) {
      UndisturbedKeeps(s, m, op);
    }
    AllKept(s, m);
    if m.RunTick? {
      TickAsOwed(s, m.foreign);
    }
  }

  lemma RemainsOutstanding(s: System, m: Move, op: Op)
    requires MoveAllowed(s, m) && Outstanding(s, op) && (m.RunTick? ==> op in s.pending)
    ensures Outstanding(Next(s, m), op)
  {
    var s' := Next(s, m);
    if m.KernelCompletes? {
      if op in s.pending {
        var j :| 0 <= j < |s.pending| && s.pending[j] == op;
        Moved(s, m, j);
        if j == m.i {
          DoneIsOutstanding(s', |s.done|);
        }
      } else {
        var j :| 0 <= j < |s.done| && OpsOf(s.done)[j] == op;
        Moved(s, m, j);
        DoneIsOutstanding(s', j);
      }
    }
  }

  /** An operation that a move leaves outstanding without its future. */
  lemma LosesOne(s: System, m: Move, op: Op)
    requires Base(s) && MoveAllowed(s, m) && Outstanding(s, op) && op.future.Some? && (m.RunTick? ==> op in s.pending)
    requires Loses(s, m, op.fd) || !Stored(s.engine, op)
    ensures !AllStored(Next(s, m))
  {
    KeepsFutureIff(s, m, op);
    RemainsOutstanding(s, m, op);
    if AllStored(Next(s, m)) {
      AllStoredMeans(Next(s, m), op);
    }
  }

  lemma CarriedWitness(s: System, fd: int) returns (op: Op)
    requires Carried(s, fd)
    ensures Outstanding(s, op) && op.future.Some? && op.fd == fd
  {
    if fd in Waiting(s.pending) {
      var i := WaitingWitness(s.pending, fd);
      op := s.pending[i];
    } else {
      var k := ReadyWitness(s.done, 0, fd);
      op := s.done[k].op;
      DoneIsOutstanding(s, k);
    }
  }

  lemma TickRecords(s: System, k: nat, foreign: Foreign)
    requires |s.delivered| == |s.seen| && k < |s.done| && AllAsOwed(Next(s, RunTick(foreign)))
    ensures Deliveries(Started(s), CqesOf(s.done), foreign)[k] == Owed(s.done[k])
  {
    AsOwedConcat(s.delivered, s.seen, Deliveries(Started(s), CqesOf(s.done), foreign), s.done);
  }

  lemma OvertakesDone(s: System, k: nat, foreign: Foreign)
    requires Good(s) && k < |s.done| && s.done[k].op.future.Some? && Named(s.done, k, s.done[k].op.fd)
    ensures !AllAsOwed(Next(s, RunTick(foreign)))
  {
    PositionIff(s, k, foreign);
    if AllAsOwed(Next(s, RunTick(foreign))) {
      TickRecords(s, k, foreign);
    }
  }

  lemma WaitingWitness(pending: seq<Op>, fd: int) returns (i: nat)
    requires fd in Waiting(pending)
    ensures i < |pending| && pending[i].future.Some? && pending[i].fd == fd
  {
    i :| i < |pending| && pending[i].future.Some? && pending[i].fd == fd;
  }

  lemma ReadyWitness(done: seq<Completion>, n: nat, fd: int) returns (k: nat)
    requires n <= |done| && fd in Ready(done[n..])
    ensures n <= k < |done| && done[k].op.future.Some? && done[k].op.fd == fd
  {
    var j: nat :| j < |done[n..]| && done[n..][j].op.future.Some? && done[n..][j].op.fd == fd;
    k := n + j;
  }

  lemma OvertakesUnsound(s: System, n: nat, foreign: Foreign)
    requires Good(s) && Overtakes(s, n)
    ensures !Sound(Next(s, RunTick(foreign)))
  {
    var fd := s.done[n].op.fd;
    if fd in Waiting(s.pending) {
      var i := WaitingWitness(s.pending, fd);
      PendingIsOutstanding(s, i);
      LosesOne(s, RunTick(foreign), s.pending[i]);
    } else {
      var k := ReadyWitness(s.done, n + 1, fd);
      OvertakesDone(s, k, foreign);
    }
  }

  lemma DisturbedUnsound(s: System, m: Move)
    requires Good(s) && MoveAllowed(s, m) && Disturbs(s, m)
    ensures !Sound(Next(s, m))
  {
    match m
    case ClientCalls(step) =>
      var op := CarriedWitness(s, step.fd);
      LosesOne(s, m, op);
    case RunTick(foreign) =>
      var n: nat :| Overtakes(s, n);
      OvertakesUnsound(s, n, foreign);
  }

  /** A move ends soundness exactly when it disturbs. */
  lemma StepIff(s: System, m: Move)
    requires Good(s) && MoveAllowed(s, m)
    ensures if Disturbs(s, m) then !Sound(Next(s, m)) else Good(Next(s, m))
  {
    if Disturbs(s, m) {
      DisturbedUnsound(s, m);
    } else {
      UndisturbedGood(s, m);
    }
  }

  lemma LostDone(s: System, k: nat, foreign: Foreign)
    requires Base(s) && k < |s.done| && !Stored(s.engine, s.done[k].op)
    ensures !AllAsOwed(Next(s, RunTick(foreign)))
  {
    FuturesAt(s, k, foreign, s.done[k].op.fd);
    CqeDecodes(s.done[k]);
    assert Deliveries(Started(s), CqesOf(s.done), foreign)[k] != Owed(s.done[k]);
    if AllAsOwed(Next(s, RunTick(foreign))) {
      TickRecords(s, k, foreign);
    }
  }

  lemma LostWitness(s: System) returns (op: Op)
    requires !AllStored(s)
    ensures Outstanding(s, op) && !Stored(s.engine, op)
  {
    if i :| 0 <= i < |s.pending| && !Stored(s.engine, s.pending[i]) {
      op := s.pending[i];
    } else {
      var k :| 0 <= k < |s.done| && !Stored(s.engine, s.done[k].op);
      op := s.done[k].op;
      DoneIsOutstanding(s, k);
    }
  }

  /** What was delivered wrongly stays so. */
  lemma OwedBefore(s: System, m: Move)
    requires |s.delivered| == |s.seen| && AllAsOwed(Next(s, m))
    ensures AllAsOwed(s)
  {
    if m.RunTick? {
      AsOwedConcat(s.delivered, s.seen, Deliveries(Started(s), CqesOf(s.done), m.foreign), s.done);
    }
  }

  /** A lost future is never found again. */
  lemma StaysUnsound(s: System, m: Move)
    requires Base(s) && MoveAllowed(s, m) && !Sound(s)
    ensures !Sound(Next(s, m))
  {
    if AllAsOwed(Next(s, m)) {
      OwedBefore(s, m);
      var op := LostWitness(s);
      if m.RunTick? && op !in s.pending {
        var k :| 0 <= k < |s.done| && OpsOf(s.done)[k] == op;
        LostDone(s, k, m.foreign);
      } else {
        LosesOne(s, m, op);
      }
    }
  }

  lemma BaseKeeps(s: System, m: Move)
    requires Base(s) && MoveAllowed(s, m)
    ensures Base(Next(s, m))
  {
    match m
    case ClientCalls(step) => ClientBase(s, step);
    case KernelCompletes(_, _, _, _, _) => KernelBase(s, m);
    case RunTick(_) =>
  }

  lemma SoundStep(s: System, m: Move)
    requires Base(s) && (Sound(s) ==> Good(s)) && MoveAllowed(s, m)
    ensures Base(Next(s, m))
    ensures Sound(Next(s, m)) <==> Sound(s) && !Disturbs(s, m)
    ensures Sound(Next(s, m)) ==> Good(Next(s, m))
  {
    BaseKeeps(s, m);
    if Sound(s) {
      StepIff(s, m);
    } else {
      StaysUnsound(s, m);
    }
  }

  // ---------------------------------------------------------------------------
  // Runs
  // ---------------------------------------------------------------------------

  ghost predicate Linked(states: seq<System>, moves: seq<Move>, i: nat)
    requires i < |moves| < |states|
  {
    MoveAllowed(states[i], moves[i]) && states[i + 1] == Next(states[i], moves[i])
  }

  ghost predicate SystemRun(states: seq<System>, moves: seq<Move>) {
    |states| == |moves| + 1 && forall i :: 0 <= i < |moves| ==> Linked(states, moves, i)
  }

  lemma StepOfRun(states: seq<System>, moves: seq<Move>, i: nat)
    requires SystemRun(states, moves) && i < |moves|
    ensures MoveAllowed(states[i], moves[i]) && states[i + 1] == Next(states[i], moves[i])
  {
    assert Linked(states, moves, i);
  }

  function NewSystem(p: Pool, store: map<nat, Fut>): System {
    System(NewEngine(p), store, [], [], [], [], [])
  }

  /** A run of a new system. */
  ghost predicate FreshRun(size: nat, count: nat, states: seq<System>, moves: seq<Move>) {
    && size * count < U64 && count < 0x1_0000
    && SystemRun(states, moves) && states[0] == NewSystem(NewPool(size, count, true).value, states[0].store)
  }

  lemma NewSystemGood(size: nat, count: nat, store: map<nat, Fut>)
    requires size * count < U64 && count < 0x1_0000
    ensures Good(NewSystem(NewPool(size, count, true).value, store))
  {
    NewEngineValid(size, count);
  }

  lemma {:induction false} BaseAt(size: nat, count: nat, states: seq<System>, moves: seq<Move>, n: nat)
    requires FreshRun(size, count, states, moves) && n <= |moves|
    ensures Base(states[n])
  {
    if n == 0 {
      NewSystemGood(size, count, states[0].store);
    } else {
      BaseAt(size, count, states, moves, n - 1);
      BaseLinked(states, moves, n - 1);
    }
  }

  lemma BaseLinked(states: seq<System>, moves: seq<Move>, i: nat)
    requires SystemRun(states, moves) && i < |moves| && Base(states[i])
    ensures Base(states[i + 1])
  {
    StepOfRun(states, moves, i);
    BaseKeeps(states[i], moves[i]);
  }

  ghost predicate AllBase(states: seq<System>) {
    forall i :: 0 <= i < |states| ==> Base(states[i])
  }

  lemma BaseInRun(size: nat, count: nat, states: seq<System>, moves: seq<Move>)
    requires FreshRun(size, count, states, moves)
    ensures AllBase(states)
  {
    forall i | 0 <= i < |states| ensures Base(states[i]) {
      BaseAt(size, count, states, moves, i);
    }
  }

  /** The first `n` moves place no receive under a receive. */
  ghost predicate OrderlyUntil(states: seq<System>, moves: seq<Move>, n: nat)
    requires n <= |moves| < |states|
  {
    forall i :: 0 <= i < n ==> Orderly(states[i], moves[i])
  }

  /** Whatever has been lost or delivered wrongly, receives keep their buffers and their data. */
  lemma {:induction false} DataAt(size: nat, count: nat, states: seq<System>, moves: seq<Move>, n: nat)
    requires FreshRun(size, count, states, moves) && n <= |moves| && OrderlyUntil(states, moves, n)
    ensures Data(states[n])
  {
    if n == 0 {
      NewSystemGood(size, count, states[0].store);
    } else {
      DataAt(size, count, states, moves, n - 1);
      DataLinked(states, moves, n - 1);
    }
  }

  lemma DataLinked(states: seq<System>, moves: seq<Move>, i: nat)
    requires SystemRun(states, moves) && i < |moves| && Data(states[i]) && Orderly(states[i], moves[i])
    ensures Data(states[i + 1])
  {
    StepOfRun(states, moves, i);
    DataKeeps(states[i], moves[i]);
  }

  // ---------------------------------------------------------------------------
  // Each operation by itself
  // ---------------------------------------------------------------------------

  /** Move `a` placed the operation, and it has been outstanding from then until state `n`. */
  ghost predicate Placed(states: seq<System>, moves: seq<Move>, a: nat, n: nat, op: Op)
    requires a < n <= |moves| < |states|
  {
    && moves[a].ClientCalls? && Perform(states[a].engine, moves[a].step).op == Some(op)
    && forall j :: a < j <= n ==> Outstanding(states[j], op)
  }

  /** Whatever is outstanding was placed by one call and has been outstanding ever since. */
  lemma {:induction false} Submitted(states: seq<System>, moves: seq<Move>, n: nat, op: Op) returns (a: nat)
    requires SystemRun(states, moves) && states[0].pending == [] && states[0].done == []
    requires n <= |moves| && Outstanding(states[n], op)
    ensures a < n && Placed(states, moves, a, n, op)
  {
    assert n > 0;
    PlacedLast(states, moves, n, op);
    if Outstanding(states[n - 1], op) {
      a := Submitted(states, moves, n - 1, op);
      PlacedLonger(states, moves, a, n, op);
    } else {
      a := n - 1;
    }
  }

  lemma PlacedLast(states: seq<System>, moves: seq<Move>, n: nat, op: Op)
    requires SystemRun(states, moves) && 0 < n <= |moves| && Outstanding(states[n], op)
    ensures Outstanding(states[n - 1], op) || Placed(states, moves, n - 1, n, op)
  {
    OutstandingLinked(states, moves, n - 1, op);
  }

  lemma OutstandingLinked(states: seq<System>, moves: seq<Move>, i: nat, op: Op)
    requires SystemRun(states, moves) && i < |moves| && Outstanding(states[i + 1], op)
    ensures Outstanding(states[i], op) || (moves[i].ClientCalls? && Perform(states[i].engine, moves[i].step).op == Some(op))
  {
    StepOfRun(states, moves, i);
    StillOutstanding(states[i], moves[i], op);
  }

  lemma PlacedLonger(states: seq<System>, moves: seq<Move>, a: nat, n: nat, op: Op)
    requires a + 1 < n <= |moves| < |states| && Placed(states, moves, a, n - 1, op)
    ensures Placed(states, moves, a, n, op) <==> Outstanding(states[n], op)
  {
  }

  ghost predicate LosesBetween(states: seq<System>, moves: seq<Move>, a: nat, n: nat, fd: int)
    requires a < n <= |moves| < |states|
  {
    exists j :: a < j < n && Loses(states[j], moves[j], fd)
  }

  lemma LosesOneMore(states: seq<System>, moves: seq<Move>, a: nat, n: nat, fd: int)
    requires a + 1 < n <= |moves| < |states|
    ensures LosesBetween(states, moves, a, n, fd) <==> LosesBetween(states, moves, a, n - 1, fd) || Loses(states[n - 1], moves[n - 1], fd)
  {
    if Loses(states[n - 1], moves[n - 1], fd) {
      assert a < n - 1 < n;
    }
  }

  lemma HasFutureAtFirst(s: System, m: Move, op: Op)
    requires MoveAllowed(s, m) && m.ClientCalls? && Perform(s.engine, m.step).op == Some(op) && op.future.Some?
    ensures Stored(Next(s, m).engine, op)
  {
    FuturesAfter(s.engine, m.step);
    PlacedOp(s.engine, m.step);
  }

  ghost predicate KeptAt(states: seq<System>, moves: seq<Move>, i: nat, op: Op)
    requires i < |moves| < |states|
  {
    Stored(states[i + 1].engine, op) <==> Stored(states[i].engine, op) && !Loses(states[i], moves[i], op.fd)
  }

  lemma {:induction false} StoredChain(states: seq<System>, moves: seq<Move>, a: nat, n: nat, op: Op)
    requires a < n <= |moves| < |states| && Stored(states[a + 1].engine, op)
    requires forall i :: a < i < n ==> KeptAt(states, moves, i, op)
    ensures Stored(states[n].engine, op) <==> !LosesBetween(states, moves, a, n, op.fd)
  {
    if n > a + 1 {
      StoredChain(states, moves, a, n - 1, op);
      LosesOneMore(states, moves, a, n, op.fd);
      assert KeptAt(states, moves, n - 1, op);
    }
  }

  lemma RunKeepsAt(states: seq<System>, moves: seq<Move>, i: nat, op: Op)
    requires SystemRun(states, moves) && i < |moves| && Base(states[i]) && Outstanding(states[i], op) && op.future.Some?
    ensures KeptAt(states, moves, i, op)
  {
    StepOfRun(states, moves, i);
    KeepsFutureIff(states[i], moves[i], op);
  }

  lemma RunStoresAt(states: seq<System>, moves: seq<Move>, a: nat, op: Op)
    requires SystemRun(states, moves) && a < |moves| && op.future.Some?
    requires moves[a].ClientCalls? && Perform(states[a].engine, moves[a].step).op == Some(op)
    ensures Stored(states[a + 1].engine, op)
  {
    StepOfRun(states, moves, a);
    HasFutureAtFirst(states[a], moves[a], op);
  }

  /** An outstanding operation has its future exactly when no move since its submission lost the one on its descriptor. */
  lemma HasFutureIff(states: seq<System>, moves: seq<Move>, a: nat, n: nat, op: Op)
    requires SystemRun(states, moves) && AllBase(states)
    requires a < n <= |moves| && Placed(states, moves, a, n, op) && op.future.Some?
    ensures Stored(states[n].engine, op) <==> !LosesBetween(states, moves, a, n, op.fd)
  {
    RunStoresAt(states, moves, a, op);
    forall i | a < i < n ensures KeptAt(states, moves, i, op) {
      RunKeepsAt(states, moves, i, op);
    }
    StoredChain(states, moves, a, n, op);
  }

  /**
   Each operation. In every run that places no receive under a receive, whatever else
   has gone wrong and on whatever descriptors: the completion at position `k` of a tick
   delivers exactly what it is owed iff, since its submission, no call stored a future for
   its descriptor and no earlier completion, of this tick or another, named it.
   */
  lemma OperationIff(size: nat, count: nat, states: seq<System>, moves: seq<Move>, n: nat, k: nat) returns (a: nat)
    requires FreshRun(size, count, states, moves) && n < |moves| && OrderlyUntil(states, moves, n)
    requires moves[n].RunTick? && k < |states[n].done| && states[n].done[k].op.future.Some?
    ensures a < n && Placed(states, moves, a, n, states[n].done[k].op)
    ensures var op, p := states[n].done[k].op, |states[n].seen| + k;
            && p < |states[n + 1].seen| == |states[n + 1].delivered| && states[n + 1].seen[p] == states[n].done[k]
            && (states[n + 1].delivered[p] == Owed(states[n].done[k])
                <==> !LosesBetween(states, moves, a, n, op.fd) && !Named(states[n].done, k, op.fd))
  {
    var op := states[n].done[k].op;
    DoneIsOutstanding(states[n], k);
    a := Submitted(states, moves, n, op);
    BaseInRun(size, count, states, moves);
    HasFutureIff(states, moves, a, n, op);
    DataAt(size, count, states, moves, n);
    PositionLinked(states, moves, n, k);
  }

  lemma PositionLinked(states: seq<System>, moves: seq<Move>, n: nat, k: nat)
    requires SystemRun(states, moves) && n < |moves| && moves[n].RunTick? && Data(states[n])
    requires k < |states[n].done| && states[n].done[k].op.future.Some?
    ensures var op, p := states[n].done[k].op, |states[n].seen| + k;
            && p < |states[n + 1].seen| == |states[n + 1].delivered| && states[n + 1].seen[p] == states[n].done[k]
            && (states[n + 1].delivered[p] == Owed(states[n].done[k]) <==> Stored(states[n].engine, op) && !Named(states[n].done, k, op.fd))
  {
    StepOfRun(states, moves, n);
    TickPosition(states[n], moves[n].foreign, k);
  }

  lemma TickPosition(s: System, foreign: Foreign, k: nat)
    requires Data(s) && k < |s.done| && s.done[k].op.future.Some?
    ensures var s', p, op := Next(s, RunTick(foreign)), |s.seen| + k, s.done[k].op;
            && p < |s'.seen| == |s'.delivered| && s'.seen[p] == s.done[k]
            && (s'.delivered[p] == Owed(s.done[k]) <==> Stored(s.engine, op) && !Named(s.done, k, op.fd))
  {
    PositionIff(s, k, foreign);
    TickAppends(s, foreign, k);
  }

  lemma TickAppends(s: System, foreign: Foreign, k: nat)
    requires |s.delivered| == |s.seen| && k < |s.done|
    ensures var s', p := Next(s, RunTick(foreign)), |s.seen| + k;
            && |s'.seen| == |s'.delivered| == |s.seen| + |s.done| && s'.seen[p] == s.done[k]
            && s'.delivered[p] == Deliveries(Started(s), CqesOf(s.done), foreign)[k]
  {
  }

  /** What has been delivered stays so. */
  lemma {:induction false} DeliveredStays(states: seq<System>, moves: seq<Move>, n: nat, m: nat)
    requires SystemRun(states, moves) && n <= m <= |moves|
    ensures states[n].delivered <= states[m].delivered && states[n].seen <= states[m].seen
  {
    if n < m {
      DeliveredStays(states, moves, n, m - 1);
      DeliveredLinked(states, moves, m - 1);
    }
  }

  lemma DeliveredLinked(states: seq<System>, moves: seq<Move>, i: nat)
    requires SystemRun(states, moves) && i < |moves|
    ensures states[i].delivered <= states[i + 1].delivered && states[i].seen <= states[i + 1].seen
  {
    StepOfRun(states, moves, i);
  }

  // ---------------------------------------------------------------------------
  // All operations of a run
  // ---------------------------------------------------------------------------

  /** None of the first `n` moves disturbs. */
  ghost predicate Undisturbed(states: seq<System>, moves: seq<Move>, n: nat)
    requires n <= |moves| < |states|
  {
    forall i :: 0 <= i < n ==> !Disturbs(states[i], moves[i])
  }

  lemma UndisturbedLonger(states: seq<System>, moves: seq<Move>, n: nat)
    requires 0 < n <= |moves| < |states|
    ensures Undisturbed(states, moves, n) <==> Undisturbed(states, moves, n - 1) && !Disturbs(states[n - 1], moves[n - 1])
  {
  }

  lemma SoundLinked(states: seq<System>, moves: seq<Move>, i: nat)
    requires SystemRun(states, moves) && i < |moves| && Base(states[i]) && (Sound(states[i]) ==> Good(states[i]))
    ensures Sound(states[i + 1]) <==> Sound(states[i]) && !Disturbs(states[i], moves[i])
    ensures Sound(states[i + 1]) ==> Good(states[i + 1])
  {
    StepOfRun(states, moves, i);
    SoundStep(states[i], moves[i]);
  }

  ghost predicate SoundExactly(states: seq<System>, moves: seq<Move>, n: nat)
    requires n <= |moves| < |states|
  {
    (Sound(states[n]) <==> Undisturbed(states, moves, n)) && (Sound(states[n]) ==> Good(states[n]))
  }

  lemma SoundLonger(states: seq<System>, moves: seq<Move>, n: nat)
    requires SystemRun(states, moves) && 0 < n <= |moves| && Base(states[n - 1]) && SoundExactly(states, moves, n - 1)
    ensures SoundExactly(states, moves, n)
  {
    SoundLinked(states, moves, n - 1);
    UndisturbedLonger(states, moves, n);
  }

  lemma {:induction false} SoundIff(size: nat, count: nat, states: seq<System>, moves: seq<Move>, n: nat)
    requires FreshRun(size, count, states, moves) && n <= |moves|
    ensures SoundExactly(states, moves, n)
  {
    if n == 0 {
      NewSystemGood(size, count, states[0].store);
    } else {
      SoundIff(size, count, states, moves, n - 1);
      BaseAt(size, count, states, moves, n - 1);
      SoundLonger(states, moves, n);
    }
  }

  /**
   Delivery. Over every run, whatever buffers are recycled among descriptors and however
   operations share them: each completion taken has resolved exactly the future passed
   with its own submission, with the bytes the kernel wrote for it, the count it reported
   or its error, and no outstanding operation has lost its future, exactly when no move
   of the run was one that disturbs.
   */
  lemma Delivery(size: nat, count: nat, states: seq<System>, moves: seq<Move>)
    requires FreshRun(size, count, states, moves)
    ensures Sound(states[|moves|]) <==> Undisturbed(states, moves, |moves|)
    ensures Sound(states[|moves|]) ==> Good(states[|moves|])
  {
    SoundIff(size, count, states, moves, |moves|);
  }

  /** Once nothing that carries a future is outstanding, what was delivered decides alone. */
  lemma DeliveredIff(size: nat, count: nat, states: seq<System>, moves: seq<Move>)
    requires FreshRun(size, count, states, moves)
    requires var s := states[|moves|]; Waiting(s.pending) == {} && Ready(s.done) == {}
    ensures AllAsOwed(states[|moves|]) <==> Undisturbed(states, moves, |moves|)
  {
    Delivery(size, count, states, moves);
    var s := states[|moves|];
    assert forall i :: 0 <= i < |s.pending| && s.pending[i].future.Some? ==> s.pending[i].fd in Waiting(s.pending);
    assert forall i :: 0 <= i < |s.done| && s.done[i].op.future.Some? ==> s.done[i].op.fd in Ready(s.done);
  }

  // ---------------------------------------------------------------------------
  // Native futures
  // ---------------------------------------------------------------------------

  function Flat(ds: seq<seq<Event>>): seq<Event> {
    if ds == [] then [] else Flat(ds[..|ds| - 1]) + ds[|ds| - 1]
  }

  lemma {:induction false} FlatConcat(a: seq<seq<Event>>, b: seq<seq<Event>>)
    ensures Flat(a + b) == Flat(a) + Flat(b)
  {
    if b == [] {
      assert a + b == a;
    } else {
      var n := |b| - 1;
      FlatConcat(a, b[..n]);
      assert (a + b)[..|a + b| - 1] == a + b[..n] && (a + b)[|a + b| - 1] == b[n];
      assert Flat(a) + Flat(b[..n]) + b[n] == Flat(a) + (Flat(b[..n]) + b[n]);
    }
  }

  lemma DeliveriesPrefix(t: TickState, cs: seq<Cqe>, n: nat, foreign: Foreign)
    requires n <= |cs|
    ensures Deliveries(t, cs, foreign)[..n] == Deliveries(t, cs[..n], foreign)
  {
    forall k | 0 <= k < n ensures Deliveries(t, cs, foreign)[k] == Deliveries(t, cs[..n], foreign)[k] {
      assert cs[..n][..k] == cs[..k];
    }
  }

  /** The events of a list are those of its completions, one after the other. */
  lemma {:induction false} DeliveriesFlat(t: TickState, cs: seq<Cqe>, foreign: Foreign)
    requires t.events == []
    ensures Flat(Deliveries(t, cs, foreign)) == Process(t, cs, foreign).events
  {
    if cs != [] {
      var n := |cs| - 1;
      DeliveriesFlat(t, cs[..n], foreign);
      DeliveriesPrefix(t, cs, n, foreign);
      EmittedIs(Process(t, cs[..n], foreign), cs[n], foreign);
    }
  }

  /** In an undisturbed tick the resolutions are what its completions are owed, in their order. */
  lemma TickDelivers(s: System, foreign: Foreign)
    requires Good(s) && !Disturbs(s, RunTick(foreign))
    ensures Process(Started(s), CqesOf(s.done), foreign).events == AllOwed(s.done)
  {
    var ds := Deliveries(Started(s), CqesOf(s.done), foreign);
    TickAsOwed(s, foreign);
    AsOwedConcat(s.delivered, s.seen, ds, s.done);
    FlatOwed(ds, s.done);
    DeliveriesFlat(Started(s), CqesOf(s.done), foreign);
  }

  lemma {:induction false} FirstForConcat(a: seq<Event>, b: seq<Event>, future: nat)
    ensures FirstFor(a + b, future) == if FirstFor(a, future).Some? then FirstFor(a, future) else FirstFor(b, future)
  {
    if b == [] {
      assert a + b == a;
    } else {
      var n := |b| - 1;
      FirstForConcat(a, b[..n], future);
      assert (a + b)[..|a + b| - 1] == a + b[..n] && (a + b)[|a + b| - 1] == b[n];
    }
  }

  ghost predicate StoreFollows(s: System, start: map<nat, Fut>, future: nat) {
    var first := FirstFor(Flat(s.delivered), future);
    && future in start && future in s.store && s.store[future] == After(start[future], Flat(s.delivered), future)
    && (first.Some? ==> !first.value.Pending?)
  }

  lemma TickFollows(s: System, foreign: Foreign, start: map<nat, Fut>, future: nat)
    requires StoreFollows(s, start, future)
    ensures StoreFollows(Next(s, RunTick(foreign)), start, future)
  {
    var cs := CqesOf(s.done);
    var events := Process(Started(s), cs, foreign).events;
    StoreFollowsEvents(Started(s), cs, foreign, future);
    DeliveriesFlat(Started(s), cs, foreign);
    FlatConcat(s.delivered, Deliveries(Started(s), cs, foreign));
    FirstForConcat(Flat(s.delivered), events, future);
  }

  lemma MoveFollows(s: System, m: Move, start: map<nat, Fut>, future: nat)
    requires StoreFollows(s, start, future)
    ensures StoreFollows(Next(s, m), start, future)
  {
    if m.RunTick? {
      TickFollows(s, m.foreign, start, future);
    } else {
      assert Next(s, m).store == s.store && Next(s, m).delivered == s.delivered;
    }
  }

  /** In every run a native future is settled by the first event ever delivered to it, and by no other. */
  lemma StoreInEveryRun(states: seq<System>, moves: seq<Move>, future: nat)
    requires SystemRun(states, moves) && states[0].delivered == [] && future in states[0].store
    ensures StoreFollows(states[|moves|], states[0].store, future)
  {
    StoreAt(states, moves, |moves|, future);
  }

  lemma {:induction false} StoreAt(states: seq<System>, moves: seq<Move>, n: nat, future: nat)
    requires SystemRun(states, moves) && n <= |moves| && states[0].delivered == [] && future in states[0].store
    ensures StoreFollows(states[n], states[0].store, future)
  {
    if n == 0 {
      FollowsAtStart(states[0], future);
    } else {
      StoreAt(states, moves, n - 1, future);
      StoreLinked(states, moves, n - 1, states[0].store, future);
    }
  }

  lemma StoreLinked(states: seq<System>, moves: seq<Move>, i: nat, start: map<nat, Fut>, future: nat)
    requires SystemRun(states, moves) && i < |moves| && StoreFollows(states[i], start, future)
    ensures StoreFollows(states[i + 1], start, future)
  {
    StepOfRun(states, moves, i);
    MoveFollows(states[i], moves[i], start, future);
  }

  /**
   In every run a tick puts on the ready queue what its events wake, in their order; and an
   event wakes the callbacks that its native future had from the start exactly if it is the
   first event ever delivered to it, so they are queued once.
   */
  lemma WokenOnce(states: seq<System>, moves: seq<Move>, n: nat)
    requires SystemRun(states, moves) && states[0].delivered == [] && n < |moves| && moves[n].RunTick?
    ensures var s, foreign, start := states[n], moves[n].foreign, states[0].store;
            var events := Process(Started(s), CqesOf(s.done), foreign).events;
            && states[n + 1].queue == s.queue + Scheduled(s.store, events, |events|, foreign)
            && forall k :: 0 <= k < |events| && events[k].future in start ==>
                 Woken(s.store, events, k, foreign)
                 == if start[events[k].future].state.Pending? && NeverBefore(s.delivered, events, k)
                    then HandlesFor(events[k].future, start[events[k].future].callbacks) else []
  {
    var s, foreign, start := states[n], moves[n].foreign, states[0].store;
    var events := Process(Started(s), CqesOf(s.done), foreign).events;
    StepOfRun(states, moves, n);
    QueueFollowsEvents(Started(s), CqesOf(s.done), foreign);
    forall k | 0 <= k < |events| && events[k].future in start
      ensures Woken(s.store, events, k, foreign)
              == if start[events[k].future].state.Pending? && NeverBefore(s.delivered, events, k)
                 then HandlesFor(events[k].future, start[events[k].future].callbacks) else []
    {
      StoreAt(states, moves, n, events[k].future);
      WokenIff(s, start, events, k, foreign);
    }
  }

  /** No event delivered by earlier ticks, and none before position `k` of this one, is for the same future. */
  ghost predicate NeverBefore(delivered: seq<seq<Event>>, events: seq<Event>, k: nat)
    requires k < |events|
  {
    && (forall i, j :: 0 <= i < |delivered| && 0 <= j < |delivered[i]| ==> delivered[i][j].future != events[k].future)
    && IsFirst(events, k)
  }

  lemma WokenIff(s: System, start: map<nat, Fut>, events: seq<Event>, k: nat, foreign: Foreign)
    requires k < |events| && StoreFollows(s, start, events[k].future)
    ensures Woken(s.store, events, k, foreign)
            == if start[events[k].future].state.Pending? && NeverBefore(s.delivered, events, k)
               then HandlesFor(events[k].future, start[events[k].future].callbacks) else []
  {
    FlatMentions(s.delivered, events[k].future);
  }

  lemma {:induction false} FlatMentions(ds: seq<seq<Event>>, future: nat)
    ensures FirstFor(Flat(ds), future).None? <==> forall i, j :: 0 <= i < |ds| && 0 <= j < |ds[i]| ==> ds[i][j].future != future
  {
    if ds != [] {
      var n := |ds| - 1;
      FlatMentions(ds[..n], future);
      FirstForConcat(Flat(ds[..n]), ds[n], future);
      FirstForNone(ds[n], future);
      assert forall i :: 0 <= i < n ==> ds[..n][i] == ds[i];
    }
  }

  lemma FollowsAtStart(s: System, future: nat)
    requires s.delivered == [] && future in s.store
    ensures StoreFollows(s, s.store, future)
  {
  }

  lemma {:induction false} FlatOwed(ds: seq<seq<Event>>, ks: seq<Completion>)
    requires AsOwed(ds, ks)
    ensures Flat(ds) == AllOwed(ks)
  {
    if ks != [] {
      FlatOwed(ds[..|ds| - 1], ks[..|ks| - 1]);
    }
  }

  lemma {:induction false} FirstOwed(done: seq<Completion>, i: nat, future: nat)
    requires forall j :: 0 <= j < |done| && j != i ==> done[j].op.future != Some(future)
    ensures FirstFor(AllOwed(done), future)
            == if i < |done| && done[i].op.future == Some(future) then Some(OwedState(done[i])) else None
  {
    if done != [] {
      var n := |done| - 1;
      FirstOwed(done[..n], i, future);
      if done[n].op.future.Some? {
        assert AllOwed(done)[..|AllOwed(done)| - 1] == AllOwed(done[..n]);
      } else {
        assert AllOwed(done) == AllOwed(done[..n]);
      }
    }
  }

  /**
   In every undisturbed run a native future that was pending at the start and was passed
   with exactly one completed submission is settled with what that completion was owed.
   */
  lemma Settled(size: nat, count: nat, states: seq<System>, moves: seq<Move>, future: nat, i: nat)
    requires FreshRun(size, count, states, moves)
    requires Undisturbed(states, moves, |moves|)
    requires future in states[0].store && states[0].store[future].state.Pending?
    requires var seen := states[|moves|].seen;
             i < |seen| && forall j :: 0 <= j < |seen| ==> (seen[j].op.future == Some(future) <==> j == i)
    ensures var s := states[|moves|]; future in s.store && s.store[future] == Fut(OwedState(s.seen[i]), [])
  {
    var s := states[|moves|];
    Delivery(size, count, states, moves);
    StoreInEveryRun(states, moves, future);
    FlatOwed(s.delivered, s.seen);
    FirstOwed(s.seen, i, future);
  }

  // ---------------------------------------------------------------------------
  // Runs that end wrongly
  // ---------------------------------------------------------------------------

  lemma Extended(states: seq<System>, moves: seq<Move>, m: Move) returns (states': seq<System>, moves': seq<Move>)
    requires SystemRun(states, moves) && MoveAllowed(states[|moves|], m)
    ensures SystemRun(states', moves') && |moves'| == |moves| + 1
    ensures states'[0] == states[0] && states'[|moves'|] == Next(states[|moves|], m)
  {
    states', moves' := states + [Next(states[|moves|], m)], moves + [m];
    forall i | 0 <= i < |moves'| ensures Linked(states', moves', i) {
      ExtendedLinked(states, moves, m, i);
    }
  }

  lemma ExtendedLinked(states: seq<System>, moves: seq<Move>, m: Move, i: nat)
    requires SystemRun(states, moves) && MoveAllowed(states[|moves|], m) && i <= |moves|
    ensures Linked(states + [Next(states[|moves|], m)], moves + [m], i)
  {
    if i < |moves| {
      StepOfRun(states, moves, i);
    }
  }

  function ArmedOp(fd: int, future: nat): Op {
    Op(Recv, fd, 0, Some(future))
  }

  /** A receive is the one outstanding operation, and nothing has been delivered. */
  ghost predicate IsArmed(s: System, fd: int, future: nat) {
    && Good(s) && s.pending == [ArmedOp(fd, future)] && s.engine.futures == map[fd := future]
    && s.done == [] && s.seen == [] && s.delivered == []
    && |s.engine.pool.free| == s.engine.pool.count - 1 && s.engine.pool.quarantine == []
  }

  lemma FirstReceive(p: Pool, fd: int, future: nat, t: FdStates.SocketType)
    requires p.free != [] && p.quarantine == []
    ensures var r := Perform(RegisterFd(NewEngine(p), fd, t), DoReceive(Recv, fd, future, 0, true, true));
            r.op == Some(Op(Recv, fd, p.free[0], Some(future))) && r.engine.futures == map[fd := future]
            && r.engine.pool.free == p.free[1..] && r.engine.pool.quarantine == [] && r.engine.pool.count == p.count
  {
  }

  function Registration(fd: int): Move {
    ClientCalls(DoRegister(fd, FdStates.TcpStream))
  }

  function Arming(fd: int, future: nat): Move {
    ClientCalls(DoReceive(Recv, fd, future, 0, true, true))
  }

  lemma ArmedSystem(p: Pool, fd: int, future: nat)
    requires Good(NewSystem(p, map[])) && IsI32(fd)
    requires p.free != [] && p.free[0] == 0 && |p.free| == p.count && p.quarantine == []
    ensures var s := NewSystem(p, map[]);
            var s1 := Next(s, Registration(fd));
            && MoveAllowed(s, Registration(fd)) && MoveAllowed(s1, Arming(fd, future))
            && IsArmed(Next(s1, Arming(fd, future)), fd, future)
            && Next(s1, Arming(fd, future)).engine.pool.count == p.count
  {
    var s := NewSystem(p, map[]);
    var s1 := Next(s, Registration(fd));
    assert Good(s1) by {
      StepIff(s, Registration(fd));
    }
    FirstReceive(p, fd, future, FdStates.TcpStream);
    StepIff(s1, Arming(fd, future));
  }

  /** A fresh system in which a descriptor has been registered and a receive submitted. */
  lemma ArmedRun(size: nat, count: nat, fd: int, future: nat) returns (states: seq<System>, moves: seq<Move>)
    requires size * count < U64 && 0 < count < 0x1_0000 && IsI32(fd)
    ensures SystemRun(states, moves) && states[0] == NewSystem(NewPool(size, count, true).value, map[])
    ensures IsArmed(states[|moves|], fd, future) && states[|moves|].engine.pool.count == count
  {
    var p := NewPool(size, count, true).value;
    NewSystemGood(size, count, map[]);
    ArmedSystem(p, fd, future);
    states, moves := Extended([NewSystem(p, map[])], [], Registration(fd));
    states, moves := Extended(states, moves, Arming(fd, future));
  }

  /** The first event of a tick, from the completion at the front of the queue. */
  lemma FirstDelivery(s: System, foreign: Foreign)
    requires |s.done| == 1 && s.seen == [] && s.delivered == [] && IsI32(s.done[0].op.fd)
    ensures var fd := s.done[0].op.fd;
            Next(s, RunTick(foreign)).delivered
            == [if fd in s.engine.futures then [Event(s.engine.futures[fd], Resolution(Extract(s.engine, CqeOf(s.done[0])).1))] else []]
  {
    CqeDecodes(s.done[0]);
    var cs := CqesOf(s.done);
    assert cs[..0] == [];
    assert Deliveries(Started(s), cs, foreign)[0] == Emitted(Started(s), cs[0]);
  }

  /** A receive that ends with nothing to read. */
  lemma EmptyReceive(e: Engine, fd: int, future: nat)
    requires IsI32(fd)
    ensures Resolution(Extract(e, CqeOf(Completion(ArmedOp(fd, future), 0, [], None, 0))).1) == Finished(Bytes([]))
  {
    CqeDecodes(Completion(ArmedOp(fd, future), 0, [], None, 0));
  }

  lemma CloseUnderReceive(s: System, fd: int, future: nat)
    requires IsArmed(s, fd, future) && IsI32(fd)
    ensures var m := ClientCalls(DoClose(fd, true, true));
            MoveAllowed(s, m) && Next(s, m) == s.(pending := [ArmedOp(fd, future), Op(Close, fd, 0, None)])
  {
  }

  lemma CloseEnds(s: System, fd: int, future: nat, result: int, foreign: Foreign)
    requires IsI32(fd) && s.pending == [ArmedOp(fd, future), Op(Close, fd, 0, None)]
    requires s.engine.futures == map[fd := future] && s.done == [] && s.seen == [] && s.delivered == []
    ensures var m := KernelCompletes(1, result, [], None, 0);
            var s' := Next(Next(s, m), RunTick(foreign));
            && MoveAllowed(s, m)
            && s'.delivered == [[Event(future, if result < 0 then Failed(OsError(-result)) else Finished(Num(result)))]]
            && s'.seen == [Completion(Op(Close, fd, 0, None), result, [], None, 0)]
  {
    var k := Completion(Op(Close, fd, 0, None), result, [], None, 0);
    var s1 := Next(s, KernelCompletes(1, result, [], None, 0));
    assert s1.done == [k] && s1.engine == s.engine && s1.seen == [] && s1.delivered == [];
    FirstDelivery(s1, foreign);
    OwnItem(s1.engine, k);
    SeenAfter(s1, foreign);
  }

  lemma SeenAfter(s: System, foreign: Foreign)
    requires s.seen == []
    ensures Next(s, RunTick(foreign)).seen == s.done
  {
  }

  /** Closing a descriptor under a receive settles the receive's future with the result of the close. */
  lemma CloseOvertakesReceive(size: nat, count: nat, fd: int, future: nat, result: int, foreign: Foreign)
    returns (states: seq<System>, moves: seq<Move>)
    requires size * count < U64 && 0 < count < 0x1_0000 && IsI32(fd)
    ensures SystemRun(states, moves) && states[0] == NewSystem(NewPool(size, count, true).value, map[])
    ensures var s := states[|moves|];
            && s.delivered == [[Event(future, if result < 0 then Failed(OsError(-result)) else Finished(Num(result)))]]
            && s.seen == [Completion(Op(Close, fd, 0, None), result, [], None, 0)]
  {
    states, moves := ArmedRun(size, count, fd, future);
    CloseUnderReceive(states[|moves|], fd, future);
    states, moves := Extended(states, moves, ClientCalls(DoClose(fd, true, true)));
    CloseEnds(states[|moves|], fd, future, result, foreign);
    states, moves := Extended(states, moves, KernelCompletes(1, result, [], None, 0));
    states, moves := Extended(states, moves, RunTick(foreign));
  }

  /** What a send does to the futures while a receive is outstanding. */
  lemma SendUnderReceive(s: System, fd: int, future: nat, other: nat, prepOk: bool)
    requires IsArmed(s, fd, future) && s.engine.pool.count > 1 && IsI32(fd) && other != future
    ensures var m := ClientCalls(DoSend(fd, [], other, 0, prepOk, true));
            var s' := Next(s, m);
            && MoveAllowed(s, m) && Disturbs(s, m)
            && s'.pending != [] && s'.pending[0] == ArmedOp(fd, future)
            && s'.done == [] && s'.seen == [] && s'.delivered == []
            && if prepOk then fd in s'.engine.futures && s'.engine.futures[fd] == other else fd !in s'.engine.futures
  {
    var step := DoSend(fd, [], other, 0, prepOk, true);
    assert s.pending[0] in s.pending;
    FuturesAfter(s.engine, step);
    assert Acquire(s.engine.pool, 0).1.Some?;
    assert Stores(s.engine, step);
  }

  lemma ReceiveEnds(s: System, fd: int, future: nat, foreign: Foreign)
    requires IsI32(fd) && s.pending != [] && s.pending[0] == ArmedOp(fd, future) && s.done == [] && s.seen == [] && s.delivered == []
    ensures var m := KernelCompletes(0, 0, [], None, 0);
            var s' := Next(Next(s, m), RunTick(foreign));
            && MoveAllowed(s, m)
            && s'.delivered == [if fd in s.engine.futures then [Event(s.engine.futures[fd], Finished(Bytes([])))] else []]
            && s'.seen == [Completion(ArmedOp(fd, future), 0, [], None, 0)]
  {
    var s1 := Next(s, KernelCompletes(0, 0, [], None, 0));
    assert s1.done == [Completion(ArmedOp(fd, future), 0, [], None, 0)];
    FirstDelivery(s1, foreign);
    EmptyReceive(s1.engine, fd, future);
  }

  /** Sending on a descriptor under a receive: when the receive ends, its outcome goes to the future of the send. */
  lemma SendReplacesReceive(size: nat, count: nat, fd: int, future: nat, other: nat, foreign: Foreign)
    returns (states: seq<System>, moves: seq<Move>)
    requires size * count < U64 && 1 < count < 0x1_0000 && IsI32(fd) && other != future
    ensures SystemRun(states, moves) && states[0] == NewSystem(NewPool(size, count, true).value, map[])
    ensures var s := states[|moves|];
            s.delivered == [[Event(other, Finished(Bytes([])))]] && s.seen == [Completion(ArmedOp(fd, future), 0, [], None, 0)]
  {
    states, moves := SendThenReceiveEnds(size, count, fd, future, other, true, foreign);
  }

  /** A send refused by a full queue under a receive: when the receive ends, nobody is told. */
  lemma RefusedSendSilencesReceive(size: nat, count: nat, fd: int, future: nat, other: nat, foreign: Foreign)
    returns (states: seq<System>, moves: seq<Move>)
    requires size * count < U64 && 1 < count < 0x1_0000 && IsI32(fd) && other != future
    ensures SystemRun(states, moves) && states[0] == NewSystem(NewPool(size, count, true).value, map[])
    ensures var s := states[|moves|]; s.delivered == [[]] && s.seen == [Completion(ArmedOp(fd, future), 0, [], None, 0)]
  {
    states, moves := SendThenReceiveEnds(size, count, fd, future, other, false, foreign);
  }

  lemma SendThenReceiveEnds(size: nat, count: nat, fd: int, future: nat, other: nat, prepOk: bool, foreign: Foreign)
    returns (states: seq<System>, moves: seq<Move>)
    requires size * count < U64 && 1 < count < 0x1_0000 && IsI32(fd) && other != future
    ensures SystemRun(states, moves) && states[0] == NewSystem(NewPool(size, count, true).value, map[])
    ensures var s := states[|moves|];
            && s.delivered == [if prepOk then [Event(other, Finished(Bytes([])))] else []]
            && s.seen == [Completion(ArmedOp(fd, future), 0, [], None, 0)]
  {
    states, moves := ArmedRun(size, count, fd, future);
    SendUnderReceive(states[|moves|], fd, future, other, prepOk);
    states, moves := Extended(states, moves, ClientCalls(DoSend(fd, [], other, 0, prepOk, true)));
    ReceiveEnds(states[|moves|], fd, future, foreign);
    states, moves := Extended(states, moves, KernelCompletes(0, 0, [], None, 0));
    states, moves := Extended(states, moves, RunTick(foreign));
  }
}
