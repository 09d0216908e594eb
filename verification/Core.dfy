/**
 The engine's state and operations as values: submission paths with all their
 exits, unregistration, and completion processing one completion at a time.
 */
module Core {
  import opened Bits
  import opened Indices
  import opened Buffers
  import opened UserData
  import opened Scheduling
  import opened Futures
  import FdStates

  /**
   `held` is the pile of buffers behind prepared sends, or lost to a send whose copy
   panicked: nothing in the engine ever gives them back. `recvmsg` holds, per descriptor, the sender's address as the
   kernel left it (None: not a parsable address).
   */
  datatype Engine = Engine(
    pool: Pool,
    fds: FdStates.Manager,
    inflight: map<int, nat>,
    futures: map<int, nat>,
    recvmsg: map<int, Option<nat>>,
    sendmsg: set<int>,
    held: multiset<nat>)

  // ---------------------------------------------------------------------------
  // Submission
  // ---------------------------------------------------------------------------

  datatype SubmitError = NoBuffers | BadState(error: FdStates.FdError) | QueueFull | FlushFailed | BadAddress | Panicked

  /** What the kernel will eventually complete: the accepted entry, its buffer and its future. */
  datatype Op = Op(kind: OpType, fd: int, buffer: nat, future: Option<nat>)

  /** Engine after a submission, the error raised, and the entry placed in the submission queue. */
  datatype Submission = Submission(engine: Engine, error: Option<SubmitError>, op: Option<Op>)

  function GiveBack(p: Pool, index: nat): Pool {
    Release(p, index, p.generation)
  }

  function FlushError(flushOk: bool): Option<SubmitError> {
    if flushOk then None else Some(FlushFailed)
  }

  /** Records the buffer of a receive, releasing one that was still recorded for the descriptor. */
  function Track(e: Engine, fd: int, buffer: nat): Engine {
    var e' := e.(inflight := e.inflight[fd := buffer]);
    if fd in e.inflight then e'.(pool := GiveBack(e.pool, e.inflight[fd])) else e'
  }

  /**
   `submit_recv` (kind Recv) and `submit_recvfrom` (kind RecvMsg). The queue may be
   full (`prepOk`) and the flush may fail (`flushOk`); a failed flush leaves the entry queued.
   */
  function SubmitReceive(e: Engine, kind: OpType, fd: int, future: nat, now: nat, prepOk: bool, flushOk: bool): Submission {
    if !FdStates.ShouldSubmitRecv(e.fds, fd) then Submission(e, None, None)
    else
      var (p1, got) := Acquire(e.pool, now);
      if got.None? then Submission(e.(pool := p1), Some(NoBuffers), None)
      else
        var b := got.value;
        var state := FdStates.Lookup(e.fds, fd);
        if state.Failure? then Submission(e.(pool := GiveBack(p1, b)), Some(BadState(state.error)), None)
        else
          var e1 := e.(pool := p1, fds := FdStates.Update(e.fds, fd, FdStates.OnSubmit), futures := e.futures[fd := future]);
          if !prepOk then
            Submission(e1.(pool := GiveBack(p1, b), futures := e1.futures - {fd}), Some(QueueFull), None)
          else
            var e2 := if kind.RecvMsg? then e1.(recvmsg := e1.recvmsg[fd := None]) else e1;
            Submission(Track(e2, fd, b), FlushError(flushOk), Some(Op(kind, fd, b, Some(future))))
  }

  /** The region after the payload is copied into buffer `index`. */
  function StoreIn(p: Pool, index: nat, data: seq<byte>): (mem: seq<byte>)
    ensures |mem| == |p.mem|
  {
    if Fits(p.mem, p.size, index) && |data| <= p.size then Store(p.mem, p.size, index, data) else p.mem
  }

  /** `submit_send`. A payload larger than a buffer makes the copy panic with the buffer already taken. */
  function SubmitSend(e: Engine, fd: int, data: seq<byte>, future: nat, now: nat, prepOk: bool, flushOk: bool): Submission
  {
    var (p1, got) := Acquire(e.pool, now);
    if got.None? then Submission(e.(pool := p1), Some(NoBuffers), None)
    else
      var b := got.value;
      var p2 := p1.(mem := StoreIn(p1, b, data));
      if |data| > p1.size then Submission(e.(pool := p1, held := e.held + multiset{b}), Some(Panicked), None)
      else if !prepOk then Submission(e.(pool := GiveBack(p2, b), futures := e.futures - {fd}), Some(QueueFull), None)
      else
        Submission(e.(pool := p2, futures := e.futures[fd := future], held := e.held + multiset{b}),
                   FlushError(flushOk), Some(Op(Send, fd, b, Some(future))))
  }

  /** `submit_sendto`: the future is stored only after a successful flush. */
  function SubmitSendTo(e: Engine, fd: int, future: nat, addressOk: bool, prepOk: bool, flushOk: bool): Submission {
    if !addressOk then Submission(e, Some(BadAddress), None)
    else if !prepOk then Submission(e, Some(QueueFull), None)
    else
      var e1 := e.(sendmsg := e.sendmsg + {fd});
      if !flushOk then Submission(e1, Some(FlushFailed), Some(Op(SendMsg, fd, 0, None)))
      else Submission(e1.(futures := e1.futures[fd := future]), None, Some(Op(SendMsg, fd, 0, Some(future))))
  }

  function SubmitAccept(e: Engine, fd: int, future: nat, prepOk: bool, flushOk: bool): Submission {
    if !prepOk then Submission(e.(futures := e.futures - {fd}), Some(QueueFull), None)
    else Submission(e.(futures := e.futures[fd := future]), FlushError(flushOk), Some(Op(Accept, fd, 0, Some(future))))
  }

  /** `submit_close` stores no future. */
  function SubmitClose(e: Engine, fd: int, prepOk: bool, flushOk: bool): Submission {
    if !prepOk then Submission(e, Some(QueueFull), None)
    else Submission(e, FlushError(flushOk), Some(Op(Close, fd, 0, None)))
  }

  // ---------------------------------------------------------------------------
  // Descriptors
  // ---------------------------------------------------------------------------

  function RegisterFd(e: Engine, fd: int, t: FdStates.SocketType): Engine {
    e.(fds := FdStates.Register(e.fds, fd, t))
  }

  function QueuedIndices(q: seq<FdStates.BufferRef>): (s: seq<nat>)
    ensures |s| == |q| && forall i :: 0 <= i < |q| ==> s[i] == q[i].index
  {
    seq(|q|, i requires 0 <= i < |q| => q[i].index)
  }

  /** Gives the recorded receive buffer and any queued buffers back to the pool. */
  function UnregisterFd(e: Engine, fd: int): Engine {
    var e1 := if fd in e.inflight then e.(inflight := e.inflight - {fd}, pool := GiveBack(e.pool, e.inflight[fd])) else e;
    var queued := if fd in e.fds.states then QueuedIndices(e.fds.states[fd].queue) else [];
    e1.(fds := FdStates.Unregister(e1.fds, fd), pool := e1.pool.(free := e1.pool.free + queued))
  }

  // ---------------------------------------------------------------------------
  // Completions, one at a time
  // ---------------------------------------------------------------------------

  /** A completion after buffer handling: what the caller sees and what resolves the future. */
  datatype Item = Item(fd: int, op: OpType, result: int, data: Option<Obj>)

  function SliceOr(p: Pool, index: nat, len: nat): seq<byte> {
    if Fits(p.mem, p.size, index) then Slice(p.mem, p.size, index, len) else []
  }

  /** Phase one of `run_tick` for one completion: take the buffer, copy the bytes out, release it. */
  function Extract(e: Engine, c: Cqe): (Engine, Item) {
    var fd, op := FdOf(c.word), OpOf(c.word);
    match op
    case RecvMulti =>
      var data := if BufferIndex(c).Some? && c.result > 0 then Some(Bytes(SliceOr(e.pool, BufferIndex(c).value, c.result))) else None;
      (e, Item(fd, op, c.result, data))
    case SendMsg => (e.(sendmsg := e.sendmsg - {fd}), Item(fd, op, c.result, Some(Num(c.result))))
    case Recv => ExtractReceive(e, c)
    case RecvMsg => ExtractReceive(e, c)
    case _ => (e, Item(fd, op, c.result, None))
  }

  function ExtractReceive(e: Engine, c: Cqe): (Engine, Item) {
    var fd, op := FdOf(c.word), OpOf(c.word);
    if fd !in e.inflight then (e, Item(fd, op, c.result, None))
    else
      var b := e.inflight[fd];
      var e1 := e.(inflight := e.inflight - {fd}, pool := GiveBack(e.pool, b));
      var address := if op.RecvMsg? && fd in e.recvmsg && c.result > 0 then e.recvmsg[fd] else None;
      var e2 := if op.RecvMsg? then e1.(recvmsg := e1.recvmsg - {fd}) else e1;
      var data :=
        if c.result <= 0 then None
        else
          var bytes := SliceOr(e.pool, b, c.result);
          Some(if address.Some? then BytesFrom(bytes, address.value) else Bytes(bytes));
      (e2, Item(fd, op, c.result, data))
  }

  function IsReceive(op: OpType): bool {
    op.Recv? || op.RecvMulti? || op.RecvMsg?
  }

  /** How a completion settles the future of its descriptor. */
  function Resolution(item: Item): FutState {
    if item.result < 0 then Failed(OsError(-item.result))
    else if IsReceive(item.op) then Finished(if item.data.Some? then item.data.value else Bytes([]))
    else Finished(Num(item.result))
  }

  /** One entry of `run_tick`'s return value. */
  datatype Tuple = Tuple(fd: int, op: OpType, result: int, data: Option<Obj>)

  /** A future resolved by a completion. */
  datatype Event = Event(future: nat, state: FutState)

  /**
   Everything completion processing touches. `store` holds the native futures; a
   future outside it is foreign, and resolving it pushes `foreign(future, state)`.
   */
  datatype TickState = TickState(engine: Engine, store: map<nat, Fut>, queue: seq<Handle>, tuples: seq<Tuple>, events: seq<Event>)

  type Foreign = (nat, FutState) -> seq<Handle>

  function Resolve(t: TickState, future: nat, state: FutState, foreign: Foreign): TickState {
    var t' := t.(events := t.events + [Event(future, state)]);
    if future in t.store then
      var r := SettleFast(t.store[future], future, state, t.queue);
      t'.(store := t.store[future := r.fut], queue := r.queue)
    else t'.(queue := t.queue + foreign(future, state))
  }

  /** The obvious treatment of one completion: buffer, future, result tuple. */
  function ProcessOne(t: TickState, c: Cqe, foreign: Foreign): TickState {
    var (e, item) := Extract(t.engine, c);
    var t1 :=
      if item.fd in e.futures then
        Resolve(t.(engine := e.(futures := e.futures - {item.fd})), e.futures[item.fd], Resolution(item), foreign)
      else t.(engine := e);
    t1.(tuples := t1.tuples + [Tuple(item.fd, item.op, item.result, item.data)])
  }

  /** The one-at-a-time loop over a list of completions. */
  function Process(t: TickState, cs: seq<Cqe>, foreign: Foreign): TickState {
    if cs == [] then t else ProcessOne(Process(t, cs[..|cs| - 1], foreign), cs[|cs| - 1], foreign)
  }

  // ---------------------------------------------------------------------------
  // Draining
  // ---------------------------------------------------------------------------

  /** `drain_completions` for one completion: engine, tuple data, and the provided buffer to recycle. */
  function DrainOne(e: Engine, c: Cqe): (Engine, Item, seq<nat>) {
    var fd, op := FdOf(c.word), OpOf(c.word);
    var selected := BufferIndex(c);
    if selected.Some? then
      var data := if c.result > 0 then Some(Bytes(SliceOr(e.pool, selected.value, c.result))) else None;
      (e.(pool := GiveBack(e.pool, selected.value)), Item(fd, op, c.result, data), if op.RecvMulti? then [selected.value] else [])
    else if op.Recv? then
      var e1 := e.(fds := FdStates.Update(e.fds, fd, FdStates.OnCompletionEmpty));
      if fd in e1.inflight then
        var b := e1.inflight[fd];
        var data := if c.result > 0 then Some(Bytes(SliceOr(e1.pool, b, c.result))) else None;
        (e1.(inflight := e1.inflight - {fd}, pool := GiveBack(e1.pool, b)), Item(fd, op, c.result, data), [])
      else (e1, Item(fd, op, c.result, None), [])
    else (e, Item(fd, op, c.result, None), [])
  }

  datatype Drained = Drained(engine: Engine, items: seq<Item>, recycled: seq<nat>)

  function Drain(e: Engine, cs: seq<Cqe>): Drained {
    if cs == [] then Drained(e, [], [])
    else
      var before := Drain(e, cs[..|cs| - 1]);
      var (e', item, ids) := DrainOne(before.engine, cs[|cs| - 1]);
      Drained(e', before.items + [item], before.recycled + ids)
  }

  // ---------------------------------------------------------------------------
  // Ownership
  // ---------------------------------------------------------------------------

  /** Every index with an owner: in the pool, recorded for a receive, or behind a send. */
  ghost function Owned(e: Engine): multiset<nat> {
    multiset(Available(e.pool)) + Values(e.inflight) + e.held
  }

  /** Free list, receives and sends share out `0..count`: nothing twice, nothing missing. */
  ghost predicate Conserved(e: Engine) {
    Partition(e.pool.count, Available(e.pool), e.inflight, e.held)
  }

  /** What every operation keeps: conservation, credit, and queues the engine never fills. */
  ghost predicate Valid(e: Engine) {
    && Conserved(e)
    && |e.pool.mem| == e.pool.size * e.pool.count
    && CreditAndQueues(e.fds)
  }

  ghost predicate CreditAndQueues(m: FdStates.Manager) {
    FdStates.AllCreditOk(m) && forall fd :: fd in m.states ==> m.states[fd].queue == []
  }

  ghost predicate SameRegion(e: Engine, e': Engine) {
    e'.pool.count == e.pool.count && e'.pool.size == e.pool.size
  }

  /** What reading buffers needs: the region has its size, and recorded receives name existing buffers. */
  ghost predicate Readable(e: Engine) {
    && |e.pool.mem| == e.pool.size * e.pool.count
    && forall fd :: fd in e.inflight ==> e.inflight[fd] < e.pool.count
  }

  predicate AllBelow(s: seq<nat>, n: nat) {
    forall i :: i in s ==> i < n
  }

  /** Every index anywhere in the engine names an existing buffer, however often it occurs. */
  ghost predicate Indexed(e: Engine) {
    && Readable(e)
    && AllBelow(Available(e.pool), e.pool.count)
    && forall fd :: fd in e.fds.states ==> AllBelow(QueuedIndices(e.fds.states[fd].queue), e.pool.count)
  }

  /** A list whose elements come from another list and a pile is bounded as they are. */
  lemma BelowMoves(from: seq<nat>, pile: multiset<nat>, to: seq<nat>, n: nat)
    requires AllBelow(from, n) && (forall i :: i in pile ==> i < n)
    requires multiset(to) <= multiset(from) + pile
    ensures AllBelow(to, n)
  {
    forall i | i in to ensures i < n {
      assert multiset(to)[i] > 0;
      assert multiset(from)[i] > 0 ==> i in from;
    }
  }

  /** A buffer on its way out of the pool exists. */
  lemma AcquiredExists(e: Engine, now: nat)
    requires Indexed(e)
    ensures AllBelow(Available(Acquire(e.pool, now).0), e.pool.count)
    ensures Acquire(e.pool, now).1.Some? ==>
              var b := Acquire(e.pool, now).1.value; b < e.pool.count && Fits(e.pool.mem, e.pool.size, b)
  {
    AcquireTakes(e.pool, now);
    var (p, got) := Acquire(e.pool, now);
    BelowMoves(Available(e.pool), multiset{}, Available(p), e.pool.count);
    if got.Some? {
      assert multiset(Available(e.pool))[got.value] > 0;
      assert got.value in Available(e.pool);
      BufferFits(e.pool.mem, e.pool.size, e.pool.count, got.value);
    }
  }

  /** A buffer on its way out of the pool lies in the region and belongs to nobody else. */
  lemma AcquiredFits(e: Engine, now: nat)
    requires Valid(e) && Acquire(e.pool, now).1.Some?
    ensures var b := Acquire(e.pool, now).1.value;
            b < e.pool.count && Fits(e.pool.mem, e.pool.size, b) && !Mapped(e.inflight, b) && b !in e.held
  {
    var b := Acquire(e.pool, now).1.value;
    AcquireTakes(e.pool, now);
    assert multiset(Available(e.pool))[b] > 0;
    CountsOfPartition(e.pool.count, Available(e.pool), e.inflight, e.held, b);
    BufferFits(e.pool.mem, e.pool.size, e.pool.count, b);
  }

  lemma GiveBackAdds(p: Pool, index: nat)
    ensures multiset(Available(GiveBack(p, index))) == multiset(Available(p)) + multiset{index}
  {
    ReleaseReturns(p, index, p.generation);
  }

  lemma Move(a: multiset<nat>, b: multiset<nat>, c: multiset<nat>, x: nat)
    ensures a + multiset{x} + b + c == a + (multiset{x} + b) + c
    ensures a + (b + multiset{x}) + c == a + b + c + multiset{x}
  {
  }

  lemma Exchange(a: multiset<nat>, b: multiset<nat>, c: multiset<nat>, x: nat, y: nat)
    ensures a + multiset{x} + (b + multiset{y}) + c == a + (multiset{x} + b) + c + multiset{y}
  {
  }

  /** Taking a descriptor's buffer out of the map and releasing it moves one index. */
  lemma TakeAndGiveBack(p: Pool, inflight: map<int, nat>, held: multiset<nat>, fd: int)
    requires fd in inflight
    ensures multiset(Available(GiveBack(p, inflight[fd]))) + Values(inflight - {fd}) + held
            == multiset(Available(p)) + Values(inflight) + held
  {
    ValuesSplit(inflight, fd);
    GiveBackAdds(p, inflight[fd]);
    Move(multiset(Available(p)), Values(inflight - {fd}), held, inflight[fd]);
  }

  lemma TrackOwns(e: Engine, fd: int, buffer: nat)
    ensures Owned(Track(e, fd, buffer)) == Owned(e) + multiset{buffer}
  {
    ValuesUpdate(e.inflight, fd, buffer);
    var a, rest := multiset(Available(e.pool)), Values(e.inflight - {fd});
    if fd in e.inflight {
      ValuesSplit(e.inflight, fd);
      GiveBackAdds(e.pool, e.inflight[fd]);
      Exchange(a, rest, e.held, e.inflight[fd], buffer);
    } else {
      assert e.inflight - {fd} == e.inflight;
      Move(a, rest, e.held, buffer);
    }
  }

  /** Acquiring a buffer takes it away from the owned indices until somebody records it. */
  lemma AcquireOwns(e: Engine, now: nat)
    ensures var (p, got) := Acquire(e.pool, now);
            Owned(e) == if got.Some? then Owned(e.(pool := p)) + multiset{got.value} else Owned(e.(pool := p))
  {
    AcquireTakes(e.pool, now);
    var (p, got) := Acquire(e.pool, now);
    if got.Some? {
      assert Owned(e) == multiset(Available(p)) + multiset{got.value} + Values(e.inflight) + e.held;
    }
  }

  lemma GiveBackOwns(e: Engine, p: Pool, index: nat)
    ensures Owned(e.(pool := GiveBack(p, index))) == Owned(e.(pool := p)) + multiset{index}
  {
    GiveBackAdds(p, index);
  }

  lemma AcceptReceiveOwns(e: Engine, kind: OpType, fd: int, buffer: nat)
    ensures var e' := if kind.RecvMsg? then e.(recvmsg := e.recvmsg[fd := None]) else e;
            Owned(Track(e', fd, buffer)) == Owned(e) + multiset{buffer}
  {
    var e' := if kind.RecvMsg? then e.(recvmsg := e.recvmsg[fd := None]) else e;
    TrackOwns(e', fd, buffer);
    assert Owned(e') == Owned(e);
  }

  lemma SubmitReceiveOwns(e: Engine, kind: OpType, fd: int, future: nat, now: nat, prepOk: bool, flushOk: bool)
    ensures Owned(SubmitReceive(e, kind, fd, future, now, prepOk, flushOk).engine) == Owned(e)
  {
    AcquireOwns(e, now);
    var (p1, got) := Acquire(e.pool, now);
    var e' := SubmitReceive(e, kind, fd, future, now, prepOk, flushOk).engine;
    if FdStates.ShouldSubmitRecv(e.fds, fd) && got.Some? {
      GiveBackOwns(e, p1, got.value);
      var e1 := e.(pool := p1, fds := FdStates.Update(e.fds, fd, FdStates.OnSubmit), futures := e.futures[fd := future]);
      assert Owned(e1) == Owned(e.(pool := p1));
      if FdStates.Lookup(e.fds, fd).Failure? || !prepOk {
        assert e'.pool == GiveBack(p1, got.value) && e'.inflight == e.inflight && e'.held == e.held;
      } else {
        AcceptReceiveOwns(e1, kind, fd, got.value);
      }
    }
  }

  lemma SubmitReceiveFrame(e: Engine, kind: OpType, fd: int, future: nat, now: nat, prepOk: bool, flushOk: bool)
    requires CreditAndQueues(e.fds)
    ensures var e' := SubmitReceive(e, kind, fd, future, now, prepOk, flushOk).engine;
            CreditAndQueues(e'.fds) && e'.pool.mem == e.pool.mem && SameRegion(e, e')
  {
    AcquireTakes(e.pool, now);
    if FdStates.ShouldSubmitRecv(e.fds, fd) {
      GuardedSubmitFrame(e.fds, fd);
    }
  }

  lemma GuardedSubmitFrame(m: FdStates.Manager, fd: int)
    requires CreditAndQueues(m) && FdStates.ShouldSubmitRecv(m, fd)
    ensures CreditAndQueues(FdStates.Update(m, fd, FdStates.OnSubmit))
  {
    FdStates.SubmitKeepsCreditIff(m.states[fd]);
  }

  lemma SubmitReceiveKeeps(e: Engine, kind: OpType, fd: int, future: nat, now: nat, prepOk: bool, flushOk: bool)
    requires Valid(e)
    ensures Valid(SubmitReceive(e, kind, fd, future, now, prepOk, flushOk).engine)
    ensures SameRegion(e, SubmitReceive(e, kind, fd, future, now, prepOk, flushOk).engine)
  {
    SubmitReceiveOwns(e, kind, fd, future, now, prepOk, flushOk);
    SubmitReceiveFrame(e, kind, fd, future, now, prepOk, flushOk);
  }

  lemma SubmitSendKeeps(e: Engine, fd: int, data: seq<byte>, future: nat, now: nat, prepOk: bool, flushOk: bool)
    requires Valid(e)
    ensures Valid(SubmitSend(e, fd, data, future, now, prepOk, flushOk).engine)
    ensures SameRegion(e, SubmitSend(e, fd, data, future, now, prepOk, flushOk).engine)
  {
    SendMoves(e, fd, data, future, now, prepOk, flushOk);
    SendFrame(e, fd, data, future, now, prepOk, flushOk);
  }

  lemma SendFrame(e: Engine, fd: int, data: seq<byte>, future: nat, now: nat, prepOk: bool, flushOk: bool)
    ensures var e' := SubmitSend(e, fd, data, future, now, prepOk, flushOk).engine;
            e'.fds == e.fds && |e'.pool.mem| == |e.pool.mem| && SameRegion(e, e')
  {
    AcquireTakes(e.pool, now);
  }

  /**
   An accepted send moves one index from the pool to the sends, and a send that panics
   loses one for good; every other exit moves none.
   */
  lemma SendMoves(e: Engine, fd: int, data: seq<byte>, future: nat, now: nat, prepOk: bool, flushOk: bool)
    ensures var r := SubmitSend(e, fd, data, future, now, prepOk, flushOk);
            var before, after := multiset(Available(e.pool)), multiset(Available(r.engine.pool));
            && r.engine.inflight == e.inflight
            && (r.op.Some? ==> before == after + multiset{r.op.value.buffer} && r.engine.held == e.held + multiset{r.op.value.buffer})
            && (r.error == Some(Panicked) ==> exists b :: before == after + multiset{b} && r.engine.held == e.held + multiset{b})
            && (r.op.None? && r.error != Some(Panicked) ==> before == after && r.engine.held == e.held)
            && (r.error == Some(Panicked) <==> CanAcquire(e.pool, now) && |data| > e.pool.size)
  {
    AcquireTakes(e.pool, now);
    var (p1, got) := Acquire(e.pool, now);
    if got.Some? {
      GiveBackAdds(p1.(mem := StoreIn(p1, got.value, data)), got.value);
    }
  }

  /** Unregistering moves the descriptor's recorded buffer, if any, to the pool, together with whatever was queued. */
  lemma UnregisterMoves(e: Engine, fd: int)
    ensures var e' := UnregisterFd(e, fd);
            && e'.inflight == e.inflight - {fd} && e'.held == e.held && fd !in e'.fds.states
            && multiset(Available(e'.pool)) == multiset(Available(e.pool))
               + (if fd in e.inflight then multiset{e.inflight[fd]} else multiset{})
               + multiset(if fd in e.fds.states then QueuedIndices(e.fds.states[fd].queue) else [])
  {
    if fd in e.inflight {
      GiveBackAdds(e.pool, e.inflight[fd]);
    } else {
      assert e.inflight - {fd} == e.inflight;
    }
  }

  /** They go behind all that is free: the recorded one, then the queued ones in order. */
  lemma UnregisterFrees(e: Engine, fd: int)
    ensures var p := UnregisterFd(e, fd).pool;
            && p.quarantine == e.pool.quarantine
            && p.free == e.pool.free + (if fd in e.inflight then [e.inflight[fd]] else [])
                         + if fd in e.fds.states then QueuedIndices(e.fds.states[fd].queue) else []
  {
  }

  /** In a tick a completion moves its receive's recorded buffer to the pool, and no completion moves anything else. */
  lemma ExtractMoves(e: Engine, c: Cqe)
    ensures var e', fd := Extract(e, c).0, FdOf(c.word);
            if (OpOf(c.word).Recv? || OpOf(c.word).RecvMsg?) && fd in e.inflight
            then e'.inflight == e.inflight - {fd} && e'.pool.free == e.pool.free + [e.inflight[fd]]
                 && multiset(Available(e'.pool)) == multiset(Available(e.pool)) + multiset{e.inflight[fd]}
            else e'.inflight == e.inflight && e'.pool == e.pool
  {
    var fd := FdOf(c.word);
    if (OpOf(c.word).Recv? || OpOf(c.word).RecvMsg?) && fd in e.inflight {
      GiveBackAdds(e.pool, e.inflight[fd]);
      assert Extract(e, c) == ExtractReceive(e, c);
    }
  }

  lemma UnregisterKeeps(e: Engine, fd: int)
    requires Valid(e)
    ensures Valid(UnregisterFd(e, fd)) && SameRegion(e, UnregisterFd(e, fd))
  {
    if fd in e.inflight {
      TakeAndGiveBack(e.pool, e.inflight, e.held, fd);
    }
    var e1 := if fd in e.inflight then e.(inflight := e.inflight - {fd}, pool := GiveBack(e.pool, e.inflight[fd])) else e;
    assert e1.pool.free + [] == e1.pool.free;
    assert UnregisterFd(e, fd).pool == e1.pool;
  }

  ghost predicate ExtractFrame(e: Engine, e': Engine) {
    e'.fds == e.fds && e'.futures == e.futures && e'.held == e.held && e'.pool.mem == e.pool.mem && SameRegion(e, e')
  }

  lemma ExtractReceiveKeeps(e: Engine, c: Cqe)
    ensures Owned(ExtractReceive(e, c).0) == Owned(e)
    ensures ExtractFrame(e, ExtractReceive(e, c).0)
  {
    var fd, e' := FdOf(c.word), ExtractReceive(e, c).0;
    if fd in e.inflight {
      TakeAndGiveBack(e.pool, e.inflight, e.held, fd);
      assert e'.pool == GiveBack(e.pool, e.inflight[fd]) && e'.inflight == e.inflight - {fd} && e'.held == e.held;
    } else {
      assert e' == e;
    }
  }

  lemma ExtractKeeps(e: Engine, c: Cqe)
    ensures Owned(Extract(e, c).0) == Owned(e)
    ensures ExtractFrame(e, Extract(e, c).0)
  {
    var op, e' := OpOf(c.word), Extract(e, c).0;
    if op.Recv? || op.RecvMsg? {
      ExtractReceiveKeeps(e, c);
      assert e' == ExtractReceive(e, c).0;
    } else {
      assert e' == e.(sendmsg := e'.sendmsg);
    }
  }

  lemma ExtractItem(e: Engine, c: Cqe)
    ensures var item := Extract(e, c).1; item.fd == FdOf(c.word) && item.op == OpOf(c.word) && item.result == c.result
  {
  }

  lemma ProcessOneEngine(t: TickState, c: Cqe, foreign: Foreign)
    ensures ProcessOne(t, c, foreign).engine == Extract(t.engine, c).0.(futures := t.engine.futures - {FdOf(c.word)})
  {
    ExtractKeeps(t.engine, c);
    ExtractItem(t.engine, c);
    if FdOf(c.word) !in t.engine.futures {
      assert t.engine.futures - {FdOf(c.word)} == t.engine.futures;
    }
  }

  lemma ProcessOneKeeps(t: TickState, c: Cqe, foreign: Foreign)
    requires Valid(t.engine)
    ensures Valid(ProcessOne(t, c, foreign).engine) && SameRegion(t.engine, ProcessOne(t, c, foreign).engine)
  {
    ExtractKeeps(t.engine, c);
    ProcessOneEngine(t, c, foreign);
  }

  lemma {:induction false} ProcessKeeps(t: TickState, cs: seq<Cqe>, foreign: Foreign)
    requires Valid(t.engine)
    ensures Valid(Process(t, cs, foreign).engine) && SameRegion(t.engine, Process(t, cs, foreign).engine)
  {
    if cs != [] {
      var n := |cs| - 1;
      ProcessKeeps(t, cs[..n], foreign);
      ProcessOneKeeps(Process(t, cs[..n], foreign), cs[n], foreign);
    }
  }

  /** How many completions of a list carry a kernel-selected buffer. */
  function SelectedCount(cs: seq<Cqe>): nat {
    if cs == [] then 0 else SelectedCount(cs[..|cs| - 1]) + if BufferIndex(cs[|cs| - 1]).Some? then 1 else 0
  }

  lemma DrainOneOwns(e: Engine, c: Cqe)
    ensures var e' := DrainOne(e, c).0;
            && Owned(e') == Owned(e) + (if BufferIndex(c).Some? then multiset{BufferIndex(c).value} else multiset{})
            && e'.pool.quarantine == e.pool.quarantine
            && e'.pool.free == e.pool.free + if BufferIndex(c).Some? then [BufferIndex(c).value]
                                             else if DrainsReceive(c) && FdOf(c.word) in e.inflight then [e.inflight[FdOf(c.word)]]
                                             else []
  {
    var fd := FdOf(c.word);
    if BufferIndex(c).Some? {
      GiveBackAdds(e.pool, BufferIndex(c).value);
    } else if OpOf(c.word).Recv? && fd in e.inflight {
      TakeAndGiveBack(e.pool, e.inflight, e.held, fd);
    }
  }

  lemma DrainOneFrame(e: Engine, c: Cqe)
    requires CreditAndQueues(e.fds)
    ensures var e' := DrainOne(e, c).0;
            && CreditAndQueues(e'.fds)
            && e'.pool.mem == e.pool.mem && SameRegion(e, e')
  {
  }

  lemma {:induction false} DrainOwns(e: Engine, cs: seq<Cqe>)
    requires Valid(e)
    ensures var e' := Drain(e, cs).engine;
            && |Owned(e')| == |Owned(e)| + SelectedCount(cs)
            && (SelectedCount(cs) == 0 ==> Owned(e') == Owned(e))
            && CreditAndQueues(e'.fds)
            && e'.pool.mem == e.pool.mem && SameRegion(e, e')
  {
    if cs != [] {
      var n := |cs| - 1;
      DrainOwns(e, cs[..n]);
      DrainOneOwns(Drain(e, cs[..n]).engine, cs[n]);
      DrainOneFrame(Drain(e, cs[..n]).engine, cs[n]);
    }
  }

  /**
   Draining releases to the pool every buffer the kernel selected from the provided
   ring, although none was acquired from the pool: ownership survives exactly the
   lists without such a completion.
   */
  lemma DrainKeepsIff(e: Engine, cs: seq<Cqe>)
    requires Valid(e)
    ensures Valid(Drain(e, cs).engine) <==> forall i :: 0 <= i < |cs| ==> BufferIndex(cs[i]).None?
  {
    DrainOwns(e, cs);
    SelectedCountZero(cs);
    assert |multiset(Range(e.pool.count))| == e.pool.count;
    assert Valid(Drain(e, cs).engine) ==> |Owned(Drain(e, cs).engine)| == e.pool.count;
  }

  lemma {:induction false} SelectedCountZero(cs: seq<Cqe>)
    ensures SelectedCount(cs) == 0 <==> forall i :: 0 <= i < |cs| ==> BufferIndex(cs[i]).None?
  {
    if cs != [] {
      SelectedCountZero(cs[..|cs| - 1]);
    }
  }

  // ---------------------------------------------------------------------------
  // Runs
  // ---------------------------------------------------------------------------

  datatype Step =
    | DoRegister(fd: int, t: FdStates.SocketType)
    | DoUnregister(fd: int)
    | DoPause(fd: int, paused: bool)
    | DoReceive(kind: OpType, fd: int, future: nat, now: nat, prepOk: bool, flushOk: bool)
    | DoSend(fd: int, data: seq<byte>, future: nat, now: nat, prepOk: bool, flushOk: bool)
    | DoSendTo(fd: int, future: nat, addressOk: bool, prepOk: bool, flushOk: bool)
    | DoAccept(fd: int, future: nat, prepOk: bool, flushOk: bool)
    | DoClose(fd: int, prepOk: bool, flushOk: bool)

  predicate StepAllowed(step: Step) {
    step.DoReceive? ==> step.kind.Recv? || step.kind.RecvMsg?
  }

  function Perform(e: Engine, step: Step): Submission {
    match step
    case DoRegister(fd, t) => Submission(RegisterFd(e, fd, t), None, None)
    case DoUnregister(fd) => Submission(UnregisterFd(e, fd), None, None)
    case DoPause(fd, paused) => Submission(e.(fds := FdStates.Update(e.fds, fd, (s: FdStates.FdState) => s.(paused := paused))), None, None)
    case DoReceive(kind, fd, future, now, prepOk, flushOk) => SubmitReceive(e, kind, fd, future, now, prepOk, flushOk)
    case DoSend(fd, data, future, now, prepOk, flushOk) => SubmitSend(e, fd, data, future, now, prepOk, flushOk)
    case DoSendTo(fd, future, addressOk, prepOk, flushOk) => SubmitSendTo(e, fd, future, addressOk, prepOk, flushOk)
    case DoAccept(fd, future, prepOk, flushOk) => SubmitAccept(e, fd, future, prepOk, flushOk)
    case DoClose(fd, prepOk, flushOk) => SubmitClose(e, fd, prepOk, flushOk)
  }

  /** The future handed over with a call. */
  function Handed(step: Step): Option<nat> {
    match step
    case DoReceive(_, _, future, _, _, _) => Some(future)
    case DoSend(_, _, future, _, _, _) => Some(future)
    case DoSendTo(_, future, _, _, _) => Some(future)
    case DoAccept(_, future, _, _) => Some(future)
    case _ => None
  }

  /**
   Whether a call stores its future for its descriptor, said of the engine before the
   call. If the submission queue is then full, the call removes what it has just stored.
   */
  predicate Stores(e: Engine, step: Step) {
    match step
    case DoReceive(_, fd, _, now, _, _) =>
      FdStates.ShouldSubmitRecv(e.fds, fd) && FdStates.Lookup(e.fds, fd).Success? && CanAcquire(e.pool, now)
    case DoSend(_, data, _, now, _, _) => CanAcquire(e.pool, now) && |data| <= e.pool.size
    case DoSendTo(_, _, addressOk, prepOk, flushOk) => addressOk && prepOk && flushOk
    case DoAccept(_, _, _, _) => true
    case _ => false
  }

  lemma UpdateThenRemove(m: map<int, nat>, k: int, v: nat)
    ensures m[k := v] - {k} == m - {k}
  {
  }

  lemma ReceiveExits(e: Engine, step: Step)
    requires step.DoReceive?
    ensures var r := Perform(e, step);
            && (r.op.Some? <==> Stores(e, step) && step.prepOk)
            && (r.op.Some? ==> r.op.value.future == Some(step.future) && r.op.value.fd == step.fd && r.op.value.kind == step.kind)
            && r.engine.futures == if !Stores(e, step) then e.futures
                                   else if step.prepOk then e.futures[step.fd := step.future] else e.futures - {step.fd}
  {
    AcquiresIff(e.pool, step.now);
    UpdateThenRemove(e.futures, step.fd, step.future);
  }

  /** A receive that is not placed records nothing. */
  lemma ReceiveRecords(e: Engine, step: Step)
    requires step.DoReceive? && !(Stores(e, step) && step.prepOk)
    ensures Perform(e, step).engine.inflight == e.inflight && Perform(e, step).engine.recvmsg == e.recvmsg
  {
    AcquiresIff(e.pool, step.now);
  }

  /**
   What each exit of each call leaves stored, and when an entry with a future is placed:
   a call that stores replaces whatever the descriptor had, by its own future or, when the
   queue is full, by nothing.
   */
  lemma FuturesAfter(e: Engine, step: Step)
    ensures var r := Perform(e, step);
            && r.engine.futures == (if !Stores(e, step) then e.futures
                                    else if step.prepOk then e.futures[step.fd := Handed(step).value] else e.futures - {step.fd})
            && (r.op.Some? && r.op.value.future.Some? <==> Stores(e, step) && step.prepOk)
            && (r.op.Some? && r.op.value.future.Some? ==> r.op.value.future == Handed(step))
  {
    if step.DoReceive? {
      ReceiveExits(e, step);
    } else if step.DoSend? {
      AcquiresIff(e.pool, step.now);
      UpdateThenRemove(e.futures, step.fd, step.future);
    }
  }

  /** A receive placed while another is recorded for its descriptor gives away the other's buffer, though the kernel may still fill it. */
  lemma SecondReceiveFreesFirst(e: Engine, step: Step)
    requires step.DoReceive? && step.prepOk && Stores(e, step) && step.fd in e.inflight
    ensures e.inflight[step.fd] in Available(Perform(e, step).engine.pool)
  {
    AcquiresIff(e.pool, step.now);
    var p := Acquire(e.pool, step.now).0;
    AcquireTakes(e.pool, step.now);
    InFreeList(p, e.inflight[step.fd]);
  }

  /** A call that took a buffer and then failed puts it back behind all that is free. */
  lemma FailedReturnsLast(e: Engine, step: Step)
    requires step.DoReceive? || step.DoSend?
    requires var r := Perform(e, step); r.error == Some(QueueFull) || (r.error.Some? && r.error.value.BadState?)
    ensures var (p, got) := Acquire(e.pool, step.now);
            got.Some? && Perform(e, step).engine.pool.free == p.free + [got.value]
  {
    AcquiresIff(e.pool, step.now);
  }

  lemma InFreeList(p: Pool, index: nat)
    ensures index in Available(GiveBack(p, index))
  {
    assert GiveBack(p, index).free[|p.free|] == index;
    assert Available(GiveBack(p, index))[|p.free|] == index;
  }

  /** What every exit of every call raises, in the order the source tests for it. */
  lemma ErrorsAre(e: Engine, step: Step)
    ensures Perform(e, step).error ==
              match step
              case DoReceive(_, fd, _, now, prepOk, flushOk) =>
                if fd !in e.fds.states || !FdStates.ShouldSubmit(e.fds.states[fd]) then None
                else if !CanAcquire(e.pool, now) then Some(NoBuffers)
                else if e.fds.states[fd].generation != e.fds.generation
                then Some(BadState(FdStates.InvalidGeneration(e.fds.generation, e.fds.states[fd].generation)))
                else if !prepOk then Some(QueueFull)
                else if !flushOk then Some(FlushFailed) else None
              case DoSend(_, data, _, now, prepOk, flushOk) =>
                if !CanAcquire(e.pool, now) then Some(NoBuffers)
                else if |data| > e.pool.size then Some(Panicked)
                else if !prepOk then Some(QueueFull)
                else if !flushOk then Some(FlushFailed) else None
              case DoSendTo(_, _, addressOk, prepOk, flushOk) =>
                if !addressOk then Some(BadAddress)
                else if !prepOk then Some(QueueFull)
                else if !flushOk then Some(FlushFailed) else None
              case DoAccept(_, _, prepOk, flushOk) =>
                if !prepOk then Some(QueueFull) else if !flushOk then Some(FlushFailed) else None
              case DoClose(_, prepOk, flushOk) =>
                if !prepOk then Some(QueueFull) else if !flushOk then Some(FlushFailed) else None
              case _ => None
  {
    if step.DoReceive? || step.DoSend? {
      AcquiresIff(e.pool, step.now);
      AcquiredSize(e.pool, step.now);
    }
  }

  lemma AcquiredSize(p: Pool, now: nat)
    ensures Acquire(p, now).0.size == p.size
  {
  }

  /** The operation a call submits. */
  function KindOf(step: Step): Option<OpType> {
    match step
    case DoReceive(kind, _, _, _, _, _) => Some(kind)
    case DoSend(_, _, _, _, _, _) => Some(Send)
    case DoSendTo(_, _, _, _, _) => Some(SendMsg)
    case DoAccept(_, _, _, _) => Some(Accept)
    case DoClose(_, _, _) => Some(Close)
    case _ => None
  }

  /**
   An entry is in the submission queue exactly when the call got as far as preparing one,
   and a failed flush leaves it there: it will complete. It is for the call's own descriptor
   and operation, and carries the future unless it is a close or a `sendto` that was not flushed.
   */
  lemma EntriesAre(e: Engine, step: Step)
    ensures var r := Perform(e, step);
            && (r.op.Some? <==> KindOf(step).Some? && (r.error.None? || r.error == Some(FlushFailed))
                                && (step.DoReceive? ==> Stores(e, step)))
            && (r.op.Some? ==>
                  && r.op.value.fd == step.fd && KindOf(step) == Some(r.op.value.kind)
                  && r.op.value.future == (if step.DoSendTo? && !step.flushOk then None else Handed(step)))
  {
    if step.DoReceive? || step.DoSend? {
      AcquiresIff(e.pool, step.now);
    }
  }

  /** The message records a call leaves: one more for each message operation it places, none otherwise. */
  lemma MessagesAfter(e: Engine, step: Step)
    ensures Perform(e, step).engine.sendmsg
            == if step.DoSendTo? && step.addressOk && step.prepOk then e.sendmsg + {step.fd} else e.sendmsg
    ensures Perform(e, step).engine.recvmsg
            == if step.DoReceive? && step.kind.RecvMsg? && step.prepOk && Stores(e, step) then e.recvmsg[step.fd := None] else e.recvmsg
  {
    match step
    case DoReceive(kind, fd, future, now, prepOk, flushOk) => ReceiveMessages(e, kind, fd, future, now, prepOk, flushOk);
    case DoSend(fd, data, future, now, prepOk, flushOk) => SendMessages(e, fd, data, future, now, prepOk, flushOk);
    case _ =>
  }

  lemma ReceiveMessages(e: Engine, kind: OpType, fd: int, future: nat, now: nat, prepOk: bool, flushOk: bool)
    ensures var e' := SubmitReceive(e, kind, fd, future, now, prepOk, flushOk).engine;
            && e'.sendmsg == e.sendmsg
            && e'.recvmsg == if kind.RecvMsg? && prepOk && Stores(e, DoReceive(kind, fd, future, now, prepOk, flushOk))
                             then e.recvmsg[fd := None] else e.recvmsg
  {
    AcquiresIff(e.pool, now);
  }

  lemma SendMessages(e: Engine, fd: int, data: seq<byte>, future: nat, now: nat, prepOk: bool, flushOk: bool)
    ensures var e' := SubmitSend(e, fd, data, future, now, prepOk, flushOk).engine; e'.sendmsg == e.sendmsg && e'.recvmsg == e.recvmsg
  {
  }

  /** A receive whose future is silently dropped: exactly when the guard fails, whatever the queue and the kernel answer. */
  lemma DroppedIff(e: Engine, step: Step)
    requires step.DoReceive?
    ensures var r := Perform(e, step); r.op.None? && r.error.None? <==> !FdStates.ShouldSubmitRecv(e.fds, step.fd)
    ensures !FdStates.ShouldSubmitRecv(e.fds, step.fd) ==> Perform(e, step) == Submission(e, None, None)
  {
  }

  lemma PerformKeeps(e: Engine, step: Step)
    requires Valid(e) && StepAllowed(step)
    ensures Valid(Perform(e, step).engine) && SameRegion(e, Perform(e, step).engine)
  {
    var e' := Perform(e, step).engine;
    if step.DoUnregister? {
      UnregisterKeeps(e, step.fd);
    } else if step.DoReceive? {
      SubmitReceiveKeeps(e, step.kind, step.fd, step.future, step.now, step.prepOk, step.flushOk);
    } else if step.DoSend? {
      SubmitSendKeeps(e, step.fd, step.data, step.future, step.now, step.prepOk, step.flushOk);
    } else {
      assert e'.pool == e.pool && e'.inflight == e.inflight && e'.held == e.held;
      OtherStepFrame(e, step);
      SameOwners(e, e');
    }
  }

  lemma OtherStepFrame(e: Engine, step: Step)
    requires CreditAndQueues(e.fds) && !step.DoUnregister? && !step.DoReceive? && !step.DoSend?
    ensures CreditAndQueues(Perform(e, step).engine.fds)
  {
  }

  lemma SameOwners(e: Engine, e': Engine)
    requires Valid(e) && e'.pool == e.pool && e'.inflight == e.inflight && e'.held == e.held
    ensures CreditAndQueues(e'.fds) ==> Valid(e')
  {
  }

  /** A whole run of the engine: client calls, and ticks and drains over arbitrary completion lists. */
  datatype Call =
    | Client(step: Step)
    | TickOver(cs: seq<Cqe>, store: map<nat, Fut>, queue: seq<Handle>, foreign: Foreign)
    | DrainOver(cs: seq<Cqe>)

  ghost predicate CallMade(e: Engine, call: Call, e': Engine) {
    match call
    case Client(step) => StepAllowed(step) && e' == Perform(e, step).engine
    case TickOver(cs, store, queue, foreign) => e' == Process(TickState(e, store, queue, [], []), cs, foreign).engine
    case DrainOver(cs) => (forall i :: 0 <= i < |cs| ==> BufferIndex(cs[i]).None?) && e' == Drain(e, cs).engine
  }

  function NewEngine(p: Pool): Engine {
    Engine(p, FdStates.Manager(map[], 1), map[], map[], map[], {}, multiset{})
  }

  lemma NewEngineValid(size: nat, count: nat)
    requires size * count < U64 && count < 0x1_0000
    ensures Valid(NewEngine(NewPool(size, count, true).value))
  {
    NewCoversIff(size, count);
  }

  /**
   In every run the free list, the receives and the sends partition `0..count`, and
   no descriptor exceeds its credit: whatever exits the submissions take, whatever
   completions arrive, late, repeated or for nobody.
   */
  lemma {:induction false} ConservedInEveryRun(size: nat, count: nat, engines: seq<Engine>, calls: seq<Call>)
    requires size * count < U64 && count < 0x1_0000
    requires |engines| == |calls| + 1 && engines[0] == NewEngine(NewPool(size, count, true).value)
    requires forall i :: 0 <= i < |calls| ==> CallMade(engines[i], calls[i], engines[i + 1])
    ensures var e := engines[|calls|];
            && Valid(e) && e.pool.count == count
            && OwnedOnce(count, Available(e.pool), e.inflight, e.held)
            && e.pool.count - |e.pool.free| - |e.pool.quarantine| == |e.inflight| + |e.held|
  {
    var n := |calls|;
    if n == 0 {
      NewEngineValid(size, count);
    } else {
      ConservedInEveryRun(size, count, engines[..n], calls[..n - 1]);
      var e, e' := engines[n - 1], engines[n];
      assert CallMade(e, calls[n - 1], e');
      match calls[n - 1]
      case Client(step) => PerformKeeps(e, step);
      case TickOver(cs, store, queue, foreign) => ProcessKeeps(TickState(e, store, queue, [], []), cs, foreign);
      case DrainOver(cs) => DrainKeepsIff(e, cs); DrainOwns(e, cs);
    }
    var e := engines[n];
    PartitionMeaning(count, Available(e.pool), e.inflight, e.held);
    ValuesSize(e.inflight);
    assert |multiset(Range(count))| == count;
    assert |multiset(Available(e.pool))| == |e.pool.free| + |e.pool.quarantine|;
  }

  // ---------------------------------------------------------------------------
  // Runs with multishot drains
  // ---------------------------------------------------------------------------

  /** The kernel selects only buffers that exist. */
  predicate SelectionExists(c: Cqe, count: nat) {
    BufferIndex(c).Some? ==> BufferIndex(c).value < count
  }

  predicate SelectsExisting(cs: seq<Cqe>, count: nat) {
    forall i :: 0 <= i < |cs| ==> SelectionExists(cs[i], count)
  }

  lemma ExtractReadable(e: Engine, c: Cqe)
    requires Readable(e)
    ensures Readable(Extract(e, c).0) && SameRegion(e, Extract(e, c).0)
  {
    ExtractKeeps(e, c);
    ExtractMoves(e, c);
  }

  lemma DrainOneReadable(e: Engine, c: Cqe)
    requires Readable(e)
    ensures Readable(DrainOne(e, c).0) && SameRegion(e, DrainOne(e, c).0)
  {
  }

  lemma ExtractIndexed(e: Engine, c: Cqe)
    requires Indexed(e)
    ensures Indexed(Extract(e, c).0)
  {
    ExtractKeeps(e, c);
    ExtractMoves(e, c);
    var e', fd := Extract(e, c).0, FdOf(c.word);
    BelowMoves(Available(e.pool), if fd in e.inflight then multiset{e.inflight[fd]} else multiset{}, Available(e'.pool), e.pool.count);
  }

  lemma {:induction false} ProcessIndexed(t: TickState, cs: seq<Cqe>, foreign: Foreign)
    requires Indexed(t.engine)
    ensures Indexed(Process(t, cs, foreign).engine) && SameRegion(t.engine, Process(t, cs, foreign).engine)
  {
    if cs != [] {
      var n := |cs| - 1;
      var before := Process(t, cs[..n], foreign);
      ProcessIndexed(t, cs[..n], foreign);
      ExtractIndexed(before.engine, cs[n]);
      ExtractReadable(before.engine, cs[n]);
      ProcessOneEngine(before, cs[n], foreign);
    }
  }

  lemma GiveBackBelow(p: Pool, index: nat, n: nat)
    requires AllBelow(Available(p), n) && index < n
    ensures AllBelow(Available(GiveBack(p, index)), n)
  {
    GiveBackAdds(p, index);
    BelowMoves(Available(p), multiset{index}, Available(GiveBack(p, index)), n);
  }

  lemma DrainOneIndexed(e: Engine, c: Cqe)
    requires Indexed(e) && SelectionExists(c, e.pool.count)
    ensures Indexed(DrainOne(e, c).0)
  {
    DrainOneReadable(e, c);
    if BufferIndex(c).Some? {
      GiveBackBelow(e.pool, BufferIndex(c).value, e.pool.count);
    } else if OpOf(c.word).Recv? && FdOf(c.word) in e.inflight {
      GiveBackBelow(e.pool, e.inflight[FdOf(c.word)], e.pool.count);
    }
  }

  lemma {:induction false} DrainIndexed(e: Engine, cs: seq<Cqe>)
    requires Indexed(e) && SelectsExisting(cs, e.pool.count)
    ensures Indexed(Drain(e, cs).engine) && SameRegion(e, Drain(e, cs).engine)
  {
    if cs != [] {
      var n := |cs| - 1;
      DrainIndexed(e, cs[..n]);
      DrainOneIndexed(Drain(e, cs[..n]).engine, cs[n]);
      DrainOneReadable(Drain(e, cs[..n]).engine, cs[n]);
    }
  }

  lemma TrackIndexed(e: Engine, fd: int, buffer: nat)
    requires Indexed(e) && buffer < e.pool.count
    ensures Indexed(Track(e, fd, buffer))
  {
    if fd in e.inflight {
      GiveBackBelow(e.pool, e.inflight[fd], e.pool.count);
    }
  }

  lemma SubmitReceiveIndexed(e: Engine, kind: OpType, fd: int, future: nat, now: nat, prepOk: bool, flushOk: bool)
    requires Indexed(e)
    ensures var e' := SubmitReceive(e, kind, fd, future, now, prepOk, flushOk).engine; Indexed(e') && SameRegion(e, e')
  {
    AcquiredIndexed(e, now);
    var (p1, got) := Acquire(e.pool, now);
    if FdStates.ShouldSubmitRecv(e.fds, fd) && got.Some? {
      var e1 := e.(pool := p1, fds := FdStates.Update(e.fds, fd, FdStates.OnSubmit), futures := e.futures[fd := future]);
      SubmittedIndexed(e.(pool := p1), fd, future);
      if FdStates.Lookup(e.fds, fd).Success? && prepOk {
        AcceptReceiveIndexed(e1, kind, fd, got.value);
      } else {
        GiveBackBelow(p1, got.value, e.pool.count);
      }
    }
  }

  lemma AcquiredIndexed(e: Engine, now: nat)
    requires Indexed(e)
    ensures var (p, got) := Acquire(e.pool, now);
            Indexed(e.(pool := p)) && SameRegion(e, e.(pool := p)) && (got.Some? ==> got.value < e.pool.count)
  {
    AcquiredExists(e, now);
    AcquireTakes(e.pool, now);
  }

  lemma SubmittedIndexed(e: Engine, fd: int, future: nat)
    requires Indexed(e)
    ensures Indexed(e.(fds := FdStates.Update(e.fds, fd, FdStates.OnSubmit), futures := e.futures[fd := future]))
  {
  }

  lemma AcceptReceiveIndexed(e: Engine, kind: OpType, fd: int, buffer: nat)
    requires Indexed(e) && buffer < e.pool.count
    ensures var e' := if kind.RecvMsg? then e.(recvmsg := e.recvmsg[fd := None]) else e;
            Indexed(Track(e', fd, buffer)) && SameRegion(e, Track(e', fd, buffer))
  {
    TrackIndexed(if kind.RecvMsg? then e.(recvmsg := e.recvmsg[fd := None]) else e, fd, buffer);
  }

  lemma SubmitSendIndexed(e: Engine, fd: int, data: seq<byte>, future: nat, now: nat, prepOk: bool, flushOk: bool)
    requires Indexed(e)
    ensures var e' := SubmitSend(e, fd, data, future, now, prepOk, flushOk).engine; Indexed(e') && SameRegion(e, e')
  {
    AcquiredExists(e, now);
    AcquireTakes(e.pool, now);
    var (p1, got) := Acquire(e.pool, now);
    if got.Some? {
      GiveBackBelow(p1.(mem := StoreIn(p1, got.value, data)), got.value, e.pool.count);
    }
  }

  lemma UnregisterIndexed(e: Engine, fd: int)
    requires Indexed(e)
    ensures Indexed(UnregisterFd(e, fd)) && SameRegion(e, UnregisterFd(e, fd))
  {
    UnregisterMoves(e, fd);
    var queued := if fd in e.fds.states then QueuedIndices(e.fds.states[fd].queue) else [];
    var recorded := if fd in e.inflight then multiset{e.inflight[fd]} else multiset{};
    BelowQueued(queued, e.pool.count);
    BelowMoves(Available(e.pool), recorded + multiset(queued), Available(UnregisterFd(e, fd).pool), e.pool.count);
  }

  lemma BelowQueued(queued: seq<nat>, n: nat)
    requires AllBelow(queued, n)
    ensures forall i :: i in multiset(queued) ==> i < n
  {
    forall i | i in multiset(queued) ensures i < n {
      assert i in queued;
    }
  }

  lemma PerformIndexed(e: Engine, step: Step)
    requires Indexed(e)
    ensures Indexed(Perform(e, step).engine) && SameRegion(e, Perform(e, step).engine)
  {
    if step.DoUnregister? {
      UnregisterIndexed(e, step.fd);
    } else if step.DoReceive? {
      SubmitReceiveIndexed(e, step.kind, step.fd, step.future, step.now, step.prepOk, step.flushOk);
    } else if step.DoSend? {
      SubmitSendIndexed(e, step.fd, step.data, step.future, step.now, step.prepOk, step.flushOk);
    } else {
      OtherStepQueues(e, step);
    }
  }

  lemma OtherStepQueues(e: Engine, step: Step)
    requires !step.DoUnregister? && !step.DoReceive? && !step.DoSend?
    ensures var e' := Perform(e, step).engine;
            && e'.pool == e.pool && e'.inflight == e.inflight
            && forall fd :: fd in e'.fds.states ==>
                 e'.fds.states[fd].queue == [] || (fd in e.fds.states && e'.fds.states[fd].queue == e.fds.states[fd].queue)
  {
  }

  /** Like `CallMade`, with drains over lists that may contain multishot completions. */
  ghost predicate AnyCallMade(e: Engine, call: Call, e': Engine) {
    match call
    case DrainOver(cs) => SelectsExisting(cs, e.pool.count) && e' == Drain(e, cs).engine
    case _ => CallMade(e, call, e')
  }

  /**
   Whatever is drained, in every run and for pools of any size, every index in the
   engine names an existing buffer, so submissions, ticks and further drains stay in bounds.
   */
  lemma {:induction false} IndexedInEveryRun(size: nat, count: nat, engines: seq<Engine>, calls: seq<Call>)
    requires size * count < U64
    requires |engines| == |calls| + 1 && engines[0] == NewEngine(NewPool(size, count, true).value)
    requires forall i :: 0 <= i < |calls| ==> AnyCallMade(engines[i], calls[i], engines[i + 1])
    ensures Indexed(engines[|calls|]) && engines[|calls|].pool.count == count
  {
    var n := |calls|;
    if n > 0 {
      IndexedInEveryRun(size, count, engines[..n], calls[..n - 1]);
      var e := engines[n - 1];
      assert AnyCallMade(e, calls[n - 1], engines[n]);
      match calls[n - 1]
      case Client(step) => PerformIndexed(e, step);
      case TickOver(cs, store, queue, foreign) => ProcessIndexed(TickState(e, store, queue, [], []), cs, foreign);
      case DrainOver(cs) => DrainIndexed(e, cs);
    }
  }

  // ---------------------------------------------------------------------------
  // First completion wins
  // ---------------------------------------------------------------------------

  /** The descriptors that the first `n` completions name. */
  function Fds(cs: seq<Cqe>): set<int> {
    set c | c in cs :: FdOf(c.word)
  }

  lemma FdsConcat(cs: seq<Cqe>, c: Cqe)
    ensures Fds(cs + [c]) == Fds(cs) + {FdOf(c.word)}
  {
    assert forall d :: d in cs + [c] <==> d in cs || d == c;
  }

  /** Processing a list keeps the futures of exactly the descriptors the list does not name. */
  lemma {:induction false} FuturesLeft(t: TickState, cs: seq<Cqe>, foreign: Foreign)
    ensures Process(t, cs, foreign).engine.futures == t.engine.futures - Fds(cs)
  {
    if cs == [] {
      assert t.engine.futures - Fds(cs) == t.engine.futures;
    } else {
      var n := |cs| - 1;
      FuturesLeft(t, cs[..n], foreign);
      ProcessOneEngine(Process(t, cs[..n], foreign), cs[n], foreign);
      assert cs == cs[..n] + [cs[n]];
      FdsConcat(cs[..n], cs[n]);
    }
  }

  /**
   The completion at position `k` resolves a future exactly when one is stored for its
   descriptor and no earlier completion of the list names the same descriptor, whatever
   its operation; it is then that future that is resolved.
   */
  lemma FirstCompletionWins(t: TickState, cs: seq<Cqe>, k: nat, foreign: Foreign)
    requires k < |cs|
    ensures var before, after := Process(t, cs[..k], foreign), Process(t, cs[..k + 1], foreign);
            var fd := FdOf(cs[k].word);
            after.events == before.events +
              if fd in t.engine.futures && fd !in Fds(cs[..k])
              then [Event(t.engine.futures[fd], Resolution(Extract(before.engine, cs[k]).1))] else []
  {
    FuturesLeft(t, cs[..k], foreign);
    ExtractKeeps(Process(t, cs[..k], foreign).engine, cs[k]);
    ExtractItem(Process(t, cs[..k], foreign).engine, cs[k]);
    assert cs[..k + 1][..k] == cs[..k];
  }

  /** The first `min(len, size)` bytes of a buffer. */
  function BytesOf(p: Pool, index: nat, len: nat): seq<byte>
    requires Fits(p.mem, p.size, index)
  {
    p.mem[index * p.size..index * p.size + if len < p.size then len else p.size]
  }

  /** The data is exactly the bytes of the buffer; buffers outside the region do not occur. */
  predicate IsRead(p: Pool, index: nat, len: nat, data: seq<byte>) {
    Fits(p.mem, p.size, index) ==> data == BytesOf(p, index, len)
  }

  predicate TakesReceive(c: Cqe) {
    OpOf(c.word).Recv? || OpOf(c.word).RecvMsg?
  }

  /** Completion `i` finds a buffer recorded for its descriptor that no earlier completion of the list has taken. */
  ghost predicate FindsBuffer(e: Engine, cs: seq<Cqe>, i: nat)
    requires i < |cs|
  {
    FdOf(cs[i].word) in e.inflight && !TakenBy(cs[..i], FdOf(cs[i].word))
  }

  /** What a tick reports as data for completion `i`, read off the engine before the tick. */
  ghost predicate TickData(e: Engine, cs: seq<Cqe>, i: nat, data: Option<Obj>)
    requires i < |cs|
  {
    var c, fd := cs[i], FdOf(cs[i].word);
    match OpOf(c.word)
    case SendMsg => data == Some(Num(c.result))
    case RecvMulti =>
      if c.result > 0 && BufferIndex(c).Some?
      then data.Some? && data.value.Bytes? && IsRead(e.pool, BufferIndex(c).value, c.result, data.value.bytes)
      else data.None?
    case Recv =>
      if c.result > 0 && FindsBuffer(e, cs, i)
      then data.Some? && data.value.Bytes? && IsRead(e.pool, e.inflight[fd], c.result, data.value.bytes)
      else data.None?
    case RecvMsg =>
      if c.result > 0 && FindsBuffer(e, cs, i)
      then
        && data.Some?
        && (if fd in e.recvmsg && e.recvmsg[fd].Some?
            then data.value.BytesFrom? && data.value.address == e.recvmsg[fd].value
            else data.value.Bytes?)
        && IsRead(e.pool, e.inflight[fd], c.result, data.value.bytes)
      else data.None?
    case _ => data.None?
  }

  ghost predicate Reports(e: Engine, cs: seq<Cqe>, i: nat, tuple: Tuple)
    requires i < |cs|
  {
    && tuple.fd == FdOf(cs[i].word) && tuple.op == OpOf(cs[i].word) && tuple.result == cs[i].result
    && TickData(e, cs, i, tuple.data)
  }

  /** Each tuple reports the completion at its position. */
  ghost predicate AllReport(e: Engine, cs: seq<Cqe>, tuples: seq<Tuple>) {
    |tuples| == |cs| && forall i :: 0 <= i < |cs| ==> Reports(e, cs, i, tuples[i])
  }

  /** Some completion of the list takes the buffer recorded for the descriptor. */
  ghost predicate TakenBy(cs: seq<Cqe>, fd: int) {
    exists j :: 0 <= j < |cs| && TakesReceive(cs[j]) && FdOf(cs[j].word) == fd
  }

  /** Two engines agree on the buffer and address recorded for a descriptor. */
  predicate AgreeOn(e: Engine, e': Engine, fd: int) {
    && (fd in e.inflight <==> fd in e'.inflight) && (fd in e.inflight ==> e.inflight[fd] == e'.inflight[fd])
    && (fd in e.recvmsg <==> fd in e'.recvmsg) && (fd in e.recvmsg ==> e.recvmsg[fd] == e'.recvmsg[fd])
  }

  /** What is left of recorded buffers and addresses after some completions of a tick. */
  ghost predicate Untaken(e: Engine, cs: seq<Cqe>, e': Engine) {
    && e'.pool.mem == e.pool.mem && SameRegion(e, e')
    && forall fd :: if TakenBy(cs, fd) then fd !in e'.inflight else AgreeOn(e, e', fd)
  }

  lemma ExtractUntaken(e: Engine, c: Cqe, fd: int)
    ensures var e' := Extract(e, c).0; if TakesReceive(c) && FdOf(c.word) == fd then fd !in e'.inflight else AgreeOn(e, e', fd)
  {
  }

  lemma TakenByOneMore(cs: seq<Cqe>, c: Cqe, fd: int)
    ensures TakenBy(cs + [c], fd) <==> TakenBy(cs, fd) || (TakesReceive(c) && FdOf(c.word) == fd)
  {
    assert forall j :: 0 <= j < |cs| ==> (cs + [c])[j] == cs[j];
    assert (cs + [c])[|cs|] == c;
  }

  lemma UntakenStep(e: Engine, cs: seq<Cqe>, c: Cqe, e1: Engine, e2: Engine)
    requires Untaken(e, cs, e1) && e2.pool.mem == e1.pool.mem && SameRegion(e1, e2)
    requires e2.inflight == Extract(e1, c).0.inflight && e2.recvmsg == Extract(e1, c).0.recvmsg
    ensures Untaken(e, cs + [c], e2)
  {
    forall fd ensures if TakenBy(cs + [c], fd) then fd !in e2.inflight else AgreeOn(e, e2, fd) {
      ExtractUntaken(e1, c, fd);
      TakenByOneMore(cs, c, fd);
      assert if TakenBy(cs, fd) then fd !in e1.inflight else AgreeOn(e, e1, fd);
    }
  }

  lemma {:induction false} ProcessUntaken(t: TickState, cs: seq<Cqe>, foreign: Foreign)
    ensures Untaken(t.engine, cs, Process(t, cs, foreign).engine)
  {
    if cs != [] {
      var n := |cs| - 1;
      var before := Process(t, cs[..n], foreign);
      ProcessUntaken(t, cs[..n], foreign);
      ProcessOneEngine(before, cs[n], foreign);
      ExtractKeeps(before.engine, cs[n]);
      assert cs == cs[..n] + [cs[n]];
      UntakenStep(t.engine, cs[..n], cs[n], before.engine, Process(t, cs, foreign).engine);
    }
  }

  /** The completions of a list that end a receive with an address, having found its buffer. */
  ghost predicate EndsMessage(e: Engine, cs: seq<Cqe>, i: nat, fd: int)
    requires i < |cs|
  {
    OpOf(cs[i].word).RecvMsg? && FdOf(cs[i].word) == fd && FindsBuffer(e, cs, i)
  }

  /** After a tick the message records are those whose operations have not completed. */
  ghost predicate MessagesLeft(e: Engine, cs: seq<Cqe>, e': Engine) {
    && (forall fd :: fd in e'.sendmsg <==> fd in e.sendmsg && forall i :: 0 <= i < |cs| && OpOf(cs[i].word).SendMsg? ==> FdOf(cs[i].word) != fd)
    && (forall fd :: fd in e'.recvmsg <==> fd in e.recvmsg && forall i :: 0 <= i < |cs| ==> !EndsMessage(e, cs, i, fd))
    && (forall fd :: fd in e'.recvmsg ==> e'.recvmsg[fd] == e.recvmsg[fd])
  }

  lemma ExtractMessages(e: Engine, c: Cqe)
    ensures var e', fd := Extract(e, c).0, FdOf(c.word);
            && e'.sendmsg == (if OpOf(c.word).SendMsg? then e.sendmsg - {fd} else e.sendmsg)
            && e'.recvmsg == (if OpOf(c.word).RecvMsg? && fd in e.inflight then e.recvmsg - {fd} else e.recvmsg)
  {
  }

  lemma MessagesStep(e: Engine, cs: seq<Cqe>, c: Cqe, e1: Engine, e2: Engine)
    requires MessagesLeft(e, cs, e1) && Untaken(e, cs, e1)
    requires e2.sendmsg == Extract(e1, c).0.sendmsg && e2.recvmsg == Extract(e1, c).0.recvmsg
    ensures MessagesLeft(e, cs + [c], e2)
  {
    var all := cs + [c];
    ExtractMessages(e1, c);
    assert all[|cs|] == c && all[..|cs|] == cs;
    assert forall i :: 0 <= i < |cs| ==> all[i] == cs[i];
    forall i, fd | 0 <= i < |cs| ensures EndsMessage(e, all, i, fd) <==> EndsMessage(e, cs, i, fd) {
      assert all[..i] == cs[..i];
    }
    assert if TakenBy(cs, FdOf(c.word)) then FdOf(c.word) !in e1.inflight else AgreeOn(e, e1, FdOf(c.word));
    forall fd ensures fd in e2.recvmsg <==> fd in e.recvmsg && forall i :: 0 <= i < |all| ==> !EndsMessage(e, all, i, fd) {
      assert EndsMessage(e, all, |cs|, fd) <==> OpOf(c.word).RecvMsg? && FdOf(c.word) == fd && fd in e1.inflight;
    }
  }

  lemma {:induction false} ProcessMessages(t: TickState, cs: seq<Cqe>, foreign: Foreign)
    ensures MessagesLeft(t.engine, cs, Process(t, cs, foreign).engine)
  {
    if cs != [] {
      var n := |cs| - 1;
      var before := Process(t, cs[..n], foreign);
      ProcessMessages(t, cs[..n], foreign);
      ProcessUntaken(t, cs[..n], foreign);
      ProcessOneEngine(before, cs[n], foreign);
      assert cs == cs[..n] + [cs[n]];
      MessagesStep(t.engine, cs[..n], cs[n], before.engine, Process(t, cs, foreign).engine);
    }
  }

  lemma SliceIsRead(p: Pool, index: nat, len: nat)
    ensures IsRead(p, index, len, SliceOr(p, index, len))
  {
  }

  /** The item of the last completion of a list, from the engine that the others leave. */
  lemma ExtractReports(e: Engine, cs: seq<Cqe>, e1: Engine)
    requires cs != [] && Untaken(e, cs[..|cs| - 1], e1)
    ensures var item := Extract(e1, cs[|cs| - 1]).1;
            Reports(e, cs, |cs| - 1, Tuple(item.fd, item.op, item.result, item.data))
  {
    var n := |cs| - 1;
    var c, fd, before := cs[n], FdOf(cs[n].word), cs[..n];
    assert if TakenBy(before, fd) then fd !in e1.inflight else AgreeOn(e, e1, fd);
    assert FindsBuffer(e, cs, n) <==> fd in e1.inflight;
    if OpOf(c.word).RecvMulti? && BufferIndex(c).Some? && c.result > 0 {
      SliceIsRead(e1.pool, BufferIndex(c).value, c.result);
    } else if TakesReceive(c) && fd in e1.inflight && c.result > 0 {
      SliceIsRead(e1.pool, e1.inflight[fd], c.result);
    }
  }

  lemma ReportsPrefix(e: Engine, cs: seq<Cqe>, i: nat, tuple: Tuple)
    requires cs != [] && i < |cs| - 1 && Reports(e, cs[..|cs| - 1], i, tuple)
    ensures Reports(e, cs, i, tuple)
  {
    assert cs[..|cs| - 1][..i] == cs[..i];
  }

  /**
   One tuple per completion, in their order, each reporting its own completion's descriptor,
   operation and result, and exactly the bytes, and the address, that were in the engine
   for it before the tick.
   */
  lemma {:induction false} TuplesReport(t: TickState, cs: seq<Cqe>, foreign: Foreign)
    requires t.tuples == []
    ensures AllReport(t.engine, cs, Process(t, cs, foreign).tuples)
  {
    if cs != [] {
      var n := |cs| - 1;
      var before := Process(t, cs[..n], foreign);
      TuplesReport(t, cs[..n], foreign);
      ProcessUntaken(t, cs[..n], foreign);
      ExtractReports(t.engine, cs, before.engine);
      forall i | 0 <= i < n ensures Reports(t.engine, cs, i, before.tuples[i]) {
        ReportsPrefix(t.engine, cs, i, before.tuples[i]);
      }
    }
  }

  // ---------------------------------------------------------------------------
  // What a drain reports
  // ---------------------------------------------------------------------------

  /** A receive that does not use a kernel-selected buffer. */
  predicate DrainsReceive(c: Cqe) {
    BufferIndex(c).None? && OpOf(c.word).Recv?
  }

  ghost predicate DrainedBy(cs: seq<Cqe>, fd: int) {
    exists j :: 0 <= j < |cs| && DrainsReceive(cs[j]) && FdOf(cs[j].word) == fd
  }

  /** What a drain reports as data for completion `i`, read off the engine before the drain. */
  ghost predicate DrainData(e: Engine, cs: seq<Cqe>, i: nat, data: Option<Obj>)
    requires i < |cs|
  {
    var c, fd := cs[i], FdOf(cs[i].word);
    if c.result > 0 && BufferIndex(c).Some? then
      data.Some? && data.value.Bytes? && IsRead(e.pool, BufferIndex(c).value, c.result, data.value.bytes)
    else if c.result > 0 && DrainsReceive(c) && fd in e.inflight && !DrainedBy(cs[..i], fd) then
      data.Some? && data.value.Bytes? && IsRead(e.pool, e.inflight[fd], c.result, data.value.bytes)
    else data.None?
  }

  ghost predicate DrainReports(e: Engine, cs: seq<Cqe>, i: nat, item: Item)
    requires i < |cs|
  {
    && item.fd == FdOf(cs[i].word) && item.op == OpOf(cs[i].word) && item.result == cs[i].result
    && DrainData(e, cs, i, item.data)
  }

  /** How many completions of the list drain a receive of the descriptor. */
  function DrainedFor(cs: seq<Cqe>, fd: int): nat {
    if cs == [] then 0
    else
      var c := cs[|cs| - 1];
      DrainedFor(cs[..|cs| - 1], fd) + if DrainsReceive(c) && FdOf(c.word) == fd then 1 else 0
  }

  /** A descriptor's state after some of its receives have been drained; a stale registration is not touched. */
  function DrainedState(m: FdStates.Manager, fd: int, n: nat): FdStates.FdState
    requires fd in m.states
  {
    var s := m.states[fd];
    if s.generation != m.generation then s else s.(inflight := if s.inflight > n then s.inflight - n else 0)
  }

  /** Everything a drain leaves behind except which buffers are free. */
  ghost predicate DrainLeaves(e: Engine, cs: seq<Cqe>, e': Engine) {
    && e'.pool.mem == e.pool.mem && SameRegion(e, e')
    && e'.futures == e.futures && e'.recvmsg == e.recvmsg && e'.sendmsg == e.sendmsg && e'.held == e.held
    && (forall fd :: if DrainedBy(cs, fd) then fd !in e'.inflight else AgreeOn(e, e', fd))
    && e'.fds.generation == e.fds.generation
    && (forall fd :: fd in e'.fds.states <==> fd in e.fds.states)
    && (forall fd :: fd in e.fds.states ==> e'.fds.states[fd] == DrainedState(e.fds, fd, DrainedFor(cs, fd)))
  }

  lemma DrainedByOneMore(cs: seq<Cqe>, c: Cqe, fd: int)
    ensures DrainedBy(cs + [c], fd) <==> DrainedBy(cs, fd) || (DrainsReceive(c) && FdOf(c.word) == fd)
    ensures DrainedFor(cs + [c], fd) == DrainedFor(cs, fd) + if DrainsReceive(c) && FdOf(c.word) == fd then 1 else 0
  {
    assert forall j :: 0 <= j < |cs| ==> (cs + [c])[j] == cs[j];
    assert (cs + [c])[|cs|] == c && (cs + [c])[..|cs|] == cs;
  }

  lemma DrainOneLeaves(e: Engine, c: Cqe, fd: int)
    ensures var e' := DrainOne(e, c).0;
            && e'.pool.mem == e.pool.mem && SameRegion(e, e') && e'.fds.generation == e.fds.generation
            && e'.futures == e.futures && e'.recvmsg == e.recvmsg && e'.sendmsg == e.sendmsg && e'.held == e.held
            && (if DrainsReceive(c) && FdOf(c.word) == fd then fd !in e'.inflight else AgreeOn(e, e', fd))
            && (fd in e'.fds.states <==> fd in e.fds.states)
            && (fd in e.fds.states ==>
                  e'.fds.states[fd] == DrainedState(e.fds, fd, if DrainsReceive(c) && FdOf(c.word) == fd then 1 else 0))
  {
  }

  lemma DrainLeavesStep(e: Engine, cs: seq<Cqe>, c: Cqe, e1: Engine)
    requires DrainLeaves(e, cs, e1)
    ensures DrainLeaves(e, cs + [c], DrainOne(e1, c).0)
  {
    var e2 := DrainOne(e1, c).0;
    DrainOneLeaves(e1, c, 0);
    forall fd
      ensures if DrainedBy(cs + [c], fd) then fd !in e2.inflight else AgreeOn(e, e2, fd)
      ensures fd in e2.fds.states <==> fd in e.fds.states
      ensures fd in e.fds.states ==> e2.fds.states[fd] == DrainedState(e.fds, fd, DrainedFor(cs + [c], fd))
    {
      DrainOneLeaves(e1, c, fd);
      DrainedByOneMore(cs, c, fd);
      assert if DrainedBy(cs, fd) then fd !in e1.inflight else AgreeOn(e, e1, fd);
    }
  }

  /**
   A drain leaves futures, messages, sends and bytes alone, forgets the recorded buffers of
   the receives it drains, and lowers each current descriptor's count by the number of its
   drained receives, not below zero.
   */
  lemma {:induction false} DrainLeavesRest(e: Engine, cs: seq<Cqe>)
    ensures DrainLeaves(e, cs, Drain(e, cs).engine)
  {
    if cs != [] {
      var n := |cs| - 1;
      DrainLeavesRest(e, cs[..n]);
      assert cs == cs[..n] + [cs[n]];
      DrainLeavesStep(e, cs[..n], cs[n], Drain(e, cs[..n]).engine);
    }
  }

  lemma DrainOneReports(e: Engine, cs: seq<Cqe>, e1: Engine)
    requires cs != [] && DrainLeaves(e, cs[..|cs| - 1], e1)
    ensures DrainReports(e, cs, |cs| - 1, DrainOne(e1, cs[|cs| - 1]).1)
  {
    var n := |cs| - 1;
    var c, fd, before := cs[n], FdOf(cs[n].word), cs[..n];
    assert if DrainedBy(before, fd) then fd !in e1.inflight else AgreeOn(e, e1, fd);
    if BufferIndex(c).Some? && c.result > 0 {
      SliceIsRead(e1.pool, BufferIndex(c).value, c.result);
    } else if DrainsReceive(c) && fd in e1.inflight && c.result > 0 {
      SliceIsRead(e1.pool, e1.inflight[fd], c.result);
    }
  }

  lemma DrainReportsPrefix(e: Engine, cs: seq<Cqe>, i: nat, item: Item)
    requires cs != [] && i < |cs| - 1 && DrainReports(e, cs[..|cs| - 1], i, item)
    ensures DrainReports(e, cs, i, item)
  {
    assert cs[..|cs| - 1][..i] == cs[..i];
  }

  /** One item per completion, in their order, with exactly the bytes that were in its buffer before the drain. */
  lemma {:induction false} ItemsReport(e: Engine, cs: seq<Cqe>)
    ensures var items := Drain(e, cs).items;
            |items| == |cs| && forall i :: 0 <= i < |cs| ==> DrainReports(e, cs, i, items[i])
  {
    if cs != [] {
      var n := |cs| - 1;
      var before := Drain(e, cs[..n]);
      ItemsReport(e, cs[..n]);
      DrainLeavesRest(e, cs[..n]);
      DrainOneReports(e, cs, before.engine);
      forall i | 0 <= i < n ensures DrainReports(e, cs, i, before.items[i]) {
        DrainReportsPrefix(e, cs, i, before.items[i]);
      }
    }
  }

  // ---------------------------------------------------------------------------
  // What events do to native futures
  // ---------------------------------------------------------------------------

  /** The state named by the first event for a future. */
  function FirstFor(events: seq<Event>, future: nat): Option<FutState> {
    if events == [] then None
    else
      var before := FirstFor(events[..|events| - 1], future);
      var last := events[|events| - 1];
      if before.Some? then before else if last.future == future then Some(last.state) else None
  }

  /** A native future after some events: the first one settles it, unless it was done already. */
  function After(fut: Fut, events: seq<Event>, future: nat): Fut {
    var first := FirstFor(events, future);
    if fut.state.Pending? && first.Some? then Fut(first.value, []) else fut
  }

  lemma AfterOne(fut: Fut, events: seq<Event>, e: Event, future: nat)
    requires !e.state.Pending? && (FirstFor(events, future).Some? ==> !FirstFor(events, future).value.Pending?)
    ensures After(fut, events + [e], future)
            == if e.future == future then SettleFast(After(fut, events, future), future, e.state, []).fut else After(fut, events, future)
    ensures FirstFor(events + [e], future).Some? ==> !FirstFor(events + [e], future).value.Pending?
  {
    assert (events + [e])[..|events|] == events;
  }

  /** Processing settles each native future at most once, by the first event that names it. */
  lemma {:induction false} StoreFollowsEvents(t: TickState, cs: seq<Cqe>, foreign: Foreign, future: nat)
    requires future in t.store && t.events == []
    ensures var r := Process(t, cs, foreign);
            && future in r.store && r.store[future] == After(t.store[future], r.events, future)
            && (FirstFor(r.events, future).Some? ==> !FirstFor(r.events, future).value.Pending?)
  {
    if cs != [] {
      var n := |cs| - 1;
      StoreFollowsEvents(t, cs[..n], foreign, future);
      var before := Process(t, cs[..n], foreign);
      var item := Extract(before.engine, cs[n]).1;
      ExtractKeeps(before.engine, cs[n]);
      if item.fd in before.engine.futures {
        AfterOne(t.store[future], before.events, Event(before.engine.futures[item.fd], Resolution(item)), future);
      }
    }
  }

  // ---------------------------------------------------------------------------
  // What events put on the ready queue
  // ---------------------------------------------------------------------------

  /** No earlier event is for the same future. */
  ghost predicate IsFirst(events: seq<Event>, k: nat)
    requires k < |events|
  {
    forall j :: 0 <= j < k ==> events[j].future != events[k].future
  }

  /**
   What the event at position `k` puts on the queue: the callbacks that its native future
   held, if that was pending and this is its first event; nothing more for a native future;
   whatever a foreign future's own method pushes.
   */
  ghost function Woken(store: map<nat, Fut>, events: seq<Event>, k: nat, foreign: Foreign): seq<Handle>
    requires k < |events|
  {
    var e := events[k];
    if e.future !in store then foreign(e.future, e.state)
    else if store[e.future].state.Pending? && IsFirst(events, k) then HandlesFor(e.future, store[e.future].callbacks)
    else []
  }

  /** What the first `n` events put on the queue, in their order. */
  ghost function Scheduled(store: map<nat, Fut>, events: seq<Event>, n: nat, foreign: Foreign): seq<Handle>
    requires n <= |events|
  {
    if n == 0 then [] else Scheduled(store, events, n - 1, foreign) + Woken(store, events, n - 1, foreign)
  }

  lemma {:induction false} ScheduledPrefix(store: map<nat, Fut>, events: seq<Event>, e: Event, n: nat, foreign: Foreign)
    requires n <= |events|
    ensures Scheduled(store, events + [e], n, foreign) == Scheduled(store, events, n, foreign)
  {
    if n > 0 {
      ScheduledPrefix(store, events, e, n - 1, foreign);
      assert forall j :: 0 <= j < n ==> (events + [e])[j] == events[j];
      assert IsFirst(events + [e], n - 1) <==> IsFirst(events, n - 1);
    }
  }

  lemma {:induction false} FirstForNone(events: seq<Event>, future: nat)
    ensures FirstFor(events, future).None? <==> forall j :: 0 <= j < |events| ==> events[j].future != future
  {
    if events != [] {
      FirstForNone(events[..|events| - 1], future);
    }
  }

  lemma {:induction false} StoreKeys(t: TickState, cs: seq<Cqe>, foreign: Foreign)
    ensures Process(t, cs, foreign).store.Keys == t.store.Keys
  {
    if cs != [] {
      StoreKeys(t, cs[..|cs| - 1], foreign);
    }
  }

  /** Each native future is as the events so far leave it. */
  ghost predicate FollowsFrom(store: map<nat, Fut>, t: TickState) {
    && t.store.Keys == store.Keys
    && forall f :: f in store ==>
         t.store[f] == After(store[f], t.events, f) && (FirstFor(t.events, f).Some? ==> !FirstFor(t.events, f).value.Pending?)
  }

  lemma ProcessFollows(t: TickState, cs: seq<Cqe>, foreign: Foreign)
    requires t.events == []
    ensures FollowsFrom(t.store, Process(t, cs, foreign))
  {
    StoreKeys(t, cs, foreign);
    forall f | f in t.store
      ensures var r := Process(t, cs, foreign);
              r.store[f] == After(t.store[f], r.events, f) && (FirstFor(r.events, f).Some? ==> !FirstFor(r.events, f).value.Pending?)
    {
      StoreFollowsEvents(t, cs, foreign, f);
    }
  }

  lemma ResolveWakes(t: TickState, store: map<nat, Fut>, future: nat, state: FutState, foreign: Foreign)
    requires FollowsFrom(store, t)
    ensures var after := Resolve(t, future, state, foreign);
            after.queue == t.queue + Woken(store, after.events, |t.events|, foreign)
  {
    FirstForNone(t.events, future);
    var events := t.events + [Event(future, state)];
    assert forall j :: 0 <= j < |t.events| ==> events[j] == t.events[j];
    assert future in t.store <==> future in store;
  }

  lemma ResolveSchedules(t: TickState, store: map<nat, Fut>, future: nat, state: FutState, foreign: Foreign, queue: seq<Handle>)
    requires FollowsFrom(store, t) && t.queue == queue + Scheduled(store, t.events, |t.events|, foreign)
    ensures var after := Resolve(t, future, state, foreign);
            after.queue == queue + Scheduled(store, after.events, |after.events|, foreign)
  {
    ResolveWakes(t, store, future, state, foreign);
    ScheduledOneMore(store, t.events, Event(future, state), foreign, queue);
  }

  lemma ScheduledOneMore(store: map<nat, Fut>, events: seq<Event>, e: Event, foreign: Foreign, queue: seq<Handle>)
    ensures queue + Scheduled(store, events, |events|, foreign) + Woken(store, events + [e], |events|, foreign)
            == queue + Scheduled(store, events + [e], |events| + 1, foreign)
  {
    ScheduledPrefix(store, events, e, |events|, foreign);
  }

  lemma ProcessOneSchedules(t: TickState, c: Cqe, foreign: Foreign, store: map<nat, Fut>, queue: seq<Handle>)
    requires FollowsFrom(store, t) && t.queue == queue + Scheduled(store, t.events, |t.events|, foreign)
    ensures var after := ProcessOne(t, c, foreign);
            after.queue == queue + Scheduled(store, after.events, |after.events|, foreign)
  {
    var (e, item) := Extract(t.engine, c);
    if item.fd in e.futures {
      var t1 := t.(engine := e.(futures := e.futures - {item.fd}));
      ResolveSchedules(t1, store, e.futures[item.fd], Resolution(item), foreign, queue);
    }
  }

  /**
   The ready queue after processing is the queue before, then for each event in order the
   handles it wakes: each callback of a pending native future once, by the first event for it.
   */
  lemma {:induction false} QueueFollowsEvents(t: TickState, cs: seq<Cqe>, foreign: Foreign)
    requires t.events == []
    ensures var r := Process(t, cs, foreign);
            r.queue == t.queue + Scheduled(t.store, r.events, |r.events|, foreign)
  {
    if cs != [] {
      var n := |cs| - 1;
      var before := Process(t, cs[..n], foreign);
      QueueFollowsEvents(t, cs[..n], foreign);
      ProcessFollows(t, cs[..n], foreign);
      ProcessOneSchedules(before, cs[n], foreign, t.store, t.queue);
    }
  }
}
