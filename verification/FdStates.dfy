/** Per-descriptor state: credit accounting for backpressure, and generation-checked access. */
module FdStates {
  import opened Bits
  import opened Indices

  const DEFAULT_CREDIT_BUDGET: nat := 64

  datatype SocketType = TcpStream | TcpListener | Udp | UnixStream | UnixListener | Other

  datatype BufferRef = BufferRef(index: nat, len: nat, offset: nat, generation: nat)

  datatype FdState = FdState(inflight: nat, queue: seq<BufferRef>, budget: nat, generation: nat, paused: bool, socketType: SocketType)

  datatype FdError = NotRegistered(fd: int) | InvalidGeneration(expected: nat, got: nat)

  function NewState(generation: nat, socketType: SocketType): FdState {
    FdState(0, [], DEFAULT_CREDIT_BUDGET, generation, false, socketType)
  }

  /** The credit test in the source's 32-bit arithmetic. */
  predicate HasCredit(s: FdState) {
    (s.inflight + |s.queue| % U32) % U32 < s.budget
  }

  predicate ShouldSubmit(s: FdState) {
    !s.paused && HasCredit(s)
  }

  /** Saturating increment of a 32-bit counter. */
  function OnSubmit(s: FdState): FdState {
    s.(inflight := if s.inflight + 1 < U32 then s.inflight + 1 else U32 - 1)
  }

  /** Saturating decrement. */
  function OnCompletionEmpty(s: FdState): FdState {
    s.(inflight := if s.inflight > 0 then s.inflight - 1 else 0)
  }

  function OnCompletion(s: FdState, buffer: BufferRef): FdState {
    OnCompletionEmpty(s).(queue := s.queue + [buffer])
  }

  function TakeBuffer(s: FdState): FdState {
    if s.queue == [] then s else s.(queue := s.queue[1..])
  }

  datatype Manager = Manager(states: map<int, FdState>, generation: nat)

  /** Access to a registered descriptor of the current generation. */
  function Lookup(m: Manager, fd: int): Result<FdState, FdError> {
    if fd !in m.states then Failure(NotRegistered(fd))
    else if m.states[fd].generation != m.generation then Failure(InvalidGeneration(m.generation, m.states[fd].generation))
    else Success(m.states[fd])
  }

  /** The manager after a checked update; a failed check changes nothing. */
  function Update(m: Manager, fd: int, f: FdState -> FdState): Manager {
    match Lookup(m, fd)
    case Success(s) => m.(states := m.states[fd := f(s)])
    case Failure(_) => m
  }

  /** Whether a receive may be submitted; this test does not look at the generation. */
  predicate ShouldSubmitRecv(m: Manager, fd: int) {
    fd in m.states && ShouldSubmit(m.states[fd])
  }

  function Register(m: Manager, fd: int, t: SocketType): Manager {
    m.(states := m.states[fd := NewState(m.generation, t)])
  }

  function Unregister(m: Manager, fd: int): Manager {
    m.(states := m.states - {fd})
  }

  // ---------------------------------------------------------------------------
  // Credit
  // ---------------------------------------------------------------------------

  function Used(s: FdState): nat {
    s.inflight + |s.queue|
  }

  predicate CreditOk(s: FdState) {
    s.budget == DEFAULT_CREDIT_BUDGET && Used(s) <= s.budget
  }

  ghost predicate AllCreditOk(m: Manager) {
    forall fd :: fd in m.states ==> CreditOk(m.states[fd])
  }

  /** Recording a submission keeps the budget exactly when the guard allows it. */
  lemma SubmitKeepsCreditIff(s: FdState)
    requires CreditOk(s)
    ensures CreditOk(OnSubmit(s)) <==> HasCredit(s)
  {
  }

  /** A completion with data keeps the budget exactly when something was outstanding or credit was left. */
  lemma CompletionKeepsCreditIff(s: FdState, buffer: BufferRef)
    requires CreditOk(s)
    ensures CreditOk(OnCompletion(s, buffer)) <==> s.inflight > 0 || HasCredit(s)
    ensures CreditOk(OnCompletionEmpty(s))
    ensures s.inflight > 0 ==> Used(OnCompletion(s, buffer)) == Used(s)
  {
  }

  datatype ManagerStep =
    | RegisterFd(fd: int, t: SocketType)
    | UnregisterFd(fd: int)
    | GuardedSubmit(fd: int)
    | Complete(fd: int, buffer: BufferRef)
    | CompleteEmpty(fd: int)
    | Take(fd: int)
    | Pause(fd: int)
    | Resume(fd: int)
    | Bump
    | InvalidateAll

  function ManagerNext(m: Manager, step: ManagerStep): Manager {
    match step
    case RegisterFd(fd, t) => Register(m, fd, t)
    case UnregisterFd(fd) => Unregister(m, fd)
    case GuardedSubmit(fd) => if ShouldSubmitRecv(m, fd) then Update(m, fd, OnSubmit) else m
    case Complete(fd, buffer) => Update(m, fd, (s: FdState) => OnCompletion(s, buffer))
    case CompleteEmpty(fd) => Update(m, fd, OnCompletionEmpty)
    case Take(fd) => Update(m, fd, TakeBuffer)
    case Pause(fd) => Update(m, fd, (s: FdState) => s.(paused := true))
    case Resume(fd) => Update(m, fd, (s: FdState) => s.(paused := false))
    case Bump => m.(generation := (m.generation + 1) % U64)
    case InvalidateAll => m.(states := map[])
  }

  /** A completion with data answers something the accounting has as outstanding. */
  predicate StepAllowed(m: Manager, step: ManagerStep) {
    step.Complete? ==> var s := Lookup(m, step.fd); s.Failure? || s.value.inflight > 0
  }

  ghost predicate ManagerRun(states: seq<Manager>, steps: seq<ManagerStep>) {
    && |states| == |steps| + 1
    && forall i :: 0 <= i < |steps| ==> StepAllowed(states[i], steps[i]) && states[i + 1] == ManagerNext(states[i], steps[i])
  }

  lemma StepKeepsCredit(m: Manager, step: ManagerStep)
    requires AllCreditOk(m) && StepAllowed(m, step)
    ensures AllCreditOk(ManagerNext(m, step))
  {
    match step
    case RegisterFd(fd, t) =>
    case UnregisterFd(fd) =>
    case GuardedSubmit(fd) => UpdateKeepsCredit(m, fd, OnSubmit);
    case Complete(fd, buffer) => UpdateKeepsCredit(m, fd, (s: FdState) => OnCompletion(s, buffer));
    case CompleteEmpty(fd) => UpdateKeepsCredit(m, fd, OnCompletionEmpty);
    case Take(fd) => UpdateKeepsCredit(m, fd, TakeBuffer);
    case Pause(fd) => UpdateKeepsCredit(m, fd, (s: FdState) => s.(paused := true));
    case Resume(fd) => UpdateKeepsCredit(m, fd, (s: FdState) => s.(paused := false));
    case Bump =>
    case InvalidateAll =>
  }

  lemma UpdateKeepsCredit(m: Manager, fd: int, f: FdState -> FdState)
    requires AllCreditOk(m)
    ensures (Lookup(m, fd).Success? ==> CreditOk(f(Lookup(m, fd).value))) ==> AllCreditOk(Update(m, fd, f))
  {
  }

  /** Over every run no descriptor exceeds its budget, hence the totals stay under 64 per descriptor. */
  lemma {:induction false} CreditInEveryRun(states: seq<Manager>, steps: seq<ManagerStep>)
    requires ManagerRun(states, steps) && states[0].states == map[]
    ensures var last := states[|steps|];
            && AllCreditOk(last)
            && Totals(last.states).inflight + Totals(last.states).queued <= DEFAULT_CREDIT_BUDGET * |last.states|
  {
    var n := |steps|;
    if n > 0 {
      CreditInEveryRun(states[..n], steps[..n - 1]);
      var before := states[n - 1];
      assert StepAllowed(before, steps[n - 1]) && states[n] == ManagerNext(before, steps[n - 1]);
      StepKeepsCredit(before, steps[n - 1]);
    }
    TotalsBounded(states[n].states);
  }

  // ---------------------------------------------------------------------------
  // The queue and the pause flag of one descriptor
  // ---------------------------------------------------------------------------

  /** The step registers the descriptor afresh or forgets it. */
  predicate Forgets(step: ManagerStep, fd: int) {
    match step
    case RegisterFd(f, _) => f == fd
    case UnregisterFd(f) => f == fd
    case InvalidateAll => true
    case _ => false
  }

  /** The buffers that steps `from` to `n` queued for the descriptor, in order. */
  ghost function QueuedBy(states: seq<Manager>, steps: seq<ManagerStep>, from: nat, n: nat, fd: int): seq<BufferRef>
    requires n <= |steps| < |states|
  {
    if n <= from then []
    else
      var m, step := states[n - 1], steps[n - 1];
      QueuedBy(states, steps, from, n - 1, fd)
      + if step.Complete? && step.fd == fd && Lookup(m, fd).Success? then [step.buffer] else []
  }

  /** The buffers that steps `from` to `n` took from the descriptor's queue, in order. */
  ghost function TakenBy(states: seq<Manager>, steps: seq<ManagerStep>, from: nat, n: nat, fd: int): seq<BufferRef>
    requires n <= |steps| < |states|
  {
    if n <= from then []
    else
      var m, step := states[n - 1], steps[n - 1];
      TakenBy(states, steps, from, n - 1, fd)
      + if step.Take? && step.fd == fd && Lookup(m, fd).Success? && m.states[fd].queue != [] then [m.states[fd].queue[0]] else []
  }

  /** Whether the last step that paused or resumed the descriptor paused it. */
  ghost function PausedBy(states: seq<Manager>, steps: seq<ManagerStep>, from: nat, n: nat, fd: int, before: bool): bool
    requires n <= |steps| < |states|
  {
    if n <= from then before
    else
      var m, step := states[n - 1], steps[n - 1];
      if step == Pause(fd) && Lookup(m, fd).Success? then true
      else if step == Resume(fd) && Lookup(m, fd).Success? then false
      else PausedBy(states, steps, from, n - 1, fd, before)
  }

  /** What one step does to a descriptor it does not forget: only the named one's record changes, and only if it is current. */
  lemma StepMeans(m: Manager, step: ManagerStep, fd: int)
    requires fd in m.states && !Forgets(step, fd)
    ensures var m' := ManagerNext(m, step);
            fd in m'.states
            && var s, s', current := m.states[fd], m'.states[fd], Lookup(m, fd).Success?;
            && s'.budget == s.budget && s'.generation == s.generation && s'.socketType == s.socketType
            && s'.paused == (if step == Pause(fd) && current then true else if step == Resume(fd) && current then false else s.paused)
            && s'.queue == (if step.Complete? && step.fd == fd && current then s.queue + [step.buffer]
                            else if step.Take? && step.fd == fd && current && s.queue != [] then s.queue[1..] else s.queue)
  {
  }

  /** First in, first out: of a descriptor that stays registered, the buffers taken, then its queue, are the earlier queue, then the buffers added. */
  lemma {:induction false} BuffersAreFifo(states: seq<Manager>, steps: seq<ManagerStep>, from: nat, n: nat, fd: int)
    requires ManagerRun(states, steps) && from <= n <= |steps| && fd in states[from].states
    requires forall j :: from <= j < n ==> !Forgets(steps[j], fd)
    ensures fd in states[n].states
    ensures TakenBy(states, steps, from, n, fd) + states[n].states[fd].queue
            == states[from].states[fd].queue + QueuedBy(states, steps, from, n, fd)
  {
    if n > from {
      BuffersAreFifo(states, steps, from, n - 1, fd);
      var m := states[n - 1];
      assert states[n - 1 + 1] == ManagerNext(m, steps[n - 1]);
      StepMeans(m, steps[n - 1], fd);
      QueueTurns(TakenBy(states, steps, from, n - 1, fd), m.states[fd].queue, states[from].states[fd].queue,
                 QueuedBy(states, steps, from, n - 1, fd),
                 if steps[n - 1].Complete? then steps[n - 1].buffer else BufferRef(0, 0, 0, 0));
    }
  }

  /** A descriptor that stays registered is paused exactly if the last call that could pause or resume it paused it. */
  lemma {:induction false} LastCallPauses(states: seq<Manager>, steps: seq<ManagerStep>, from: nat, n: nat, fd: int)
    requires ManagerRun(states, steps) && from <= n <= |steps| && fd in states[from].states
    requires forall j :: from <= j < n ==> !Forgets(steps[j], fd)
    ensures fd in states[n].states
    ensures states[n].states[fd].paused == PausedBy(states, steps, from, n, fd, states[from].states[fd].paused)
  {
    if n > from {
      LastCallPauses(states, steps, from, n - 1, fd);
      assert states[n - 1 + 1] == ManagerNext(states[n - 1], steps[n - 1]);
      StepMeans(states[n - 1], steps[n - 1], fd);
    }
  }

  // ---------------------------------------------------------------------------
  // Aggregate statistics
  // ---------------------------------------------------------------------------

  datatype Stats = Stats(fdCount: nat, inflight: nat, queued: nat, paused: nat)

  function AddState(t: Stats, s: FdState): Stats {
    Stats(t.fdCount + 1, t.inflight + s.inflight, t.queued + |s.queue|, t.paused + if s.paused then 1 else 0)
  }

  function Plus(a: Stats, b: Stats): Stats {
    Stats(a.fdCount + b.fdCount, a.inflight + b.inflight, a.queued + b.queued, a.paused + b.paused)
  }

  lemma PlusAdd(a: Stats, b: Stats, s: FdState)
    ensures Plus(a, AddState(b, s)) == Plus(AddState(a, s), b)
  {
  }

  lemma PlusNothing(a: Stats)
    ensures Plus(a, Stats(0, 0, 0, 0)) == a && Plus(Stats(0, 0, 0, 0), a) == a
  {
  }

  ghost function Totals(states: map<int, FdState>): Stats
    decreases states.Keys
  {
    if states.Keys == {} then Stats(0, 0, 0, 0)
    else var fd := AnyKey(states); AddState(Totals(states - {fd}), states[fd])
  }

  /** The sum of a quantity over all descriptors. */
  ghost function Sum(states: map<int, FdState>, f: FdState -> nat): nat
    decreases states.Keys
  {
    if states.Keys == {} then 0 else var fd := AnyKey(states); Sum(states - {fd}, f) + f(states[fd])
  }

  /** The totals, one by one: descriptors, submissions outstanding, buffers queued, descriptors paused. */
  lemma {:induction false} TotalsAre(states: map<int, FdState>)
    ensures var t := Totals(states);
            && t.fdCount == |states|
            && t.inflight == Sum(states, (s: FdState) => s.inflight)
            && t.queued == Sum(states, (s: FdState) => |s.queue|)
            && t.paused == |set fd | fd in states && states[fd].paused|
    decreases states.Keys
  {
    if states.Keys == {} {
      assert states == map[];
    } else {
      var fd := AnyKey(states);
      var rest := states - {fd};
      TotalsAre(rest);
      assert states.Keys == rest.Keys + {fd};
      var before, after := set g | g in rest && rest[g].paused, set g | g in states && states[g].paused;
      assert after == if states[fd].paused then before + {fd} else before;
    }
  }

  /** The totals do not depend on the order in which descriptors are visited. */
  lemma {:induction false} TotalsSplit(states: map<int, FdState>, fd: int)
    requires fd in states
    ensures Totals(states) == AddState(Totals(states - {fd}), states[fd])
    decreases states.Keys
  {
    var c := AnyKey(states);
    if c != fd {
      TotalsSplit(states - {c}, fd);
      TotalsSplit(states - {fd}, c);
      assert states - {c} - {fd} == states - {fd} - {c};
    }
  }

  lemma {:induction false} TotalsBounded(states: map<int, FdState>)
    requires forall fd :: fd in states ==> CreditOk(states[fd])
    ensures Totals(states).inflight + Totals(states).queued <= DEFAULT_CREDIT_BUDGET * |states|
    ensures Totals(states).fdCount == |states|
    decreases states.Keys
  {
    if states.Keys != {} {
      var fd := AnyKey(states);
      TotalsBounded(states - {fd});
      assert states.Keys == (states - {fd}).Keys + {fd};
    }
  }

  class FdStateManager {
    var states: map<int, FdState>
    var generation: nat

    ghost function View(): Manager
      reads this
    {
      Manager(states, generation)
    }

    constructor ()
      ensures View() == Manager(map[], 1)
    {
      states, generation := map[], 1;
    }

    method RegisterState(fd: int, t: SocketType)
      modifies this
      ensures View() == Register(old(View()), fd, t)
      ensures states == old(states)[fd := FdState(0, [], 64, generation, false, t)] && generation == old(generation)
    {
      states := states[fd := NewState(generation, t)];
    }

    /** Forgets the descriptor and hands back its queued buffers. */
    method UnregisterState(fd: int) returns (buffers: Option<seq<BufferRef>>)
      modifies this
      ensures View() == Unregister(old(View()), fd)
      ensures states == old(states) - {fd} && generation == old(generation)
      ensures buffers == if fd in old(states) then Some(old(states)[fd].queue) else None
    {
      if fd !in states {
        assert states - {fd} == states;
        return None;
      }
      buffers := Some(states[fd].queue);
      states := states - {fd};
    }

    method WithStateMut(fd: int, f: FdState -> FdState) returns (r: Result<FdState, FdError>)
      modifies this
      ensures View() == Update(old(View()), fd, f)
      ensures r.Success? ==> Lookup(old(View()), fd).Success? && r.value == f(old(states)[fd])
      ensures r.Failure? <==> fd !in old(states) || old(states)[fd].generation != generation
      ensures r.Failure? ==> r.error == if fd !in old(states) then NotRegistered(fd)
                                        else InvalidGeneration(generation, old(states)[fd].generation)
    {
      if fd !in states {
        return Failure(NotRegistered(fd));
      }
      var s := states[fd];
      if s.generation != generation {
        return Failure(InvalidGeneration(generation, s.generation));
      }
      states := states[fd := f(s)];
      return Success(f(s));
    }

    method IncrementGeneration() returns (g: nat)
      modifies this
      ensures View() == ManagerNext(old(View()), Bump) && g == generation
      ensures states == old(states) && generation == (old(generation) + 1) % U64
    {
      generation := (generation + 1) % U64;
      g := generation;
    }

    /** Forgets every descriptor and hands back their states. */
    method Invalidate() returns (dropped: map<int, FdState>)
      modifies this
      ensures View() == ManagerNext(old(View()), InvalidateAll) && dropped == old(states)
      ensures states == map[] && generation == old(generation)
    {
      dropped := states;
      states := map[];
    }

    method ComputeStats() returns (t: Stats)
      ensures t == Totals(states)
    {
      t := Stats(0, 0, 0, 0);
      PlusNothing(Totals(states));
      var rest := states;
      while |rest| > 0
        invariant Plus(t, Totals(rest)) == Totals(states)
        decreases |rest|
      {
        var fd :| fd in rest;
        TotalsSplit(rest, fd);
        PlusAdd(t, Totals(rest - {fd}), rest[fd]);
        t := AddState(t, rest[fd]);
        rest := rest - {fd};
      }
      assert rest.Keys == {};
      PlusNothing(t);
    }
  }
}
