/**
 Receive credit over whole runs. A receive spends one unit of its descriptor's credit,
 and nothing a client call or a tick does gives it back: after 64 receives a descriptor
 accepts no more, and every further receive reports success and does nothing.
 */
module Backpressure {
  import opened UserData
  import opened Core
  import opened Delivery
  import opened FdStates

  /** A move that registers the descriptor afresh or forgets it. */
  predicate Resets(m: Move, fd: int) {
    m.ClientCalls? && m.step.fd == fd && (m.step.DoRegister? || m.step.DoUnregister?)
  }

  /** A receive that gets past the guard, the pool and the registry, whether or not the queue then takes it. */
  predicate Spends(s: System, m: Move, fd: int) {
    m.ClientCalls? && m.step.DoReceive? && m.step.fd == fd && Stores(s.engine, m.step)
  }

  /** How many of the moves from `from` up to `n` spend credit of the descriptor. */
  function Spent(states: seq<System>, moves: seq<Move>, from: nat, n: nat, fd: int): nat
    requires n <= |moves| < |states|
  {
    if n <= from then 0
    else Spent(states, moves, from, n - 1, fd) + if Spends(states[n - 1], moves[n - 1], fd) then 1 else 0
  }

  /** The descriptor is registered, with `c` units of its default credit spent and nothing queued. */
  predicate Tracks(m: Manager, fd: int, c: nat) {
    && Lookup(m, fd).Success?
    && var s := m.states[fd]; s.inflight == c <= DEFAULT_CREDIT_BUDGET == s.budget && s.queue == []
  }

  lemma {:induction false} ProcessKeepsFds(t: TickState, cs: seq<Cqe>, foreign: Foreign)
    ensures Process(t, cs, foreign).engine.fds == t.engine.fds
  {
    if cs != [] {
      var n := |cs| - 1;
      ProcessKeepsFds(t, cs[..n], foreign);
      var before := Process(t, cs[..n], foreign);
      ExtractKeeps(before.engine, cs[n]);
      ProcessOneEngine(before, cs[n], foreign);
    }
  }

  /** What a call does to the registry. */
  lemma PerformFds(e: Engine, step: Step)
    ensures Perform(e, step).engine.fds ==
              match step
              case DoRegister(fd, t) => Register(e.fds, fd, t)
              case DoUnregister(fd) => Unregister(e.fds, fd)
              case DoPause(fd, paused) => Update(e.fds, fd, (s: FdState) => s.(paused := paused))
              case DoReceive(_, fd, _, _, _, _) => if Stores(e, step) then Update(e.fds, fd, OnSubmit) else e.fds
              case _ => e.fds
  {
    if step.DoReceive? {
      Buffers.AcquiresIff(e.pool, step.now);
    }
  }

  lemma CallTracks(e: Engine, step: Step, fd: int, c: nat)
    requires Tracks(e.fds, fd, c) && !Resets(ClientCalls(step), fd)
    ensures Tracks(Perform(e, step).engine.fds, fd, c + if step.DoReceive? && step.fd == fd && Stores(e, step) then 1 else 0)
  {
    PerformFds(e, step);
  }

  lemma MoveTracks(s: System, m: Move, fd: int, c: nat)
    requires Tracks(s.engine.fds, fd, c) && !Resets(m, fd)
    ensures Tracks(Next(s, m).engine.fds, fd, c + if Spends(s, m, fd) then 1 else 0)
  {
    match m
    case ClientCalls(step) => CallTracks(s.engine, step, fd, c);
    case KernelCompletes(_, _, _, _, _) =>
    case RunTick(foreign) => ProcessKeepsFds(Started(s), CqesOf(s.done), foreign);
  }

  /** Move `i` registered the descriptor, and none of the moves up to `n` did so again or forgot it. */
  ghost predicate RegisteredSince(moves: seq<Move>, i: nat, n: nat, fd: int)
    requires i < n <= |moves|
  {
    && moves[i].ClientCalls? && moves[i].step.DoRegister? && moves[i].step.fd == fd
    && forall j :: i < j < n ==> !Resets(moves[j], fd)
  }

  lemma RegisterTracks(s: System, m: Move, fd: int)
    requires m.ClientCalls? && m.step.DoRegister? && m.step.fd == fd
    ensures Tracks(Next(s, m).engine.fds, fd, 0)
  {
  }

  /** Credit is only ever spent: since its registration a descriptor has spent one unit for each receive, at most 64. */
  lemma {:induction false} CreditIsSpent(states: seq<System>, moves: seq<Move>, i: nat, n: nat, fd: int)
    requires SystemRun(states, moves) && i < n <= |moves| && RegisteredSince(moves, i, n, fd)
    ensures Tracks(states[n].engine.fds, fd, Spent(states, moves, i + 1, n, fd))
  {
    if n == i + 1 {
      RegisterLinked(states, moves, i, fd);
    } else {
      CreditIsSpent(states, moves, i, n - 1, fd);
      assert !Resets(moves[n - 1], fd);
      CreditLinked(states, moves, n - 1, fd, Spent(states, moves, i + 1, n - 1, fd));
    }
  }

  lemma RegisterLinked(states: seq<System>, moves: seq<Move>, i: nat, fd: int)
    requires SystemRun(states, moves) && i < |moves|
    requires moves[i].ClientCalls? && moves[i].step.DoRegister? && moves[i].step.fd == fd
    ensures Tracks(states[i + 1].engine.fds, fd, 0)
  {
    StepOfRun(states, moves, i);
    RegisterTracks(states[i], moves[i], fd);
  }

  lemma CreditLinked(states: seq<System>, moves: seq<Move>, i: nat, fd: int, c: nat)
    requires SystemRun(states, moves) && i < |moves| && Tracks(states[i].engine.fds, fd, c) && !Resets(moves[i], fd)
    ensures Tracks(states[i + 1].engine.fds, fd, c + if Spends(states[i], moves[i], fd) then 1 else 0)
  {
    StepOfRun(states, moves, i);
    MoveTracks(states[i], moves[i], fd, c);
  }

  /** The call reports success, but no entry is placed: its future will never be resolved. */
  predicate Dropped(e: Engine, step: Step) {
    Perform(e, step).error.None? && Perform(e, step).op.None?
  }

  lemma DroppedAt(s: System, step: Step, c: nat)
    requires step.DoReceive? && Tracks(s.engine.fds, step.fd, c)
    ensures Dropped(s.engine, step) <==> s.engine.fds.states[step.fd].paused || c == DEFAULT_CREDIT_BUDGET
    ensures Dropped(s.engine, step) ==> Next(s, ClientCalls(step)) == s
  {
    GuardAt(s.engine.fds, step.fd, c);
    DroppedIff(s.engine, step);
  }

  lemma GuardAt(m: Manager, fd: int, c: nat)
    requires Tracks(m, fd, c)
    ensures ShouldSubmitRecv(m, fd) <==> !m.states[fd].paused && c != DEFAULT_CREDIT_BUDGET
  {
  }

  /**
   In every run a receive is silently dropped exactly when its descriptor is paused or
   has had 64 receives since its registration; then the call changes nothing at all.
   */
  lemma ReceiveDroppedIff(states: seq<System>, moves: seq<Move>, i: nat, n: nat, step: Step)
    requires SystemRun(states, moves) && i < n <= |moves| && step.DoReceive? && RegisteredSince(moves, i, n, step.fd)
    ensures var s := states[n];
            && step.fd in s.engine.fds.states
            && (Dropped(s.engine, step)
                <==> s.engine.fds.states[step.fd].paused || Spent(states, moves, i + 1, n, step.fd) == DEFAULT_CREDIT_BUDGET)
            && (Dropped(s.engine, step) ==> Next(s, ClientCalls(step)) == s)
  {
    CreditIsSpent(states, moves, i, n, step.fd);
    DroppedAt(states[n], step, Spent(states, moves, i + 1, n, step.fd));
  }

  /** Once the credit is gone no receive on the descriptor is ever accepted again before it is registered anew. */
  lemma {:induction false} CreditStaysGone(states: seq<System>, moves: seq<Move>, i: nat, n: nat, m: nat, fd: int)
    requires SystemRun(states, moves) && i < n <= m <= |moves| && RegisteredSince(moves, i, m, fd)
    requires Spent(states, moves, i + 1, n, fd) == DEFAULT_CREDIT_BUDGET
    ensures Spent(states, moves, i + 1, m, fd) == DEFAULT_CREDIT_BUDGET
  {
    if n < m {
      CreditStaysGone(states, moves, i, n, m - 1, fd);
      CreditIsSpent(states, moves, i, m, fd);
    }
  }
}
