/** Reader and writer callbacks, and the epoll interest set kept in step with them. */
module Interest {
  import opened Indices

  /** EPOLLIN and EPOLLOUT. */
  const EPOLL_IN: nat := 1
  const EPOLL_OUT: nat := 4

  type Callback = nat

  datatype LoopError = LoopIsClosed | NotWatched

  /**
   The loop's maps, their copies in the native core, and the kernel's interest set.
   `surprises` counts epoll calls that raised "already exists" or "not found".
   */
  datatype Loop = Loop(
    eventFd: int,
    closed: bool,
    readers: map<int, Callback>,
    writers: map<int, Callback>,
    coreReaders: map<int, Callback>,
    coreWriters: map<int, Callback>,
    epoll: map<int, nat>,
    surprises: nat)

  function Surprise(l: Loop): Loop {
    l.(surprises := l.surprises + 1)
  }

  /** `epoll.register` falling back to `modify` when the descriptor is already there. */
  function RegisterOrModify(l: Loop, fd: int, mask: nat): Loop {
    if fd in l.epoll then Surprise(l).(epoll := l.epoll[fd := mask]) else l.(epoll := l.epoll[fd := mask])
  }

  /** `epoll.modify`; its failure is swallowed. */
  function Modify(l: Loop, fd: int, mask: nat): Loop {
    if fd in l.epoll then l.(epoll := l.epoll[fd := mask]) else Surprise(l)
  }

  /** `epoll.unregister`; its failure is swallowed. */
  function Unregister(l: Loop, fd: int): Loop {
    if fd in l.epoll then l.(epoll := l.epoll - {fd}) else Surprise(l)
  }

  function RemoveReader(l: Loop, fd: int): (l': Loop)
    ensures l'.writers == l.writers && l'.eventFd == l.eventFd
  {
    if fd !in l.readers then l
    else
      var l1 := l.(readers := l.readers - {fd}, coreReaders := l.coreReaders - {fd});
      if fd in l1.writers then Modify(l1, fd, EPOLL_OUT) else Unregister(l1, fd)
  }

  function RemoveWriter(l: Loop, fd: int): (l': Loop)
    ensures l'.readers == l.readers && l'.eventFd == l.eventFd
  {
    if fd !in l.writers then l
    else
      var l1 := l.(writers := l.writers - {fd}, coreWriters := l.coreWriters - {fd});
      if fd in l1.readers then Modify(l1, fd, EPOLL_IN) else Unregister(l1, fd)
  }

  /**
   A closed loop raises and changes nothing; a failed `modify` raises before the
   callback is stored.
   */
  function AddReader(l: Loop, fd: int, cb: Callback): (l': Loop)
    ensures l'.writers == l.writers && l'.eventFd == l.eventFd
  {
    if l.closed then l
    else
      var l1 := RemoveReader(l, fd);
      if fd in l1.writers && fd !in l1.epoll then Surprise(l1)
      else
        var l2 := if fd in l1.writers then Modify(l1, fd, EPOLL_IN + EPOLL_OUT) else RegisterOrModify(l1, fd, EPOLL_IN);
        l2.(readers := l2.readers[fd := cb], coreReaders := l2.coreReaders[fd := cb])
  }

  /** What `add_reader` raises. */
  function AddReaderError(l: Loop, fd: int): Option<LoopError> {
    if l.closed then Some(LoopIsClosed)
    else if fd in RemoveReader(l, fd).writers && fd !in RemoveReader(l, fd).epoll then Some(NotWatched)
    else None
  }

  /** What `add_writer` raises. */
  function AddWriterError(l: Loop, fd: int): Option<LoopError> {
    if l.closed then Some(LoopIsClosed)
    else if fd in RemoveWriter(l, fd).readers && fd !in RemoveWriter(l, fd).epoll then Some(NotWatched)
    else None
  }

  function AddWriter(l: Loop, fd: int, cb: Callback): (l': Loop)
    ensures l'.readers == l.readers && l'.eventFd == l.eventFd
  {
    if l.closed then l
    else
      var l1 := RemoveWriter(l, fd);
      if fd in l1.readers && fd !in l1.epoll then Surprise(l1)
      else
        var l2 := if fd in l1.readers then Modify(l1, fd, EPOLL_IN + EPOLL_OUT) else RegisterOrModify(l1, fd, EPOLL_OUT);
        l2.(writers := l2.writers[fd := cb], coreWriters := l2.coreWriters[fd := cb])
  }

  /** The interest set computed afresh from the two maps and the wake-up descriptor. */
  function Wanted(eventFd: int, readers: map<int, Callback>, writers: map<int, Callback>): map<int, nat> {
    map fd | fd in readers.Keys + writers.Keys + {eventFd} ::
      (if fd in readers || fd == eventFd then EPOLL_IN else 0) + if fd in writers then EPOLL_OUT else 0
  }

  ghost predicate InStep(l: Loop) {
    && l.epoll == Wanted(l.eventFd, l.readers, l.writers)
    && l.coreReaders == l.readers && l.coreWriters == l.writers
  }

  /** The kernel reports input on the wake-up descriptor. */
  predicate Heard(l: Loop) {
    l.eventFd in l.epoll && (l.epoll[l.eventFd] == EPOLL_IN || l.epoll[l.eventFd] == EPOLL_IN + EPOLL_OUT)
  }

  /** In epoll exactly with a reader, a writer or for wake-ups, and with exactly their mask; so wake-ups are heard. */
  lemma InStepMeaning(l: Loop, fd: int)
    requires InStep(l)
    ensures fd in l.epoll <==> fd in l.readers || fd in l.writers || fd == l.eventFd
    ensures fd in l.epoll ==>
              l.epoll[fd] == (if fd in l.readers || fd == l.eventFd then EPOLL_IN else 0) + if fd in l.writers then EPOLL_OUT else 0
    ensures Heard(l)
  {
    assert l.eventFd in l.epoll;
  }

  datatype LoopStep =
    | StartReading(fd: int, cb: Callback)
    | StopReading(fd: int)
    | StartWriting(fd: int, cb: Callback)
    | StopWriting(fd: int)

  function LoopNext(l: Loop, step: LoopStep): Loop {
    match step
    case StartReading(fd, cb) => AddReader(l, fd, cb)
    case StopReading(fd) => RemoveReader(l, fd)
    case StartWriting(fd, cb) => AddWriter(l, fd, cb)
    case StopWriting(fd) => RemoveWriter(l, fd)
  }

  /**
   Whether a call leaves the loop able to wake up, said before making it. On the wake-up
   descriptor: a reader must not be taken away, and a writer only be touched beside a reader.
   */
  predicate Harmless(l: Loop, step: LoopStep) {
    step.fd != l.eventFd
    || match step
       case StartReading(fd, _) => true
       case StopReading(fd) => fd !in l.readers
       case StartWriting(fd, _) => l.closed || fd in l.readers
       case StopWriting(fd) => fd !in l.writers || fd in l.readers
  }

  lemma WantedWithoutReader(l: Loop, fd: int)
    requires fd != l.eventFd && fd in l.readers
    ensures var w := Wanted(l.eventFd, l.readers, l.writers);
            Wanted(l.eventFd, l.readers - {fd}, l.writers) == if fd in l.writers then w[fd := EPOLL_OUT] else w - {fd}
  {
  }

  lemma WantedWithoutWriter(l: Loop, fd: int)
    requires fd != l.eventFd && fd in l.writers
    ensures var w := Wanted(l.eventFd, l.readers, l.writers);
            Wanted(l.eventFd, l.readers, l.writers - {fd}) == if fd in l.readers then w[fd := EPOLL_IN] else w - {fd}
  {
  }

  /** A reader on the wake-up descriptor changes nothing that is wanted, a writer its mask. */
  lemma WantedWakeUpReader(e: int, readers: map<int, Callback>, writers: map<int, Callback>, cb: Callback)
    ensures Wanted(e, readers[e := cb], writers) == Wanted(e, readers, writers)
  {
  }

  lemma WantedWakeUpWriter(e: int, readers: map<int, Callback>, writers: map<int, Callback>, cb: Callback)
    ensures Wanted(e, readers, writers[e := cb]) == Wanted(e, readers, writers)[e := EPOLL_IN + EPOLL_OUT]
  {
  }

  lemma WantedNoWakeUpWriter(e: int, readers: map<int, Callback>, writers: map<int, Callback>)
    ensures Wanted(e, readers, writers - {e}) == Wanted(e, readers, writers)[e := EPOLL_IN]
  {
  }

  lemma PutBack(m: map<int, Callback>, k: int, cb: Callback)
    ensures (m - {k})[k := cb] == m[k := cb]
  {
  }

  lemma RemoveReaderKeeps(l: Loop, fd: int)
    requires InStep(l) && fd != l.eventFd
    ensures InStep(RemoveReader(l, fd))
    ensures RemoveReader(l, fd).readers == l.readers - {fd} && RemoveReader(l, fd).writers == l.writers
  {
    var l' := RemoveReader(l, fd);
    if fd in l.readers {
      WantedWithoutReader(l, fd);
    } else {
      assert l.readers - {fd} == l.readers;
    }
  }

  lemma RemoveWriterKeeps(l: Loop, fd: int)
    requires InStep(l) && fd != l.eventFd
    ensures InStep(RemoveWriter(l, fd))
    ensures RemoveWriter(l, fd).writers == l.writers - {fd} && RemoveWriter(l, fd).readers == l.readers
  {
    var l' := RemoveWriter(l, fd);
    if fd in l.writers {
      WantedWithoutWriter(l, fd);
    } else {
      assert l.writers - {fd} == l.writers;
    }
  }

  lemma WantedReader(l: Loop, fd: int, cb: Callback)
    requires fd != l.eventFd
    ensures Wanted(l.eventFd, l.readers[fd := cb], l.writers)
            == Wanted(l.eventFd, l.readers, l.writers)[fd := EPOLL_IN + if fd in l.writers then EPOLL_OUT else 0]
  {
  }

  lemma WantedWriter(l: Loop, fd: int, cb: Callback)
    requires fd != l.eventFd
    ensures Wanted(l.eventFd, l.readers, l.writers[fd := cb])
            == Wanted(l.eventFd, l.readers, l.writers)[fd := EPOLL_OUT + if fd in l.readers then EPOLL_IN else 0]
  {
  }

  lemma AddReaderKeeps(l: Loop, fd: int, cb: Callback)
    requires InStep(l) && fd != l.eventFd && !l.closed
    ensures InStep(AddReader(l, fd, cb)) && AddReaderError(l, fd).None?
    ensures AddReader(l, fd, cb).readers == l.readers[fd := cb] && AddReader(l, fd, cb).writers == l.writers
  {
    RemoveReaderKeeps(l, fd);
    var l1 := RemoveReader(l, fd);
    assert (l.readers - {fd})[fd := cb] == l.readers[fd := cb];
    WantedReader(l1, fd, cb);
  }

  lemma AddWriterKeeps(l: Loop, fd: int, cb: Callback)
    requires InStep(l) && fd != l.eventFd && !l.closed
    ensures InStep(AddWriter(l, fd, cb)) && AddWriterError(l, fd).None?
    ensures AddWriter(l, fd, cb).writers == l.writers[fd := cb] && AddWriter(l, fd, cb).readers == l.readers
  {
    RemoveWriterKeeps(l, fd);
    var l1 := RemoveWriter(l, fd);
    assert (l.writers - {fd})[fd := cb] == l.writers[fd := cb];
    WantedWriter(l1, fd, cb);
  }

  /** On the wake-up descriptor a reader changes the maps only. */
  lemma AddWakeUpReader(l: Loop, cb: Callback)
    requires InStep(l) && !l.closed
    ensures InStep(AddReader(l, l.eventFd, cb))
  {
    PutBack(l.readers, l.eventFd, cb);
    WantedWakeUpReader(l.eventFd, l.readers, l.writers, cb);
  }

  lemma RemoveWakeUpReader(l: Loop)
    requires InStep(l)
    ensures var l' := RemoveReader(l, l.eventFd);
            if l.eventFd !in l.readers then l' == l
            else if l.eventFd in l.writers then l'.epoll == l.epoll[l.eventFd := EPOLL_OUT]
            else l'.epoll == l.epoll - {l.eventFd}
  {
  }

  /** A writer on the wake-up descriptor, without a reader there, makes the loop deaf to wake-ups at once. */
  lemma AddWriterDeafens(l: Loop, cb: Callback)
    requires InStep(l) && !l.closed
    ensures var l' := AddWriter(l, l.eventFd, cb);
            if l.eventFd in l.readers then InStep(l') else l'.epoll == l.epoll[l.eventFd := EPOLL_OUT]
  {
    PutBack(l.writers, l.eventFd, cb);
    WantedWakeUpWriter(l.eventFd, l.readers, l.writers, cb);
  }

  lemma RemoveWakeUpWriter(l: Loop)
    requires InStep(l)
    ensures var l' := RemoveWriter(l, l.eventFd);
            if l.eventFd !in l.writers then l' == l
            else if l.eventFd in l.readers then InStep(l')
            else l'.epoll == l.epoll - {l.eventFd}
  {
    WantedNoWakeUpWriter(l.eventFd, l.readers, l.writers);
  }

  /** A call keeps everything in step, and wake-ups heard, exactly when it is harmless. */
  lemma StepIff(l: Loop, step: LoopStep)
    requires InStep(l)
    ensures InStep(LoopNext(l, step)) <==> Harmless(l, step)
    ensures Heard(LoopNext(l, step)) <==> Harmless(l, step)
  {
    var l' := LoopNext(l, step);
    if step.fd == l.eventFd {
      WakeUpStep(l, step);
    } else if !l.closed || step.StopReading? || step.StopWriting? {
      LoopStepKeeps(l, step);
    }
    if InStep(l') {
      InStepMeaning(l', l.eventFd);
    }
  }

  lemma WakeUpStep(l: Loop, step: LoopStep)
    requires InStep(l) && step.fd == l.eventFd
    ensures if Harmless(l, step) then InStep(LoopNext(l, step)) else !Heard(LoopNext(l, step))
    ensures LoopNext(l, step).eventFd == l.eventFd
  {
    match step
    case StartReading(_, cb) => if !l.closed { AddWakeUpReader(l, cb); }
    case StopReading(_) => RemoveWakeUpReader(l);
    case StartWriting(_, cb) => if !l.closed { AddWriterDeafens(l, cb); }
    case StopWriting(_) => RemoveWakeUpWriter(l);
  }

  /** An epoll call is surprised exactly when the wake-up descriptor gets its first callback. */
  lemma SurprisedIff(l: Loop, step: LoopStep)
    requires InStep(l)
    ensures LoopNext(l, step).surprises == l.surprises
            <==> step.fd != l.eventFd || l.closed || step.StopReading? || step.StopWriting? || step.fd in l.readers || step.fd in l.writers
  {
    InStepMeaning(l, step.fd);
  }

  /** Adding a reader on the wake-up descriptor and taking it away again ends wake-ups. */
  lemma WakeUpLost(l: Loop, cb: Callback)
    requires InStep(l) && !l.closed
    ensures var l' := RemoveReader(AddReader(l, l.eventFd, cb), l.eventFd);
            !Heard(l') && (l.eventFd !in l.writers ==> l.eventFd !in l'.epoll)
  {
    AddWakeUpReader(l, cb);
    RemoveWakeUpReader(AddReader(l, l.eventFd, cb));
  }

  function NewLoop(eventFd: int): Loop {
    Loop(eventFd, false, map[], map[], map[], map[], map[eventFd := EPOLL_IN], 0)
  }

  ghost predicate LoopRun(eventFd: int, states: seq<Loop>, steps: seq<LoopStep>) {
    && |states| == |steps| + 1 && states[0] == NewLoop(eventFd)
    && forall i :: 0 <= i < |steps| ==> states[i + 1] == LoopNext(states[i], steps[i])
  }

  /**
   Over every run: the interest set is always the one computed afresh from the maps, and
   the native copies agree, exactly when every call is harmless; the same condition decides
   whether wake-ups are heard throughout.
   */
  lemma InStepInEveryRun(eventFd: int, states: seq<Loop>, steps: seq<LoopStep>)
    requires LoopRun(eventFd, states, steps)
    ensures (forall i :: 0 <= i < |states| ==> InStep(states[i])) <==> (forall i :: 0 <= i < |steps| ==> Harmless(states[i], steps[i]))
    ensures (forall i :: 0 <= i < |states| ==> Heard(states[i])) <==> (forall i :: 0 <= i < |steps| ==> Harmless(states[i], steps[i]))
  {
    InStepSoFar(eventFd, states, steps, |steps|);
  }

  lemma {:induction false} InStepSoFar(eventFd: int, states: seq<Loop>, steps: seq<LoopStep>, n: nat)
    requires LoopRun(eventFd, states, steps) && n <= |steps|
    ensures (forall i :: 0 <= i <= n ==> InStep(states[i])) <==> (forall i :: 0 <= i < n ==> Harmless(states[i], steps[i]))
    ensures (forall i :: 0 <= i <= n ==> Heard(states[i])) <==> (forall i :: 0 <= i < n ==> Harmless(states[i], steps[i]))
  {
    if n == 0 {
      assert states[0].epoll == Wanted(eventFd, map[], map[]);
    } else {
      InStepSoFar(eventFd, states, steps, n - 1);
      assert states[n - 1 + 1] == LoopNext(states[n - 1], steps[n - 1]);
      if InStep(states[n - 1]) {
        StepIff(states[n - 1], steps[n - 1]);
      }
    }
  }

  /** On other descriptors every run stays in step and no epoll call is surprised. */
  lemma {:induction false} OthersInStep(eventFd: int, states: seq<Loop>, steps: seq<LoopStep>)
    requires LoopRun(eventFd, states, steps) && forall i :: 0 <= i < |steps| ==> steps[i].fd != eventFd
    ensures var l := states[|steps|]; InStep(l) && l.surprises == 0 && l.eventFd == eventFd && !l.closed
  {
    var n := |steps|;
    if n == 0 {
      assert states[0].epoll == Wanted(eventFd, map[], map[]);
    } else {
      OthersInStep(eventFd, states[..n], steps[..n - 1]);
      assert states[n] == LoopNext(states[n - 1], steps[n - 1]);
      LoopStepKeeps(states[n - 1], steps[n - 1]);
      SurprisedIff(states[n - 1], steps[n - 1]);
    }
  }

  lemma LoopStepKeeps(l: Loop, step: LoopStep)
    requires InStep(l) && (l.closed ==> step.StopReading? || step.StopWriting?) && step.fd != l.eventFd
    ensures var l' := LoopNext(l, step); InStep(l') && l'.closed == l.closed && l'.eventFd == l.eventFd
  {
    match step
    case StartReading(fd, cb) => AddReaderKeeps(l, fd, cb);
    case StopReading(fd) => RemoveReaderKeeps(l, fd);
    case StartWriting(fd, cb) => AddWriterKeeps(l, fd, cb);
    case StopWriting(fd) => RemoveWriterKeeps(l, fd);
  }

  class EventLoop {
    const eventFd: int
    var closed: bool
    var readers: map<int, Callback>
    var writers: map<int, Callback>
    var coreReaders: map<int, Callback>
    var coreWriters: map<int, Callback>
    var epoll: map<int, nat>
    ghost var surprises: nat

    ghost function View(): Loop
      reads this
    {
      Loop(eventFd, closed, readers, writers, coreReaders, coreWriters, epoll, surprises)
    }

    constructor (eventFd: int)
      ensures View() == NewLoop(eventFd)
    {
      this.eventFd := eventFd;
      closed, surprises := false, 0;
      readers, writers, coreReaders, coreWriters := map[], map[], map[], map[];
      epoll := map[eventFd := EPOLL_IN];
    }

    method EpollModify(fd: int, mask: nat) returns (found: bool)
      modifies this`epoll, this`surprises
      ensures View() == Modify(old(View()), fd, mask) && (found <==> fd in old(epoll))
    {
      found := fd in epoll;
      if found {
        epoll := epoll[fd := mask];
      } else {
        surprises := surprises + 1;
      }
    }

    method EpollUnregister(fd: int) returns (found: bool)
      modifies this`epoll, this`surprises
      ensures View() == Unregister(old(View()), fd) && (found <==> fd in old(epoll))
    {
      found := fd in epoll;
      if found {
        epoll := epoll - {fd};
      } else {
        surprises := surprises + 1;
      }
    }

    method EpollRegister(fd: int, mask: nat) returns (added: bool)
      modifies this`epoll, this`surprises
      ensures added <==> fd !in old(epoll)
      ensures added ==> View() == old(View()).(epoll := old(epoll)[fd := mask])
      ensures !added ==> View() == Surprise(old(View()))
    {
      added := fd !in epoll;
      if added {
        epoll := epoll[fd := mask];
      } else {
        surprises := surprises + 1;
      }
    }

    method RemoveReaderNoCheck(fd: int) returns (removed: bool)
      modifies this
      ensures View() == RemoveReader(old(View()), fd) && (removed <==> fd in old(readers))
      ensures readers == old(readers) - {fd} && writers == old(writers) && closed == old(closed)
      ensures removed ==> coreReaders == old(coreReaders) - {fd}
      ensures epoll == if fd !in old(readers) then old(epoll)
                       else if fd !in writers then old(epoll) - {fd}
                       else if fd in old(epoll) then old(epoll)[fd := EPOLL_OUT] else old(epoll)
    {
      if fd !in readers {
        return false;
      }
      readers := readers - {fd};
      coreReaders := coreReaders - {fd};
      if fd in writers {
        var _ := EpollModify(fd, EPOLL_OUT);
      } else {
        var _ := EpollUnregister(fd);
      }
      return true;
    }

    method RemoveWriterNoCheck(fd: int) returns (removed: bool)
      modifies this
      ensures View() == RemoveWriter(old(View()), fd) && (removed <==> fd in old(writers))
      ensures writers == old(writers) - {fd} && readers == old(readers) && closed == old(closed)
      ensures removed ==> coreWriters == old(coreWriters) - {fd}
      ensures epoll == if fd !in old(writers) then old(epoll)
                       else if fd !in readers then old(epoll) - {fd}
                       else if fd in old(epoll) then old(epoll)[fd := EPOLL_IN] else old(epoll)
    {
      if fd !in writers {
        return false;
      }
      writers := writers - {fd};
      coreWriters := coreWriters - {fd};
      if fd in readers {
        var _ := EpollModify(fd, EPOLL_IN);
      } else {
        var _ := EpollUnregister(fd);
      }
      return true;
    }

    method AddReaderCallback(fd: int, cb: Callback) returns (error: Option<LoopError>)
      modifies this
      ensures View() == AddReader(old(View()), fd, cb)
      ensures error == (if closed then Some(LoopIsClosed) else if fd in writers && fd !in old(epoll) then Some(NotWatched) else None)
      ensures error.None? ==> readers == old(readers)[fd := cb] && fd in coreReaders && coreReaders[fd] == cb
      ensures error.None? ==> epoll == old(epoll)[fd := EPOLL_IN + if fd in writers then EPOLL_OUT else 0]
      ensures writers == old(writers) && closed == old(closed)
      ensures error == AddReaderError(old(View()), fd)
    {
      if closed {
        return Some(LoopIsClosed);
      }
      var _ := RemoveReaderNoCheck(fd);
      var mask := EPOLL_IN;
      if fd in writers {
        mask := mask + EPOLL_OUT;
        var found := EpollModify(fd, mask);
        if !found {
          return Some(NotWatched);
        }
      } else {
        var added := EpollRegister(fd, mask);
        if !added {
          var _ := EpollModify(fd, mask);
        }
      }
      readers := readers[fd := cb];
      coreReaders := coreReaders[fd := cb];
      return None;
    }

    method AddWriterCallback(fd: int, cb: Callback) returns (error: Option<LoopError>)
      modifies this
      ensures View() == AddWriter(old(View()), fd, cb)
      ensures error == (if closed then Some(LoopIsClosed) else if fd in readers && fd !in old(epoll) then Some(NotWatched) else None)
      ensures error.None? ==> writers == old(writers)[fd := cb] && fd in coreWriters && coreWriters[fd] == cb
      ensures error.None? ==> epoll == old(epoll)[fd := EPOLL_OUT + if fd in readers then EPOLL_IN else 0]
      ensures readers == old(readers) && closed == old(closed)
      ensures error == AddWriterError(old(View()), fd)
    {
      if closed {
        return Some(LoopIsClosed);
      }
      var _ := RemoveWriterNoCheck(fd);
      var mask := EPOLL_OUT;
      if fd in readers {
        mask := mask + EPOLL_IN;
        var found := EpollModify(fd, mask);
        if !found {
          return Some(NotWatched);
        }
      } else {
        var added := EpollRegister(fd, mask);
        if !added {
          var _ := EpollModify(fd, mask);
        }
      }
      writers := writers[fd := cb];
      coreWriters := coreWriters[fd := cb];
      return None;
    }
  }
}
