/** The write side of a pipe: a byte stream with partial writes, kept in step with the loop's interest set. */
module Pipes {
  import opened Bits
  import opened Indices
  import opened Interest

  const WRITE_READY_CALLBACK: Callback := 0

  datatype PipeError = BadDescriptor | LoopRefused

  /**
   `written` is what the kernel took, `accepted` what `write` agreed to take; `closes`
   and `lost` count calls of the pipe's `close` and of `connection_lost`.
   */
  datatype Pipe = Pipe(
    loop: Loop,
    fd: int,
    high: nat,
    low: nat,
    buffer: seq<byte>,
    closing: bool,
    open: bool,
    written: seq<byte>,
    accepted: seq<byte>,
    closes: nat,
    lost: nat)

  /** What a raw write to a non-blocking pipe does. */
  datatype WriteResult = Wrote(n: nat) | WouldBlock | OsFailure

  /** What the protocol does when told to resume writing. */
  datatype Reaction = Quiet | WriteMore(data: seq<byte>) | CloseNow

  /** A closed pipe has no descriptor: asking for it raises. */
  function Write(p: Pipe, data: seq<byte>): (Pipe, Option<PipeError>) {
    if p.closing || data == [] then (p, None)
    else
      var p1 := p.(buffer := p.buffer + data, accepted := p.accepted + data);
      if !p1.open then (p1, Some(BadDescriptor))
      else if AddWriterError(p1.loop, p1.fd).Some? then (p1.(loop := AddWriter(p1.loop, p1.fd, WRITE_READY_CALLBACK)), Some(LoopRefused))
      else (p1.(loop := AddWriter(p1.loop, p1.fd, WRITE_READY_CALLBACK)), None)
  }

  function Shut(p: Pipe): Pipe {
    p.(open := false, closes := p.closes + 1, lost := p.lost + 1)
  }

  function Close(p: Pipe): Pipe {
    if p.closing then p
    else if p.buffer == [] then Shut(p.(closing := true))
    else p.(closing := true)
  }

  function React(p: Pipe, r: Reaction): Pipe {
    match r
    case Quiet => p
    case WriteMore(data) => Write(p, data).0
    case CloseNow => Close(p)
  }

  /** The end of a successful write: once everything is out, stop watching, and close if asked to. */
  function Finish(p: Pipe): (Pipe, Option<PipeError>) {
    if p.buffer != [] then (p, None)
    else if !p.open then (p, Some(BadDescriptor))
    else
      var p1 := p.(loop := RemoveWriter(p.loop, p.fd));
      (if p1.closing then Shut(p1) else p1, None)
  }

  function WriteReady(p: Pipe, result: WriteResult, reaction: Reaction): (Pipe, Option<PipeError>) {
    if !p.open then (p, Some(BadDescriptor))
    else if p.buffer == [] then (p.(loop := RemoveWriter(p.loop, p.fd)), None)
    else match result
      case Wrote(k) =>
        var n := if k <= |p.buffer| then k else |p.buffer|;
        var p1 := p.(buffer := p.buffer[n..], written := p.written + p.buffer[..n]);
        Finish(if |p1.buffer| < p1.low then React(p1, reaction) else p1)
      case WouldBlock => (p, None)
      case OsFailure => (p.(loop := RemoveWriter(p.loop, p.fd), lost := p.lost + 1), None)
  }

  function Abort(p: Pipe): (Pipe, Option<PipeError>) {
    var p1 := p.(buffer := []);
    if !p1.open then (p1, Some(BadDescriptor))
    else (Shut(p1.(loop := RemoveWriter(p1.loop, p1.fd))).(closing := true), None)
  }

  datatype PipeStep =
    | DoWrite(data: seq<byte>)
    | DoReady(result: WriteResult, reaction: Reaction)
    | DoClose
    | DoAbort
    | Elsewhere(step: LoopStep)

  function PipeNext(p: Pipe, step: PipeStep): Pipe {
    match step
    case DoWrite(data) => Write(p, data).0
    case DoReady(result, reaction) => WriteReady(p, result, reaction).0
    case DoClose => Close(p)
    case DoAbort => Abort(p).0
    case Elsewhere(step) => p.(loop := LoopNext(p.loop, step))
  }

  // ---------------------------------------------------------------------------
  // The stream
  // ---------------------------------------------------------------------------

  /** Nothing lost or reordered; only an aborted transport may have dropped its buffer. */
  predicate Streaming(p: Pipe) {
    p.written + p.buffer == p.accepted || (p.closing && p.buffer == [] && p.written <= p.accepted)
  }

  lemma WriteStreams(p: Pipe, data: seq<byte>)
    requires Streaming(p)
    ensures Streaming(Write(p, data).0)
    ensures p.written + p.buffer == p.accepted ==> Write(p, data).0.written + Write(p, data).0.buffer == Write(p, data).0.accepted
  {
    assert p.written + (p.buffer + data) == p.written + p.buffer + data;
  }

  lemma ReactStreams(p: Pipe, r: Reaction)
    requires Streaming(p)
    ensures Streaming(React(p, r))
    ensures p.written + p.buffer == p.accepted ==> React(p, r).written + React(p, r).buffer == React(p, r).accepted
  {
    if r.WriteMore? {
      WriteStreams(p, r.data);
    }
  }

  lemma StepStreams(p: Pipe, step: PipeStep)
    requires Streaming(p) && (!p.open ==> p.closing)
    ensures Streaming(PipeNext(p, step)) && (!PipeNext(p, step).open ==> PipeNext(p, step).closing)
    ensures !step.DoAbort? && p.written + p.buffer == p.accepted ==>
              PipeNext(p, step).written + PipeNext(p, step).buffer == PipeNext(p, step).accepted
  {
    match step
    case DoWrite(data) => WriteStreams(p, data);
    case DoReady(result, reaction) =>
      if p.open && p.buffer != [] && result.Wrote? {
        var n := if result.n <= |p.buffer| then result.n else |p.buffer|;
        var p1 := p.(buffer := p.buffer[n..], written := p.written + p.buffer[..n]);
        assert p1.written + p1.buffer == p.written + p.buffer;
        ReactStreams(p1, reaction);
      }
    case DoClose =>
    case DoAbort => assert p.written <= p.accepted;
    case Elsewhere(_) =>
  }

  ghost predicate PipeRun(states: seq<Pipe>, steps: seq<PipeStep>) {
    && |states| == |steps| + 1
    && forall i :: 0 <= i < |steps| ==> states[i + 1] == PipeNext(states[i], steps[i])
  }

  predicate Fresh(p: Pipe) {
    p.open && p.buffer == [] && p.written == [] && p.accepted == [] && p.closes == 0 && p.lost == 0
  }

  /** In every run what reached the pipe is a prefix of what was accepted, and until an abort the buffer is the rest. */
  lemma {:induction false} StreamInEveryRun(states: seq<Pipe>, steps: seq<PipeStep>)
    requires PipeRun(states, steps) && Fresh(states[0])
    ensures var p := states[|steps|];
            && p.written <= p.accepted
            && ((forall i :: 0 <= i < |steps| ==> !steps[i].DoAbort?) ==> p.written + p.buffer == p.accepted)
            && Streaming(p) && (!p.open ==> p.closing)
  {
    var n := |steps|;
    if n > 0 {
      StreamInEveryRun(states[..n], steps[..n - 1]);
      assert states[n] == PipeNext(states[n - 1], steps[n - 1]);
      StepStreams(states[n - 1], steps[n - 1]);
    }
  }

  // ---------------------------------------------------------------------------
  // What each call does
  // ---------------------------------------------------------------------------

  /** A write that is not ignored is buffered, whatever then goes wrong with watching. */
  lemma WriteMeans(p: Pipe, data: seq<byte>)
    ensures var (p', error) := Write(p, data);
            if p.closing || data == [] then p' == p && error.None?
            else
              && p' == p.(loop := p'.loop, buffer := p.buffer + data, accepted := p.accepted + data)
              && (error == Some(BadDescriptor) <==> !p.open)
              && (error == Some(LoopRefused) <==> p.open && (p.loop.closed || (p.fd in p.loop.readers && p.fd !in p.loop.epoll)))
              && (error.None? ==> p.fd in p'.loop.writers && p'.loop.writers[p.fd] == WRITE_READY_CALLBACK)
              && (!p.open ==> p'.loop == p.loop)
  {
  }

  /** Closing twice does nothing; closing with nothing left closes the pipe and tells the protocol, once. */
  lemma CloseMeans(p: Pipe)
    ensures Close(p) == if p.closing then p
                        else if p.buffer != [] then p.(closing := true)
                        else p.(closing := true, open := false, closes := p.closes + 1, lost := p.lost + 1)
  {
  }

  /** Aborting drops what is buffered, stops watching, closes the pipe and tells the protocol, once; on a closed pipe it raises. */
  lemma AbortMeans(p: Pipe)
    ensures var (p', error) := Abort(p);
            && p'.buffer == [] && p'.written == p.written && p'.accepted == p.accepted
            && (error == Some(BadDescriptor) <==> !p.open) && (error.None? <==> p.open)
            && (p.open ==> p.fd !in p'.loop.writers && !p'.open && p'.closing && p'.closes == p.closes + 1 && p'.lost == p.lost + 1)
            && (!p.open ==> p' == p.(buffer := []))
  {
  }

  /** The writer callback when the protocol does nothing in it. */
  lemma ReadyMeans(p: Pipe, result: WriteResult)
    requires p.open && (result.Wrote? ==> result.n <= |p.buffer|)
    ensures var (p', error) := WriteReady(p, result, Quiet);
            && error.None? && p'.accepted == p.accepted && p'.closing == p.closing
            && var n := if p.buffer != [] && result.Wrote? then result.n else 0;
               var out := p.buffer == [] || n == |p.buffer|;
               var failed := p.buffer != [] && result.OsFailure?;
               var closes := p.buffer != [] && out && p.closing;
               && p'.buffer == p.buffer[n..] && p'.written == p.written + p.buffer[..n]
               && (if out || failed then p.fd !in p'.loop.writers else p'.loop == p.loop)
               && p'.open == !closes && p'.closes == p.closes + (if closes then 1 else 0)
               && p'.lost == p.lost + if closes || failed then 1 else 0
  {
  }

  /** A closed pipe makes the writer callback raise. */
  lemma ReadyOnClosed(p: Pipe, result: WriteResult, reaction: Reaction)
    requires !p.open
    ensures WriteReady(p, result, reaction) == (p, Some(BadDescriptor))
  {
  }

  /** The protocol is told to resume writing exactly when a raw write leaves less than the low-water mark. */
  lemma ResumesIff(p: Pipe, result: WriteResult, data: seq<byte>)
    requires p.open && !p.closing && data != [] && (result.Wrote? ==> result.n <= |p.buffer|)
    ensures WriteReady(p, result, WriteMore(data)).0.accepted == p.accepted + data
      <==> p.buffer != [] && result.Wrote? && |p.buffer| - result.n < p.low
    ensures WriteReady(p, result, CloseNow).0.closing
      <==> p.buffer != [] && result.Wrote? && |p.buffer| - result.n < p.low
  {
    assert |p.accepted + data| > |p.accepted|;
  }

  // ---------------------------------------------------------------------------
  // Watching and closing
  // ---------------------------------------------------------------------------

  /** Watched exactly while bytes wait; closed exactly once, exactly when closing was asked for and all bytes are out. */
  ghost predicate Tidy(p: Pipe) {
    && InStep(p.loop) && !p.loop.closed && p.fd != p.loop.eventFd
    && (p.fd in p.loop.writers <==> p.buffer != [])
    && (p.open <==> !p.closing || p.buffer != [])
    && p.closes == p.lost == if p.open then 0 else 1
  }

  /** Closing from within `resume_writing`, with nothing left to write. */
  predicate ClosesInside(p: Pipe, step: PipeStep) {
    && step.DoReady? && step.result.Wrote? && step.result.n >= |p.buffer| > 0
    && 0 < p.low && !p.closing && step.reaction.CloseNow?
  }

  lemma WriteTidy(p: Pipe, data: seq<byte>)
    requires InStep(p.loop) && !p.loop.closed && p.fd != p.loop.eventFd && (p.closing || p.open)
    ensures var p' := Write(p, data).0;
            if p.closing || data == [] then p' == p
            else InStep(p'.loop) && !p'.loop.closed && p'.loop.eventFd == p.loop.eventFd && p.fd in p'.loop.writers
                 && Write(p, data).1.None?
                 && p' == p.(loop := p'.loop, buffer := p.buffer + data, accepted := p.accepted + data)
  {
    AddWriterKeeps(p.loop, p.fd, WRITE_READY_CALLBACK);
    RemoveWriterKeeps(p.loop, p.fd);
  }

  lemma FinishTidy(p: Pipe)
    requires InStep(p.loop) && !p.loop.closed && p.fd != p.loop.eventFd && p.open && p.closes == p.lost == 0
    requires p.fd in p.loop.writers
    ensures Tidy(Finish(p).0)
  {
    RemoveWriterKeeps(p.loop, p.fd);
  }

  lemma ReadyTidy(p: Pipe, step: PipeStep)
    requires Tidy(p) && step.DoReady? && step.result.Wrote? && p.open && p.buffer != []
    ensures Tidy(PipeNext(p, step)) <==> !ClosesInside(p, step)
  {
    var n := if step.result.n <= |p.buffer| then step.result.n else |p.buffer|;
    var p1 := p.(buffer := p.buffer[n..], written := p.written + p.buffer[..n]);
    var p2 := if |p1.buffer| < p1.low then React(p1, step.reaction) else p1;
    if step.reaction.WriteMore? {
      WriteTidy(p1, step.reaction.data);
    }
    if !ClosesInside(p, step) {
      FinishTidy(p2);
    }
  }

  /** A step other than an abort or a failing write keeps the transport tidy exactly when it does not close from inside `resume_writing`. */
  lemma StepTidyIff(p: Pipe, step: PipeStep)
    requires Tidy(p) && !step.DoAbort? && !(step.DoReady? && step.result.OsFailure?)
    requires step.Elsewhere? ==> step.step.fd != p.fd && step.step.fd != p.loop.eventFd
    ensures Tidy(PipeNext(p, step)) <==> !ClosesInside(p, step)
  {
    match step
    case DoWrite(data) => WriteTidy(p, data);
    case DoReady(result, reaction) =>
      if p.open {
        RemoveWriterKeeps(p.loop, p.fd);
        if p.buffer != [] && result.Wrote? {
          ReadyTidy(p, step);
        }
      }
    case DoClose =>
    case Elsewhere(s) => ElsewhereTidy(p, s);
  }

  lemma ElsewhereTidy(p: Pipe, s: LoopStep)
    requires Tidy(p) && s.fd != p.fd && s.fd != p.loop.eventFd
    ensures Tidy(PipeNext(p, Elsewhere(s)))
  {
    LoopStepKeeps(p.loop, s);
    OtherWriterKept(p.loop, s, p.fd);
  }

  lemma OtherWriterKept(l: Loop, s: LoopStep, fd: int)
    requires s.fd != fd
    ensures fd in LoopNext(l, s).writers <==> fd in l.writers
  {
    match s
    case StartReading(other, cb) =>
    case StopReading(other) =>
    case StartWriting(other, cb) =>
    case StopWriting(other) =>
  }

  /**
   In every run without abort, failing write or a close from inside `resume_writing`, the
   writer is watched exactly while bytes wait, and the pipe is closed, once, exactly when
   closing was asked for and every accepted byte has been written.
   */
  lemma {:induction false} TidyInEveryRun(states: seq<Pipe>, steps: seq<PipeStep>)
    requires PipeRun(states, steps) && Fresh(states[0]) && Tidy(states[0])
    requires forall i :: 0 <= i < |steps| ==>
               && !steps[i].DoAbort? && !(steps[i].DoReady? && steps[i].result.OsFailure?)
               && !ClosesInside(states[i], steps[i])
               && (steps[i].Elsewhere? ==> steps[i].step.fd != states[i].fd && steps[i].step.fd != states[i].loop.eventFd)
    ensures var p := states[|steps|];
            && Tidy(p)
            && (!p.open <==> p.closing && p.written == p.accepted)
  {
    var n := |steps|;
    if n > 0 {
      TidyInEveryRun(states[..n], steps[..n - 1]);
      assert states[n] == PipeNext(states[n - 1], steps[n - 1]);
      StepTidyIff(states[n - 1], steps[n - 1]);
    }
    StreamInEveryRun(states, steps);
    var p := states[n];
    assert p.buffer == [] <==> p.written == p.accepted by {
      assert |p.written| + |p.buffer| == |p.accepted|;
    }
  }

  // ---------------------------------------------------------------------------
  // The transport object
  // ---------------------------------------------------------------------------

  class WritePipeTransport {
    const loop: EventLoop
    const fd: int
    var high: nat
    var low: nat
    var buffer: seq<byte>
    var closing: bool
    var open: bool
    ghost var written: seq<byte>
    ghost var accepted: seq<byte>
    ghost var closes: nat
    ghost var lost: nat

    ghost function View(): Pipe
      reads this, loop
    {
      Pipe(loop.View(), fd, high, low, buffer, closing, open, written, accepted, closes, lost)
    }

    /** A pipe that cannot be made non-blocking starts out closing. */
    constructor (loop: EventLoop, fd: int, nonBlocking: bool)
      ensures this.loop == loop && this.fd == fd
      ensures Fresh(View()) && closing == !nonBlocking && high == 0x1_0000 && low == 0x4000
      ensures InStep(loop.View()) && !loop.closed && fd != loop.eventFd && fd !in loop.writers ==> (Tidy(View()) <==> nonBlocking)
    {
      this.loop, this.fd := loop, fd;
      high, low := 0x1_0000, 0x4000;
      buffer, written, accepted := [], [], [];
      closing, open := !nonBlocking, true;
      closes, lost := 0, 0;
    }

    method ClosePipe()
      modifies this`open, this`closes, this`lost
      ensures View() == Shut(old(View()))
    {
      open := false;
      closes := closes + 1;
      lost := lost + 1;
    }

    /** `write`; `paused` reports a call of `pause_writing`. */
    method WriteData(data: seq<byte>) returns (error: Option<PipeError>, paused: bool)
      modifies this`buffer, this`accepted, loop
      ensures (View(), error) == Write(old(View()), data)
      ensures paused <==> error.None? && !old(closing) && data != [] && |buffer| > high
    {
      paused := false;
      error := None;
      if closing || data == [] {
        return;
      }
      buffer := buffer + data;
      accepted := accepted + data;
      if !open {
        error := Some(BadDescriptor);
        return;
      }
      var refused := loop.AddWriterCallback(fd, WRITE_READY_CALLBACK);
      if refused.Some? {
        error := Some(LoopRefused);
        return;
      }
      paused := |buffer| > high;
    }

    method CloseTransport()
      modifies this`closing, this`open, this`closes, this`lost
      ensures View() == Close(old(View()))
    {
      if closing {
        return;
      }
      closing := true;
      if buffer == [] {
        ClosePipe();
      }
    }

    /** The protocol's `resume_writing`; whatever it raises is swallowed. */
    method ResumeWriting(reaction: Reaction)
      modifies this`buffer, this`accepted, this`closing, this`open, this`closes, this`lost, loop
      ensures View() == React(old(View()), reaction)
    {
      match reaction
      case Quiet =>
      case WriteMore(data) => var _, _ := WriteData(data);
      case CloseNow => CloseTransport();
    }

    method WriteReadyHandler(result: WriteResult, reaction: Reaction) returns (error: Option<PipeError>)
      requires result.Wrote? ==> result.n <= |buffer|
      modifies this, loop
      ensures (View(), error) == WriteReady(old(View()), result, reaction)
    {
      error := None;
      if !open {
        return Some(BadDescriptor);
      }
      if buffer == [] {
        var _ := loop.RemoveWriterNoCheck(fd);
        return;
      }
      match result
      case Wrote(n) =>
        written := written + buffer[..n];
        buffer := buffer[n..];
        if |buffer| < low {
          ResumeWriting(reaction);
        }
        if buffer == [] {
          if !open {
            return Some(BadDescriptor);
          }
          var _ := loop.RemoveWriterNoCheck(fd);
          if closing {
            ClosePipe();
          }
        }
      case WouldBlock =>
      case OsFailure =>
        var _ := loop.RemoveWriterNoCheck(fd);
        lost := lost + 1;
    }

    method AbortTransport() returns (error: Option<PipeError>)
      modifies this, loop
      ensures (View(), error) == Abort(old(View()))
    {
      buffer := [];
      if !open {
        return Some(BadDescriptor);
      }
      var _ := loop.RemoveWriterNoCheck(fd);
      ClosePipe();
      closing := true;
      return None;
    }
  }
}
