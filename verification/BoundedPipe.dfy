/** The bounded in-memory pipe: a byte queue, two closed flags and two wakers under one lock. */
module BoundedPipe {
  import opened Basics
  import Framing

  /** A waker slot is modelled by whether the other task's waker is stored. */
  datatype Pipe = Pipe(buffer: Bytes, capacity: nat, readClosed: bool, writeClosed: bool,
                       readWaker: bool, writeWaker: bool)

  datatype ReadPoll = ReadPending | ReadReady(data: Bytes)
  datatype WritePoll = WritePending | Wrote(count: nat) | BrokenPipe

  function Opened(capacity: nat): Pipe {
    Pipe([], capacity, false, false, false, false)
  }

  /** `remaining` is the space left in the caller's read buffer. */
  function AfterRead(p: Pipe, remaining: nat): (Pipe, ReadPoll) {
    if p.buffer == [] then
      if p.writeClosed then (p, ReadReady([])) else (p.(readWaker := true), ReadPending)
    else
      var n := Min(|p.buffer|, remaining);
      (p.(buffer := p.buffer[n..], writeWaker := false), ReadReady(p.buffer[..n]))
  }

  function AfterWrite(p: Pipe, data: Bytes): (Pipe, WritePoll) {
    if p.writeClosed || p.readClosed then (p, BrokenPipe)
    else if |p.buffer| >= p.capacity then (p.(writeWaker := true), WritePending)
    else
      var n := Min(p.capacity - |p.buffer|, |data|);
      (p.(buffer := p.buffer + data[..n], readWaker := false), Wrote(n))
  }

  function AfterShutdown(p: Pipe): Pipe {
    p.(writeClosed := true, readWaker := false)
  }

  function AfterReaderDrop(p: Pipe): Pipe {
    p.(readClosed := true, writeWaker := false)
  }

  /** The shared state; each method runs under the lock and reports whether it woke the other task. */
  class PipeState {
    var buffer: Bytes
    const capacity: nat
    var readClosed: bool
    var writeClosed: bool
    var readWaker: bool
    var writeWaker: bool

    constructor (capacity: nat)
      ensures View() == Opened(capacity)
    {
      this.capacity := capacity;
      buffer, readClosed, writeClosed, readWaker, writeWaker := [], false, false, false, false;
    }

    ghost function View(): Pipe
      reads this
    {
      Pipe(buffer, capacity, readClosed, writeClosed, readWaker, writeWaker)
    }

    method PollRead(remaining: nat) returns (poll: ReadPoll, woke: bool)
      modifies this
      ensures (View(), poll) == AfterRead(old(View()), remaining)
      ensures woke <==> old(writeWaker) && !writeWaker
    {
      woke := false;
      if |buffer| == 0 {
        if writeClosed { return ReadReady([]), false; }
        readWaker := true;
        return ReadPending, false;
      }
      var avail := Min(|buffer|, remaining);
      var data: Bytes := [];
      for k := 0 to avail
        invariant data == old(buffer)[..k] && buffer == old(buffer)[k..]
        invariant unchanged(`readClosed) && unchanged(`writeClosed) && unchanged(`readWaker) && unchanged(`writeWaker)
      {
        data := data + [buffer[0]];
        buffer := buffer[1..];
      }
      woke, writeWaker := writeWaker, false;
      poll := ReadReady(data);
    }

    method PollWrite(data: Bytes) returns (poll: WritePoll, woke: bool)
      modifies this
      ensures (View(), poll) == AfterWrite(old(View()), data)
      ensures woke <==> old(readWaker) && !readWaker
    {
      woke := false;
      if writeClosed || readClosed { return BrokenPipe, false; }
      if capacity <= |buffer| {
        writeWaker := true;
        return WritePending, false;
      }
      var n := Min(capacity - |buffer|, |data|);
      buffer := buffer + data[..n];
      woke, readWaker := readWaker, false;
      poll := Wrote(n);
    }

    /** `poll_shutdown`, and dropping the writer. */
    method CloseWriter() returns (woke: bool)
      modifies this
      ensures View() == AfterShutdown(old(View())) && woke == old(readWaker)
    {
      writeClosed := true;
      woke, readWaker := readWaker, false;
    }

    method DropReader() returns (woke: bool)
      modifies this
      ensures View() == AfterReaderDrop(old(View())) && woke == old(writeWaker)
    {
      readClosed := true;
      woke, writeWaker := writeWaker, false;
    }
  }

  // ---- the two tasks ----

  /** A task is parked after a pending poll until its stored waker is called. */
  datatype Task = Running | Parked | Gone

  /** `written` and `delivered` are history; `sawEnd` says that zero bytes were read into a non-empty buffer. */
  datatype System = System(pipe: Pipe, reader: Task, writer: Task, written: Bytes, delivered: Bytes, sawEnd: bool)

  datatype Action = Poll(remaining: nat) | Write(data: Bytes) | Shutdown | DropWriter | DropReader

  /** Even a parked task may be polled again. */
  predicate Possible(s: System, a: Action) {
    match a
    case Poll(_) => s.reader != Gone
    case DropReader => s.reader != Gone
    case _ => s.writer != Gone
  }

  function Wake(t: Task, before: bool, after: bool): Task {
    if before && !after && t == Parked then Running else t
  }

  function Perform(s: System, a: Action): System {
    match a
    case Poll(n) =>
      var (q, poll) := AfterRead(s.pipe, n);
      (match poll
       case ReadPending => s.(pipe := q, reader := Parked)
       case ReadReady(data) =>
         s.(pipe := q, reader := Running, writer := Wake(s.writer, s.pipe.writeWaker, q.writeWaker),
            delivered := s.delivered + data, sawEnd := s.sawEnd || (n > 0 && data == [])))
    case Write(data) =>
      var (q, poll) := AfterWrite(s.pipe, data);
      (match poll
       case WritePending => s.(pipe := q, writer := Parked)
       case Wrote(n) =>
         s.(pipe := q, writer := Running, reader := Wake(s.reader, s.pipe.readWaker, q.readWaker),
            written := s.written + if n <= |data| then data[..n] else data)
       case BrokenPipe => s.(writer := Running))
    case Shutdown =>
      var q := AfterShutdown(s.pipe);
      s.(pipe := q, writer := Running, reader := Wake(s.reader, s.pipe.readWaker, q.readWaker))
    case DropWriter =>
      var q := AfterShutdown(s.pipe);
      s.(pipe := q, writer := Gone, reader := Wake(s.reader, s.pipe.readWaker, q.readWaker))
    case DropReader =>
      var q := AfterReaderDrop(s.pipe);
      s.(pipe := q, reader := Gone, writer := Wake(s.writer, s.pipe.writeWaker, q.writeWaker))
  }

  ghost predicate IsSchedule(s: System, actions: seq<Action>)
    decreases |actions|
  {
    actions == [] || (Possible(s, actions[0]) && IsSchedule(Perform(s, actions[0]), actions[1..]))
  }

  ghost function Reach(s: System, actions: seq<Action>): System
    decreases |actions|
  {
    if actions == [] then s else Reach(Perform(s, actions[0]), actions[1..])
  }

  function Start(capacity: nat): System {
    System(Opened(capacity), Running, Running, [], [], false)
  }

  ghost predicate Sound(s: System) {
    && |s.pipe.buffer| <= s.pipe.capacity
    && s.written == s.delivered + s.pipe.buffer
    && (s.pipe.readClosed <==> s.reader == Gone)
    && (s.reader == Parked ==> s.pipe.buffer == [] && !s.pipe.writeClosed && s.pipe.readWaker)
    && (s.writer == Parked ==> |s.pipe.buffer| == s.pipe.capacity && !s.pipe.readClosed && !s.pipe.writeClosed && s.pipe.writeWaker)
    && (s.sawEnd ==> s.pipe.writeClosed && s.delivered == s.written)
  }

  lemma SoundStep(s: System, a: Action)
    requires Sound(s) && Possible(s, a)
    ensures Sound(Perform(s, a)) && Perform(s, a).pipe.capacity == s.pipe.capacity
  {
    match a
    case Poll(n) =>
      if s.pipe.buffer != [] {
        var k := Min(|s.pipe.buffer|, n);
        assert s.pipe.buffer == s.pipe.buffer[..k] + s.pipe.buffer[k..];
        assert s.delivered + s.pipe.buffer == (s.delivered + s.pipe.buffer[..k]) + s.pipe.buffer[k..];
      }
    case Write(data) =>
      var (q, poll) := AfterWrite(s.pipe, data);
      if poll.Wrote? {
        assert s.delivered + q.buffer == (s.delivered + s.pipe.buffer) + data[..poll.count];
      }
    case _ =>
  }

  lemma {:induction false} SoundSchedule(s: System, actions: seq<Action>)
    requires Sound(s) && IsSchedule(s, actions)
    ensures Sound(Reach(s, actions)) && Reach(s, actions).pipe.capacity == s.pipe.capacity
    decreases |actions|
  {
    if actions != [] {
      SoundStep(s, actions[0]);
      SoundSchedule(Perform(s, actions[0]), actions[1..]);
    }
  }

  // ---- the answers ----

  /** What has closed the two ends. */
  predicate WriteEnded(actions: seq<Action>) {
    Shutdown in actions || DropWriter in actions
  }

  predicate ReadEnded(actions: seq<Action>) {
    DropReader in actions
  }

  lemma {:induction false} EndsFollowActions(s: System, actions: seq<Action>)
    requires IsSchedule(s, actions)
    ensures var t := Reach(s, actions);
            && (t.pipe.writeClosed <==> s.pipe.writeClosed || WriteEnded(actions))
            && (t.pipe.readClosed <==> s.pipe.readClosed || ReadEnded(actions))
    decreases |actions|
  {
    if actions != [] {
      assert actions == [actions[0]] + actions[1..];
      EndsFollowActions(Perform(s, actions[0]), actions[1..]);
    }
  }

  /** Under every schedule, what a write of the living writer answers and leaves: the error exactly when an
      end has been closed; pending exactly when both are open and the buffer is full; and otherwise it
      takes as many of the offered bytes as there is room for. */
  lemma WriteAnswers(capacity: nat, actions: seq<Action>, data: Bytes)
    requires IsSchedule(Start(capacity), actions) && Possible(Reach(Start(capacity), actions), Write(data))
    ensures var s := Reach(Start(capacity), actions);
            var (q, poll) := AfterWrite(s.pipe, data);
            var closed, free := WriteEnded(actions) || ReadEnded(actions), capacity - |s.pipe.buffer|;
            && free >= 0
            && (poll == BrokenPipe <==> closed)
            && (poll == WritePending <==> !closed && free == 0)
            && (!closed && free > 0 ==> poll == Wrote(Min(free, |data|)))
            && q.buffer == s.pipe.buffer + (if !closed && free > 0 then data[..Min(free, |data|)] else [])
  {
    EndsFollowActions(Start(capacity), actions);
    SoundSchedule(Start(capacity), actions);
    var s := Reach(Start(capacity), actions);
    assert s.pipe.buffer + [] == s.pipe.buffer;
  }

  /** And a read of the living reader: the next bytes, as many as there are or fit; with none there, the end
      exactly when the write end has been closed, and otherwise pending. */
  lemma ReadAnswers(capacity: nat, actions: seq<Action>, remaining: nat)
    requires IsSchedule(Start(capacity), actions) && Possible(Reach(Start(capacity), actions), Poll(remaining))
    ensures var s := Reach(Start(capacity), actions);
            var (q, poll) := AfterRead(s.pipe, remaining);
            var n := Min(|s.pipe.buffer|, remaining);
            && (poll == ReadPending <==> s.pipe.buffer == [] && !WriteEnded(actions))
            && (poll != ReadPending ==> poll == ReadReady(s.pipe.buffer[..n]))
            && q.buffer == s.pipe.buffer[n..]
  {
    EndsFollowActions(Start(capacity), actions);
    SoundSchedule(Start(capacity), actions);
  }

  // ---- what every schedule keeps ----

  /** Under every schedule: bytes are conserved in order and never exceed the capacity; a parked task
      has its waker stored and something to wait for, so no wakeup is lost; and the end of the stream
      is reported only when every written byte has been delivered. */
  lemma NoLostWakeup(capacity: nat, actions: seq<Action>)
    requires IsSchedule(Start(capacity), actions)
    ensures var s := Reach(Start(capacity), actions);
            && s.written == s.delivered + s.pipe.buffer && |s.pipe.buffer| <= capacity
            && (s.reader == Parked ==> s.pipe.buffer == [] && !s.pipe.writeClosed && s.pipe.readWaker)
            && (s.writer == Parked ==> |s.pipe.buffer| == capacity && !s.pipe.readClosed && s.pipe.writeWaker)
            && (s.sawEnd ==> s.delivered == s.written)
  {
    SoundSchedule(Start(capacity), actions);
  }

  ghost predicate Deadlocks(capacity: nat, actions: seq<Action>) {
    && IsSchedule(Start(capacity), actions)
    && Reach(Start(capacity), actions).reader == Parked && Reach(Start(capacity), actions).writer == Parked
  }

  lemma TwoActions(s: System, a: Action, b: Action)
    requires Possible(s, a) && Possible(Perform(s, a), b)
    ensures IsSchedule(s, [a, b]) && Reach(s, [a, b]) == Perform(Perform(s, a), b)
  {
    var t := Perform(s, a);
    assert [a, b][1..] == [b] && [b][1..] == [];
    assert IsSchedule(Perform(t, b), [b][1..]) && Reach(Perform(t, b), [b][1..]) == Perform(t, b);
    assert IsSchedule(t, [b]) && Reach(t, [b]) == Perform(t, b);
  }

  /** Both tasks can be parked at once under some schedule exactly when the capacity is zero. */
  lemma DeadlockOnlyAtCapacityZero(capacity: nat)
    ensures (exists actions :: Deadlocks(capacity, actions)) <==> capacity == 0
  {
    forall actions | Deadlocks(capacity, actions) ensures capacity == 0 {
      SoundSchedule(Start(capacity), actions);
    }
    if capacity == 0 {
      var actions := [Poll(1), Write([7])];
      TwoActions(Start(0), Poll(1), Write([7]));
      assert Deadlocks(capacity, actions);
    }
  }

  /** With any capacity but zero no task stays parked for want of the other: whatever happened before, a
      parked writer is woken, to room or to an error, by the reader's next read into a non-empty buffer or
      its drop, and a parked reader, to data or to the end, by the writer's next non-empty write or its
      close. */
  lemma ParkedIsReleased(capacity: nat, actions: seq<Action>, a: Action)
    requires capacity > 0 && IsSchedule(Start(capacity), actions) && Possible(Reach(Start(capacity), actions), a)
    ensures var s, t := Reach(Start(capacity), actions), Perform(Reach(Start(capacity), actions), a);
            && (s.writer == Parked && (a.DropReader? || (a.Poll? && a.remaining > 0)) ==>
                  t.writer == Running && (|t.pipe.buffer| < capacity || t.pipe.readClosed))
            && (s.reader == Parked && (a.Shutdown? || a.DropWriter? || (a.Write? && a.data != [])) ==>
                  t.reader == Running && (t.pipe.buffer != [] || t.pipe.writeClosed))
  {
    SoundSchedule(Start(capacity), actions);
  }

  /** Messages framed through the pipe: under every schedule what the reader can parse is a prefix of
      what is being sent, and once the end is seen after a complete send it is all of it. */
  lemma PipeCarriesMessages(capacity: nat, actions: seq<Action>, messages: seq<Bytes>)
    requires IsSchedule(Start(capacity), actions) && Framing.Fit(messages)
    requires Reach(Start(capacity), actions).written <= Framing.EncodeAll(messages)
    ensures var s := Reach(Start(capacity), actions);
            && Framing.ReceiveAll(s.delivered) <= messages
            && (s.sawEnd && s.written == Framing.EncodeAll(messages) ==> Framing.ReceiveAll(s.delivered) == messages)
  {
    SoundSchedule(Start(capacity), actions);
    var s := Reach(Start(capacity), actions);
    assert s.delivered <= s.written;
    Framing.PrefixReceives(messages, s.delivered);
    Framing.RoundTrip(messages);
  }
}
