/**
 The loop that sends a file over the local network, with its pause and cancel points: wait while
 paused, dequeue the next frame unless cancelled, write it.  The waiting loop runs inside it step
 by step; the poll for cancel and the poll for data are separate instants.
 */
module LanSendLoop {
  import opened Basics
  import P = Pause

  datatype Message = ChunkFrame(frame: Bytes) | ErrorFrame | CompleteFrame

  datatype Phase =
    | Waiting(waiter: P.Waiter)
    | PollCancel | PollData | Parked     // the biased select
    | Writing(frame: Bytes)              // it has been dequeued
    | Finishing                          // end of stream has been dequeued
    | Aborting                           // cancelled, the error frame is not yet written
    | Completed | Aborted
    | ReaderFailed                       // the reader task's error is returned, no frame is written

  /** `queue` are the frames that wait in the channel; `closed` says the reader task has finished, and `failed` that it
      finished with an error.  History: whether the first cancel() came late, the chunks written since then,
      and the chunks written since the flag was last set to paused. */
  datatype Loop = Loop(flag: P.Flag, phase: Phase, queue: seq<Bytes>, closed: bool, failed: bool, wire: seq<Message>,
                       cancelledLate: bool, sinceCancel: nat, sincePause: nat)

  datatype Event = Order(cmd: P.Command) | Enqueue(frame: Bytes) | CloseQueue(ok: bool) | Turn

  function Start(): Loop {
    Loop(P.Clear, Waiting(P.Call), [], false, false, [], false, 0, 0)
  }

  /** A cancel() comes late when the loop has dequeued the end of the stream, or is between its two polls
      with nothing queued. */
  predicate Late(s: Loop) {
    s.phase.Finishing? || s.phase.Completed? || s.phase.ReaderFailed? || (s.phase.PollData? && s.queue == [])
  }

  function Command(s: Loop, cmd: P.Command): Loop {
    var f := P.Obey(s.flag, cmd);
    match cmd
    case DoPause => s.(flag := f, sincePause := if s.flag.pause.value then s.sincePause else 0)
    case DoResume => s.(flag := f)
    case DoCancel =>
      if s.flag.cancel.value then s.(flag := f) else s.(flag := f, cancelledLate := Late(s), sinceCancel := 0)
  }

  /** Whether the loop can take a turn now. */
  predicate Awake(s: Loop) {
    match s.phase
    case Waiting(w) => P.Awake(s.flag, w) || w.phase.Returned?
    case Parked => s.flag.cancel.value || s.queue != [] || s.closed
    case Completed => false
    case Aborted => false
    case ReaderFailed => false
    case _ => true
  }

  function TakeTurn(s: Loop): Loop {
    match s.phase
    case Waiting(w) =>
      (match w.phase
       case Returned(cancelled) => s.(phase := if cancelled then Aborting else PollCancel)
       case _ => s.(phase := Waiting(P.Advance(s.flag, w))))
    case PollCancel => s.(phase := if s.flag.cancel.value then Aborting else PollData)
    case PollData =>
      if s.queue != [] then s.(phase := Writing(s.queue[0]), queue := s.queue[1..])
      else if s.closed then s.(phase := Finishing)
      else s.(phase := Parked)
    case Parked => s.(phase := PollCancel)
    case Writing(frame) =>
      s.(phase := Waiting(P.Call), wire := s.wire + [ChunkFrame(frame)],
         sinceCancel := s.sinceCancel + 1, sincePause := s.sincePause + 1)
    case Finishing => if s.failed then s.(phase := ReaderFailed) else s.(phase := Completed, wire := s.wire + [CompleteFrame])
    case Aborting => s.(phase := Aborted, wire := s.wire + [ErrorFrame])
    case _ => s
  }

  function Happen(s: Loop, e: Event): Loop {
    match e
    case Order(cmd) => Command(s, cmd)
    case Enqueue(frame) => if s.closed then s else s.(queue := s.queue + [frame])
    case CloseQueue(ok) => if s.closed then s else s.(closed := true, failed := !ok)
    case Turn => if Awake(s) then TakeTurn(s) else s
  }

  function Play(s: Loop, events: seq<Event>): Loop {
    if events == [] then s else Happen(Play(s, events[..|events| - 1]), events[|events| - 1])
  }

  ghost predicate Chunks(s: Loop) {
    forall k :: 0 <= k < |s.wire| ==>
      (s.wire[k] == CompleteFrame ==> k == |s.wire| - 1 && s.phase == Completed)
      && (s.wire[k] == ErrorFrame ==> k == |s.wire| - 1 && s.phase == Aborted)
  }

  ghost predicate CancelOk(s: Loop) {
    && (s.flag.cancel.value ==> s.sinceCancel <= 1)
    && (s.flag.cancel.value && (s.phase.PollData? || s.phase.Parked? || s.phase.Writing?) ==> s.sinceCancel == 0)
    && (s.flag.cancel.value && s.phase.PollData? ==> s.cancelledLate || s.queue != [])
    && (s.flag.cancel.value && (s.phase.Finishing? || s.phase.Completed? || s.phase.ReaderFailed?) ==> s.cancelledLate)
    && (s.phase.Aborting? || s.phase.Aborted? ==> s.flag.cancel.value)
  }

  ghost predicate PauseOk(s: Loop) {
    s.flag.pause.value ==>
      && s.sincePause <= 1
      && (s.phase.PollCancel? || s.phase.PollData? || s.phase.Parked? || s.phase.Writing? ==> s.sincePause == 0)
      && (s.phase.Waiting? && s.phase.waiter.phase == P.Returned(false) ==> s.sincePause == 0)
  }

  /** Once the reader has ended, how it ended is settled, and COMPLETE needs it to have ended well. */
  ghost predicate ReaderOk(s: Loop) {
    && (s.failed ==> s.closed && !s.phase.Completed?)
    && (s.phase.Finishing? || s.phase.Completed? || s.phase.ReaderFailed? ==> s.closed)
    && (s.phase.ReaderFailed? ==> s.failed)
    && (s.phase.Finishing? || s.phase.Completed? || s.phase.ReaderFailed? ==> s.queue == [])
  }

  ghost predicate WaitOk(s: Loop) {
    s.phase.Waiting? ==> P.WaiterOk(s.flag, s.phase.waiter)
  }

  ghost predicate Ok(s: Loop) {
    && Chunks(s) && CancelOk(s) && PauseOk(s) && WaitOk(s) && ReaderOk(s) && LastOk(s)
  }

  lemma WaitStep(s: Loop, e: Event)
    requires WaitOk(s)
    ensures WaitOk(Happen(s, e))
  {
  }

  lemma CancelStep(s: Loop, e: Event)
    requires CancelOk(s) && WaitOk(s)
    ensures CancelOk(Happen(s, e))
  {
  }

  lemma ReaderStep(s: Loop, e: Event)
    requires ReaderOk(s)
    ensures ReaderOk(Happen(s, e)) && (s.closed ==> Happen(s, e).closed && Happen(s, e).failed == s.failed)
  {
  }

  lemma PauseStep(s: Loop, e: Event)
    requires PauseOk(s) && WaitOk(s)
    ensures PauseOk(Happen(s, e))
  {
  }

  lemma ChunksStep(s: Loop, e: Event)
    requires Chunks(s)
    ensures Chunks(Happen(s, e))
  {
    var t := Happen(s, e);
    assert t.wire == s.wire || (|t.wire| == |s.wire| + 1 && t.wire[..|s.wire|] == s.wire);
    forall k | 0 <= k < |t.wire|
      ensures (t.wire[k] == CompleteFrame ==> k == |t.wire| - 1 && t.phase == Completed)
           && (t.wire[k] == ErrorFrame ==> k == |t.wire| - 1 && t.phase == Aborted)
    {
      if k < |s.wire| { assert t.wire[k] == s.wire[k]; }
    }
  }

  /** An ended loop's last frame says how it ended. */
  ghost predicate LastOk(s: Loop) {
    && (s.phase.Completed? ==> |s.wire| > 0 && s.wire[|s.wire| - 1] == CompleteFrame)
    && (s.phase.Aborted? ==> |s.wire| > 0 && s.wire[|s.wire| - 1] == ErrorFrame)
  }

  lemma LastStep(s: Loop, e: Event)
    requires LastOk(s)
    ensures LastOk(Happen(s, e))
  {
  }

  lemma OkStep(s: Loop, e: Event)
    requires Ok(s)
    ensures Ok(Happen(s, e))
  {
    WaitStep(s, e);
    CancelStep(s, e);
    PauseStep(s, e);
    ChunksStep(s, e);
    ReaderStep(s, e);
    LastStep(s, e);
  }

  lemma {:induction false} OkPlay(s: Loop, events: seq<Event>)
    requires Ok(s)
    ensures Ok(Play(s, events))
  {
    if events != [] {
      OkPlay(s, events[..|events| - 1]);
      OkStep(Play(s, events[..|events| - 1]), events[|events| - 1]);
    }
  }

  lemma StartOk()
    ensures Ok(Start())
  {
  }

  // ---- which frames are written ----

  /** The chunks of a wire, in order. */
  function Written(wire: seq<Message>): seq<Bytes> {
    if wire == [] then []
    else
      var before := Written(wire[..|wire| - 1]);
      match wire[|wire| - 1]
      case ChunkFrame(frame) => before + [frame]
      case _ => before
  }

  lemma WrittenSnoc(wire: seq<Message>, m: Message)
    ensures Written(wire + [m]) == if m.ChunkFrame? then Written(wire) + [m.frame] else Written(wire)
  {
    assert (wire + [m])[..|wire|] == wire;
  }

  function Held(p: Phase): seq<Bytes> {
    match p
    case Writing(frame) => [frame]
    case _ => []
  }

  predicate ClosedIn(events: seq<Event>) {
    exists ok :: CloseQueue(ok) in events
  }

  /** What the reader task put on the channel before it ended. */
  ghost function Offered(events: seq<Event>): seq<Bytes> {
    if events == [] then []
    else
      var n := |events| - 1;
      match events[n]
      case Enqueue(frame) => if ClosedIn(events[..n]) then Offered(events[..n]) else Offered(events[..n]) + [frame]
      case _ => Offered(events[..n])
  }

  /** The frames the loop has to do with: written, about to be written, and waiting. */
  function Frames(s: Loop): seq<Bytes> {
    Written(s.wire) + Held(s.phase) + s.queue
  }

  lemma WrittenFrame(s: Loop, frame: Bytes)
    requires s.phase == Writing(frame)
    ensures Frames(TakeTurn(s)) == Frames(s)
  {
    WrittenSnoc(s.wire, ChunkFrame(frame));
    NothingBetween(Written(s.wire) + [frame], s.queue);
  }

  lemma NothingBetween(a: seq<Bytes>, b: seq<Bytes>)
    ensures a + [] + b == a + b
  {
  }

  lemma TakenFrame(s: Loop)
    requires s.phase == PollData && s.queue != []
    ensures Frames(TakeTurn(s)) == Frames(s)
  {
    assert s.queue == [s.queue[0]] + s.queue[1..];
    assert Written(s.wire) + [] + s.queue == Written(s.wire) + [s.queue[0]] + s.queue[1..];
  }

  /** Turns that neither take nor write a frame. */
  lemma FramesStay(s: Loop)
    requires !s.phase.Writing? && !(s.phase.PollData? && s.queue != [])
    ensures var t := TakeTurn(s); Written(t.wire) == Written(s.wire) && Held(t.phase) == [] && t.queue == s.queue
  {
    if s.phase.Finishing? { WrittenSnoc(s.wire, CompleteFrame); }
    else if s.phase.Aborting? { WrittenSnoc(s.wire, ErrorFrame); }
    else { WireStays(s); }
  }

  lemma WireStays(s: Loop)
    requires !s.phase.Writing? && !s.phase.Finishing? && !s.phase.Aborting?
    ensures TakeTurn(s).wire == s.wire && (TakeTurn(s).phase.Writing? ==> s.phase.PollData? && s.queue != [])
    ensures s.phase.PollData? || TakeTurn(s).queue == s.queue
  {
  }

  lemma TurnKeepsFrames(s: Loop)
    ensures Frames(TakeTurn(s)) == Frames(s)
  {
    if s.phase.Writing? { WrittenFrame(s, s.phase.frame); }
    else if s.phase.PollData? && s.queue != [] { TakenFrame(s); }
    else { FramesStay(s); }
  }

  lemma ClosedInSnoc(events: seq<Event>, e: Event)
    ensures ClosedIn(events + [e]) <==> ClosedIn(events) || e.CloseQueue?
  {
    if e.CloseQueue? { assert CloseQueue(e.ok) in events + [e]; }
    if ok :| CloseQueue(ok) in events { assert CloseQueue(ok) in events + [e]; }
  }

  /** Every frame the reader offered is on the wire, in the loop's hand or in the channel, once and in order;
      nothing else is. */
  lemma {:induction false} FramesConserved(events: seq<Event>)
    ensures var s := Play(Start(), events);
            Frames(s) == Offered(events) && (s.closed <==> ClosedIn(events))
  {
    if events != [] {
      var n := |events| - 1;
      FramesConserved(events[..n]);
      var s := Play(Start(), events[..n]);
      assert events == events[..n] + [events[n]];
      ClosedInSnoc(events[..n], events[n]);
      FramesStep(s, events[n]);
      ClosedStep(s, events[n]);
    }
  }

  lemma ClosedStep(s: Loop, e: Event)
    ensures Happen(s, e).closed <==> s.closed || e.CloseQueue?
  {
  }

  lemma FramesStep(s: Loop, e: Event)
    ensures Frames(Happen(s, e)) == if e.Enqueue? && !s.closed then Frames(s) + [e.frame] else Frames(s)
  {
    match e
    case Enqueue(frame) => assert Written(s.wire) + Held(s.phase) + (s.queue + [frame]) == Frames(s) + [frame];
    case Turn => TurnKeepsFrames(s);
    case _ =>
  }

  function ChunkFrames(frames: seq<Bytes>): seq<Message> {
    seq(|frames|, k requires 0 <= k < |frames| => ChunkFrame(frames[k]))
  }

  lemma {:induction false} WireOfWritten(wire: seq<Message>)
    requires AllChunks(wire)
    ensures wire == ChunkFrames(Written(wire))
  {
    if wire != [] {
      var n := |wire| - 1;
      WireOfWritten(wire[..n]);
      assert wire[n].ChunkFrame? && wire == wire[..n] + [wire[n]];
    }
  }

  lemma ThenComplete(chunks: seq<Message>)
    requires AllChunks(chunks)
    ensures chunks == ChunkFrames(Written(chunks + [CompleteFrame]))
  {
    WireOfWritten(chunks);
    WrittenSnoc(chunks, CompleteFrame);
  }

  lemma EndedFrames(s: Loop)
    requires Ok(s) && (s.phase == Completed || s.phase == ReaderFailed)
    ensures Written(s.wire) == Frames(s)
    ensures s.phase == ReaderFailed ==> AllChunks(s.wire)
    ensures s.phase == Completed ==> exists chunks :: ChunksThenComplete(s.wire, chunks)
  {
    LastFrame(s);
    assert Written(s.wire) + [] + [] == Written(s.wire);
    if s.phase == Completed {
      var chunks := s.wire[..|s.wire| - 1];
      assert ChunksThenComplete(s.wire, chunks);
    }
  }

  ghost predicate ChunksThenComplete(wire: seq<Message>, chunks: seq<Message>) {
    AllChunks(chunks) && wire == chunks + [CompleteFrame]
  }

  /** A transfer that ends well, or by a read error, has sent exactly the frames the reader offered, in
      order, and after them COMPLETE, or nothing. */
  lemma EndedWire(events: seq<Event>)
    ensures var s := Play(Start(), events);
            && (s.phase == Completed ==> s.wire == ChunkFrames(Offered(events)) + [CompleteFrame])
            && (s.phase == ReaderFailed ==> s.wire == ChunkFrames(Offered(events)))
  {
    var s := Play(Start(), events);
    StartOk();
    OkPlay(Start(), events);
    FramesConserved(events);
    if s.phase == Completed {
      EndedFrames(s);
      var chunks :| ChunksThenComplete(s.wire, chunks);
      ThenComplete(chunks);
    }
    if s.phase == ReaderFailed {
      EndedFrames(s);
      WireOfWritten(s.wire);
    }
  }

  // ---- an undisturbed loop ----

  /** The turns to the next dequeuing, on a clear flag, and from it. */
  function TurnsAway(p: Phase): nat {
    match p
    case Writing(_) => 9
    case Waiting(w) =>
      (match w.phase
       case Blocked => 9
       case PollCancel => 8
       case SubscribePause => 8
       case PollPause => 7
       case Recheck => 7
       case SubscribeCancel => 7
       case CheckCancel => 6
       case CheckPause => 5
       case Returned(_) => 4)
    case Parked => 4
    case PollCancel => 3
    case PollData => 2
    case _ => 1
  }

  function Load(s: Loop): nat {
    if Ended(s.phase) then 0 else 8 * |s.queue| + TurnsAway(s.phase)
  }

  predicate Clear(s: Loop) {
    !s.flag.pause.value && !s.flag.cancel.value
  }

  ghost predicate NoOrders(events: seq<Event>) {
    forall k :: 0 <= k < |events| ==> !events[k].Order?
  }

  lemma ClearTurn(s: Loop)
    requires Ok(s) && Clear(s) && s.closed && !Ended(s.phase)
    ensures Awake(s) && Load(TakeTurn(s)) < Load(s)
  {
  }

  lemma {:induction false} ClearRuns(s: Loop, events: seq<Event>)
    requires Ok(s) && Clear(s) && s.closed && NoOrders(events)
    ensures var t := Play(s, events);
            && Ok(t) && Clear(t) && t.closed && t.failed == s.failed
            && (Ended(t.phase) || Load(t) + Turns(events) <= Load(s))
  {
    OkPlay(s, events);
    if events != [] {
      var n := |events| - 1;
      ClearRuns(s, events[..n]);
      var u := Play(s, events[..n]);
      assert !events[n].Order?;
      if events[n].Turn? && !Ended(u.phase) { ClearTurn(u); }
    }
  }

  lemma ClearEnd(s: Loop)
    requires Ok(s) && Clear(s) && Ended(s.phase)
    ensures s.phase == if s.failed then ReaderFailed else Completed
  {
  }

  /** A loop left alone, on a flag that is neither paused nor cancelled, ends once the reader has ended:
      eight turns a waiting frame and nine more are enough for it to have written every frame, and then
      COMPLETE, unless the reader failed. */
  lemma UndisturbedCompletes(before: seq<Event>, after: seq<Event>)
    requires var s := Play(Start(), before);
             Clear(s) && s.closed && NoOrders(after) && Turns(after) >= 8 * |s.queue| + 9
    ensures var s, t := Play(Start(), before), Play(Play(Start(), before), after);
            && t.phase == (if s.failed then ReaderFailed else Completed)
            && t.wire == ChunkFrames(Offered(before)) + if s.failed then [] else [CompleteFrame]
  {
    var s := Play(Start(), before);
    StartOk();
    OkPlay(Start(), before);
    ClearRuns(s, after);
    ClearEnd(Play(s, after));
    PlayJoins(before, after);
    EndedWire(before + after);
    FramesConserved(before);
    OfferedWhenClosed(before, after);
  }

  lemma {:induction false} PlayJoins(before: seq<Event>, after: seq<Event>)
    ensures Play(Play(Start(), before), after) == Play(Start(), before + after)
  {
    if after == [] {
      assert before + after == before;
    } else {
      var n := |after| - 1;
      PlayJoins(before, after[..n]);
      assert (before + after)[..|before + after| - 1] == before + after[..n];
    }
  }

  lemma {:induction false} OfferedWhenClosed(before: seq<Event>, after: seq<Event>)
    requires ClosedIn(before)
    ensures Offered(before + after) == Offered(before) && ClosedIn(before + after)
  {
    var ok :| CloseQueue(ok) in before;
    assert CloseQueue(ok) in before + after;
    if after == [] {
      assert before + after == before;
    } else {
      var n := |after| - 1;
      OfferedWhenClosed(before, after[..n]);
      assert (before + after)[..|before + after| - 1] == before + after[..n];
    }
  }

  /** The turns to the next written chunk while a frame waits. */
  function TurnsToChunk(p: Phase): nat {
    if p.Writing? then 1 else TurnsAway(p)
  }

  lemma ChunkTurn(s: Loop)
    requires Ok(s) && Clear(s) && (s.queue != [] || s.phase.Writing?) && !Ended(s.phase) && !s.phase.Finishing?
    ensures var t := TakeTurn(s);
            && Awake(s)
            && if s.phase.Writing? then Written(t.wire) == Written(s.wire) + [s.phase.frame]
               else t.wire == s.wire && TurnsToChunk(t.phase) < TurnsToChunk(s.phase)
                    && (t.queue != [] || t.phase.Writing?) && !Ended(t.phase) && !t.phase.Finishing?
  {
    if s.phase.Writing? { WrittenSnoc(s.wire, ChunkFrame(s.phase.frame)); }
  }

  lemma {:induction false} ChunkComes(s: Loop, events: seq<Event>)
    requires Ok(s) && Clear(s) && (s.queue != [] || s.phase.Writing?) && NoOrders(events)
    ensures var t := Play(s, events);
            Ok(t) && Clear(t) && ChunkDue(s, t, Turns(events))
  {
    OkPlay(s, events);
    if events != [] {
      var n := |events| - 1;
      ChunkComes(s, events[..n]);
      var u := Play(s, events[..n]);
      assert !events[n].Order?;
      OkPlay(s, events[..n]);
      ChunkStep(s, u, events[n], Turns(events[..n]));
    }
  }

  /** Either the wire has grown, or the loop is that many turns nearer to writing. */
  ghost predicate ChunkDue(s: Loop, t: Loop, turns: nat) {
    || |Written(t.wire)| > |Written(s.wire)|
    || (t.wire == s.wire && (t.queue != [] || t.phase.Writing?) && !Ended(t.phase) && !t.phase.Finishing?
        && TurnsToChunk(t.phase) + turns <= TurnsToChunk(s.phase))
  }

  lemma ChunkStep(s: Loop, u: Loop, e: Event, turns: nat)
    requires Ok(u) && Clear(u) && ChunkDue(s, u, turns) && !e.Order?
    ensures Clear(Happen(u, e)) && ChunkDue(s, Happen(u, e), turns + if e.Turn? then 1 else 0)
  {
    GrowsOnly(u, e);
    if e.Turn? && |Written(u.wire)| <= |Written(s.wire)| { ChunkTurn(u); }
  }

  lemma GrowsOnly(s: Loop, e: Event)
    ensures |Written(Happen(s, e).wire)| >= |Written(s.wire)|
  {
    if e.Turn? { TurnGain(s); }
  }

  /** After resume(), wherever it finds an uncancelled loop with a frame to send, nine turns put a chunk on
      the wire, if no further command comes. */
  lemma ResumeGoesOn(before: seq<Event>, after: seq<Event>)
    requires var s := Play(Start(), before);
             Order(P.DoCancel) !in before && (s.queue != [] || s.phase.Writing?)
    requires NoOrders(after) && Turns(after) >= 9
    ensures |Written(Play(Happen(Play(Start(), before), Order(P.DoResume)), after).wire)|
            > |Written(Play(Start(), before).wire)|
  {
    var s := Happen(Play(Start(), before), Order(P.DoResume));
    StartOk();
    OkPlay(Start(), before);
    OkStep(Play(Start(), before), Order(P.DoResume));
    ClearAfterResume(before);
    ChunkComes(s, after);
  }

  lemma ClearAfterResume(before: seq<Event>)
    requires Order(P.DoCancel) !in before
    ensures Clear(Happen(Play(Start(), before), Order(P.DoResume)))
  {
    FlagIsCommands(before + [Order(P.DoResume)]);
    PlaySnoc(before, Order(P.DoResume));
    CommandsSnoc(before, P.DoResume);
  }

  /** The commands among the events, as a history of the flag. */
  function Commands(events: seq<Event>): seq<P.Event> {
    if events == [] then []
    else
      var before := Commands(events[..|events| - 1]);
      match events[|events| - 1]
      case Order(cmd) => before + [P.Order(cmd)]
      case _ => before
  }

  lemma CommandsSnoc(events: seq<Event>, cmd: P.Command)
    ensures Commands(events + [Order(cmd)]) == Commands(events) + [P.Order(cmd)]
  {
    assert (events + [Order(cmd)])[..|events|] == events;
  }

  lemma {:induction false} CancelInCommands(events: seq<Event>)
    ensures P.Order(P.DoCancel) in Commands(events) <==> Order(P.DoCancel) in events
  {
    if events != [] {
      var n := |events| - 1;
      CancelInCommands(events[..n]);
      assert events == events[..n] + [events[n]];
    }
  }

  /** The loop's flag is the flag after those commands. */
  lemma {:induction false} FlagOfPlay(events: seq<Event>)
    ensures Play(Start(), events).flag == P.Play(P.Begin(P.Clear), Commands(events)).flag
  {
    if events != [] {
      var n := |events| - 1;
      FlagOfPlay(events[..n]);
      FlagStep(Play(Start(), events[..n]), events[n]);
      if events[n].Order? { FlagSnoc(Commands(events[..n]), events[n].cmd); }
    }
  }

  lemma FlagStep(s: Loop, e: Event)
    ensures Happen(s, e).flag == if e.Order? then P.Obey(s.flag, e.cmd) else s.flag
  {
  }

  lemma FlagSnoc(h: seq<P.Event>, cmd: P.Command)
    ensures P.Play(P.Begin(P.Clear), h + [P.Order(cmd)]).flag == P.Obey(P.Play(P.Begin(P.Clear), h).flag, cmd)
  {
    assert (h + [P.Order(cmd)])[..|h|] == h;
  }

  lemma FlagIsCommands(events: seq<Event>)
    ensures var s := Play(Start(), events);
            && (s.flag.pause.value <==> P.PausedAfter(false, Commands(events)))
            && (s.flag.cancel.value <==> Order(P.DoCancel) in events)
  {
    FlagOfPlay(events);
    P.FlagFollowsCommands(P.Clear, Commands(events));
    CancelInCommands(events);
  }

  // ---- while paused ----

  lemma PausedStays(s: Loop, e: Event)
    requires s.flag.pause.value && e != Order(P.DoResume)
    ensures Happen(s, e).flag.pause.value
  {
  }

  /** The count since the pause is what the wire has gained. */
  lemma {:induction false} PausedRuns(s: Loop, events: seq<Event>)
    requires s.flag.pause.value && Order(P.DoResume) !in events
    ensures var t := Play(s, events);
            t.flag.pause.value && |Written(t.wire)| - |Written(s.wire)| == t.sincePause - s.sincePause
  {
    if events != [] {
      var n := |events| - 1;
      assert events == events[..n] + [events[n]];
      PausedRuns(s, events[..n]);
      GainCounted(Play(s, events[..n]), events[n]);
      PausedStays(Play(s, events[..n]), events[n]);
    }
  }

  /** What one turn adds to the wire. */
  lemma TurnGain(s: Loop)
    ensures |Written(TakeTurn(s).wire)| == |Written(s.wire)| + if s.phase.Writing? then 1 else 0
  {
    if s.phase.Writing? {
      WrittenSnoc(s.wire, ChunkFrame(s.phase.frame));
    } else {
      WrittenSnoc(s.wire, CompleteFrame);
      WrittenSnoc(s.wire, ErrorFrame);
    }
  }

  lemma GainCounted(s: Loop, e: Event)
    ensures var t, gain := Happen(s, e), |Written(Happen(s, e).wire)| - |Written(s.wire)|;
            && gain >= 0
            && (s.flag.pause.value ==> gain == t.sincePause - s.sincePause)
            && (s.flag.cancel.value ==> gain == t.sinceCancel - s.sinceCancel)
  {
    if e.Turn? { TurnGain(s); }
  }

  /** From pause() to the next resume() the wire gains at most one CHUNK. */
  lemma PauseHolds(before: seq<Event>, after: seq<Event>)
    requires Order(P.DoResume) !in after
    ensures var s := Play(Start(), before);
            |Written(Play(Happen(s, Order(P.DoPause)), after).wire)| <= |Written(s.wire)| + 1
  {
    var s := Happen(Play(Start(), before), Order(P.DoPause));
    StartOk();
    OkPlay(Start(), before);
    OkStep(Play(Start(), before), Order(P.DoPause));
    FlagIsCommands(before + [Order(P.DoPause)]);
    PlaySnoc(before, Order(P.DoPause));
    CommandsSnoc(before, P.DoPause);
    OkPlay(s, after);
    PausedRuns(s, after);
  }

  /** A reader task that fails ends the transfer with neither COMPLETE nor ERROR: the chunks it had read
      are written, and nothing else unless the loop is cancelled. */
  lemma ReadErrorIsSilent(events: seq<Event>)
    ensures var s := Play(Start(), events);
            && (s.failed ==> CompleteFrame !in s.wire)
            && (s.phase == ReaderFailed ==> s.failed && AllChunks(s.wire))
            && (s.failed && !s.flag.cancel.value ==> AllChunks(s.wire))
  {
    StartOk();
    OkPlay(Start(), events);
    LastFrame(Play(Start(), events));
  }

  // ---- after cancel() ----

  /** The turns a cancelled loop still takes at most. */
  function Rank(p: Phase): nat {
    match p
    case PollData => 7
    case Writing(_) => 6
    case Waiting(w) =>
      (match w.phase
       case PollPause => 6
       case SubscribePause => 5
       case CheckPause => 5
       case Blocked => 5
       case SubscribeCancel => 4
       case PollCancel => 4
       case CheckCancel => 3
       case Recheck => 3
       case Returned(false) => 3
       case Returned(true) => 2)
    case Parked => 3
    case PollCancel => 2
    case Finishing => 1
    case Aborting => 1
    case Completed => 0
    case Aborted => 0
    case ReaderFailed => 0
  }

  predicate Ended(p: Phase) {
    p.Completed? || p.Aborted? || p.ReaderFailed?
  }

  lemma RankAtMostSeven(p: Phase)
    ensures Rank(p) <= 7 && (Rank(p) == 0 <==> Ended(p))
  {
  }

  function Turns(events: seq<Event>): nat {
    if events == [] then 0
    else Turns(events[..|events| - 1]) + if events[|events| - 1].Turn? then 1 else 0
  }

  /** A cancelled loop that has not ended can take a turn, paused or not and whether or not there is data,
      and every turn brings it nearer to its end. */
  lemma CancelledTurn(s: Loop)
    requires WaitOk(s) && s.flag.cancel.value && Rank(s.phase) > 0
    ensures Awake(s) && Rank(TakeTurn(s).phase) < Rank(s.phase)
  {
  }

  lemma OtherEventsKeepRank(s: Loop, e: Event)
    requires s.flag.cancel.value
    ensures Happen(s, e).flag.cancel.value
    ensures !e.Turn? ==> Happen(s, e).phase == s.phase && Happen(s, e).cancelledLate == s.cancelledLate
  {
  }

  lemma {:induction false} CancelledRuns(s: Loop, events: seq<Event>)
    requires WaitOk(s) && s.flag.cancel.value
    ensures var t := Play(s, events);
            && WaitOk(t) && t.flag.cancel.value && t.cancelledLate == s.cancelledLate
            && (Turns(events) >= Rank(s.phase) ==> Rank(t.phase) == 0)
            && (Rank(t.phase) > 0 ==> Rank(t.phase) + Turns(events) <= Rank(s.phase))
  {
    if events != [] {
      var n := |events| - 1;
      CancelledRuns(s, events[..n]);
      var u := Play(s, events[..n]);
      WaitStep(u, events[n]);
      OtherEventsKeepRank(u, events[n]);
      if events[n].Turn? && Rank(u.phase) > 0 { CancelledTurn(u); }
    }
  }

  ghost predicate AllChunks(wire: seq<Message>) {
    forall k :: 0 <= k < |wire| ==> wire[k].ChunkFrame?
  }

  lemma LastFrame(s: Loop)
    requires Ok(s)
    ensures s.phase.Aborted? <==> |s.wire| > 0 && AllChunks(s.wire[..|s.wire| - 1]) && s.wire[|s.wire| - 1] == ErrorFrame
    ensures s.phase.Completed? <==> CompleteFrame in s.wire
    ensures !s.phase.Aborted? && !s.phase.Completed? <==> AllChunks(s.wire)
  {
    if CompleteFrame in s.wire {
      var k :| 0 <= k < |s.wire| && s.wire[k] == CompleteFrame;
    }
    forall k | 0 <= k < |s.wire| && (k < |s.wire| - 1 || !(s.phase.Aborted? || s.phase.Completed?))
      ensures s.wire[k].ChunkFrame?
    {
      assert s.wire[k] != CompleteFrame && s.wire[k] != ErrorFrame;
    }
  }

  lemma {:induction false} CancelledGains(s: Loop, events: seq<Event>)
    requires s.flag.cancel.value
    ensures var t := Play(s, events);
            t.flag.cancel.value && |Written(t.wire)| - |Written(s.wire)| == t.sinceCancel - s.sinceCancel
  {
    if events != [] {
      var n := |events| - 1;
      CancelledGains(s, events[..n]);
      GainCounted(Play(s, events[..n]), events[n]);
      OtherEventsKeepRank(Play(s, events[..n]), events[n]);
    }
  }

  /** After a cancel() that does not come late, whatever commands and data follow: the wire gains at most one
      CHUNK, COMPLETE never; and seven turns of the loop, which nothing can block, are enough to end
      it with chunks and then exactly one ERROR frame on the wire. */
  lemma CancelStops(before: seq<Event>, after: seq<Event>)
    requires var s := Play(Start(), before); !s.flag.cancel.value && !Late(s)
    ensures var t := Play(Happen(Play(Start(), before), Order(P.DoCancel)), after);
            && |Written(t.wire)| <= |Written(Play(Start(), before).wire)| + 1 && CompleteFrame !in t.wire
            && (t.phase != Aborted ==> Awake(t) && AllChunks(t.wire))
            && (Turns(after) >= 7 ==> t.phase == Aborted)
            && (t.phase == Aborted ==> |t.wire| > 0 && AllChunks(t.wire[..|t.wire| - 1])
                                       && t.wire[|t.wire| - 1] == ErrorFrame)
  {
    StartOk();
    OkPlay(Start(), before);
    var s := Happen(Play(Start(), before), Order(P.DoCancel));
    OkStep(Play(Start(), before), Order(P.DoCancel));
    OkPlay(s, after);
    CancelledRuns(s, after);
    CancelledGains(s, after);
    var t := Play(s, after);
    LastFrame(t);
    RankAtMostSeven(s.phase);
    RankAtMostSeven(t.phase);
    if Rank(t.phase) > 0 { CancelledTurn(t); }
  }

  /** Whenever cancel() falls, the loop is never blocked afterwards, and seven turns end it. */
  lemma CancelledNeverBlocks(before: seq<Event>, after: seq<Event>)
    ensures var t := Play(Happen(Play(Start(), before), Order(P.DoCancel)), after);
            && (Ended(t.phase) || Awake(t))
            && (Turns(after) >= 7 ==> Ended(t.phase))
  {
    StartOk();
    OkPlay(Start(), before);
    var s := Happen(Play(Start(), before), Order(P.DoCancel));
    WaitStep(Play(Start(), before), Order(P.DoCancel));
    RankAtMostSeven(s.phase);
    CancelledRuns(s, after);
    var t := Play(s, after);
    RankAtMostSeven(t.phase);
    if Rank(t.phase) > 0 { CancelledTurn(t); }
  }

  ghost predicate EndsComplete(s: Loop, after: seq<Event>) {
    Play(s, after).phase == Completed
  }

  lemma {:induction false} FailureStays(s: Loop, events: seq<Event>)
    requires Ok(s) && s.failed
    ensures Play(s, events).failed && Play(s, events).phase != Completed
  {
    OkPlay(s, events);
    if events != [] {
      var n := |events| - 1;
      FailureStays(s, events[..n]);
      OkPlay(s, events[..n]);
      ReaderStep(Play(s, events[..n]), events[n]);
    }
  }

  /** The exact condition under which a cancelled transfer can still be reported complete: that the
      cancel() comes late, and the reader task has not failed. */
  lemma CanCompleteExactlyWhenLate(before: seq<Event>)
    requires !Play(Start(), before).flag.cancel.value
    ensures (exists after :: EndsComplete(Happen(Play(Start(), before), Order(P.DoCancel)), after))
            <==> Late(Play(Start(), before)) && !Play(Start(), before).failed
  {
    var s := Play(Start(), before);
    var t := Happen(s, Order(P.DoCancel));
    StartOk();
    OkPlay(Start(), before);
    OkStep(s, Order(P.DoCancel));
    if Late(s) && !s.failed {
      var after := LateRun(t);
      assert EndsComplete(t, after);
    } else {
      forall after ensures !EndsComplete(t, after) {
        if s.failed {
          FailureStays(t, after);
        } else {
          CancelStops(before, after);
          OkPlay(t, after);
          LastFrame(Play(t, after));
        }
      }
    }
  }

  lemma LateRun(s: Loop) returns (after: seq<Event>)
    requires ReaderOk(s) && Late(s) && !s.failed
    ensures EndsComplete(s, after)
  {
    var close := CloseQueue(true);
    after := if s.phase.Completed? then [] else if s.phase.Finishing? then [Turn] else [close, Turn, Turn];
    if s.phase.Finishing? {
      assert [Turn][..0] == [];
    } else if s.phase.PollData? {
      assert [close, Turn, Turn][..2] == [close, Turn] && [close, Turn][..1] == [close] && [close][..0] == [];
      assert Play(s, [close]) == Happen(s, close);
      assert Play(s, [close, Turn]) == Happen(Happen(s, close), Turn);
    }
  }

  lemma PlaySnoc(events: seq<Event>, e: Event)
    ensures Play(Start(), events + [e]) == Happen(Play(Start(), events), e)
  {
    assert (events + [e])[..|events|] == events;
  }

  /** The loop does come between its polls with nothing queued, for instance when the file is empty. */
  lemma LateWindowOccurs() returns (events: seq<Event>)
    ensures var s := Play(Start(), events);
            Late(s) && s.phase == PollData && s.queue == [] && s.closed && !s.failed && !s.flag.cancel.value
  {
    events := [];
    PlaySnoc(events, CloseQueue(true));
    events := events + [CloseQueue(true)];
    var i := 0;
    while i < 6
      invariant 0 <= i <= 6
      invariant var s := Play(Start(), events);
                && s.flag == P.Clear && s.queue == [] && s.closed && !s.failed
                && s.phase == if i == 0 then Waiting(P.Call)
                              else if i == 1 then Waiting(P.Waiter(P.SubscribeCancel, 0, 0))
                              else if i == 2 then Waiting(P.Waiter(P.CheckCancel, 0, 0))
                              else if i == 3 then Waiting(P.Waiter(P.CheckPause, 0, 0))
                              else if i == 4 then Waiting(P.Waiter(P.Returned(false), 0, 0))
                              else if i == 5 then PollCancel else PollData
    {
      PlaySnoc(events, Turn);
      events := events + [Turn];
      i := i + 1;
    }
  }
}
