/**
 One attempt to receive a file over the local network: the decision to resume, the loop that reads
 frames, the writer task that decrypts and appends, and the verification that keeps or deletes the
 file.  The loop and the writer interleave freely; a channel of bounded capacity joins them.
 */
module LanReceive {
  import opened Basics
  import opened Aead

  const BLOCK: nat := 4 * 1024 * 1024
  const CHANNEL_CAPACITY: nat := 32

  type Block = Sealed<Bytes>

  // ---- where to start ----

  /** The offset announced to the sender and whether the writer appends. */
  function ResumePoint(leftover: Option<Bytes>, fileSize: nat, force: bool): (nat, bool) {
    var existing := if leftover.Some? then |leftover.value| else 0;
    if !force && existing > 0 && existing < fileSize then ((existing / BLOCK) * BLOCK, true) else (0, false)
  }

  /** `offset` is the receiver's own resume offset, `start` the one its sender read from the reply. */
  datatype Session = Session(key: Key, prefix: Bytes, checksum: Digest, offset: nat, isResume: bool, start: nat)

  // ---- state ----

  datatype Ending = Finished | Broke | Cancelled

  datatype Loop = Receiving | Closing(how: Ending) | Ended(ok: bool)

  datatype Writer = NotOpened | Open | Dead | Done

  datatype Reply = Complete | CancelledError | MismatchError

  /** `stray` says that removing the file failed, which the code ignores.  History: `received` are the
      blocks forwarded to the writer, `plain` what it has decrypted. */
  datatype State = State(disk: Option<Bytes>, writer: Writer, queue: seq<(nat, Block)>, blockIndex: nat,
                         loop: Loop, sent: seq<Reply>, announced: bool, stray: bool, received: seq<Block>, plain: seq<Bytes>)

  function Init(s: Session, leftover: Option<Bytes>): State {
    State(leftover, NotOpened, [], s.offset / BLOCK, Receiving, [], false, false, [], [])
  }

  /** A frame or the lack of one, as the receive loop sees it. */
  datatype Message =
    | Chunk(block: Block)
    | Malformed                       // empty, short, or of an unknown tag
    | EndOfFile                       // the sender's COMPLETE
    | PeerError(cancelled: bool)
    | NetworkError

  /** `ok`, `verifies` and `removes` tell whether the file system plays along; `delivered`, whether the socket does. */
  datatype Step =
    | OpenFile(ok: bool) | WriteBlock(ok: bool) | CloseFile(ok: bool)
    | Receive(message: Message) | CancelHere
    | Conclude(verifies: bool, delivered: bool, removes: bool)

  predicate Enabled(s: State, step: Step) {
    match step
    case OpenFile(_) => s.writer == NotOpened
    case WriteBlock(_) => s.writer == Open && s.queue != []
    case CloseFile(_) => s.writer == Open && s.queue == [] && s.loop != Receiving
    case Receive(m) => s.loop == Receiving && (m.Chunk? && s.writer != Dead ==> |s.queue| < CHANNEL_CAPACITY)
    case CancelHere => s.loop == Receiving
    case Conclude(_, _, _) => s.loop.Closing? && (s.writer == Dead || s.writer == Done)
  }

  function OnMessage(s: State, m: Message): State {
    match m
    case Chunk(block) =>
      if s.writer == Dead then s.(loop := Closing(Broke))
      else s.(queue := s.queue + [(s.blockIndex, block)], blockIndex := s.blockIndex + 1, received := s.received + [block])
    case Malformed => s.(loop := Closing(Broke))
    case EndOfFile => s.(loop := Closing(Finished))
    case PeerError(cancelled) => s.(loop := Closing(if cancelled then Cancelled else Broke))
    case NetworkError => s.(loop := Closing(Broke))
  }

  function Remove(s: State, removes: bool): State {
    if removes then s.(disk := None) else s.(stray := s.disk.Some?)
  }

  /** What happens to the file once the loop is over and the writer has stopped. */
  function AtTheEnd(x: Session, s: State, how: Ending, verifies: bool, delivered: bool, removes: bool): State {
    var t := s.(loop := Ended(false));
    match how
    case Cancelled => Remove(t, removes).(sent := s.sent + [CancelledError])
    case Broke => Remove(t, removes)
    case Finished =>
      if s.writer == Dead || s.disk == None || !verifies then Remove(t, removes)
      else if Digest(s.disk.value) != x.checksum then Remove(t, removes).(sent := s.sent + [MismatchError])
      else if delivered then s.(loop := Ended(true), sent := s.sent + [Complete], announced := true)
      else t
  }

  function Apply(x: Session, s: State, step: Step): State
    requires Enabled(s, step)
  {
    match step
    case OpenFile(ok) =>
      if !ok || (x.isResume && s.disk == None) then s.(writer := Dead)
      else s.(writer := Open, disk := if x.isResume then s.disk else Some([]))
    case WriteBlock(ok) =>
      var (index, block) := s.queue[0];
      var t := s.(queue := s.queue[1..]);
      (match Decrypt<Bytes>(x.key, BuildNonce(x.prefix, index), block)
       case None => t.(writer := Dead)
       case Some(data) =>
         if ok && s.disk.Some? then t.(disk := Some(s.disk.value + data), plain := s.plain + [data])
         else t.(writer := Dead))
    case CloseFile(ok) => s.(writer := if ok then Done else Dead)
    case Receive(m) => OnMessage(s, m)
    case CancelHere => s.(loop := Closing(Cancelled))
    case Conclude(verifies, delivered, removes) => AtTheEnd(x, s, s.loop.how, verifies, delivered, removes)
  }

  /** Steps taken from an initial state; a step that is not enabled does not happen. */
  function Next(x: Session, s: State, step: Step): State {
    if Enabled(s, step) then Apply(x, s, step) else s
  }

  function Play(x: Session, start: State, steps: seq<Step>): State {
    if steps == [] then start else Next(x, Play(x, start, steps[..|steps| - 1]), steps[|steps| - 1])
  }

  // ---- what every run keeps ----

  function FirstBlock(x: Session): nat {
    x.offset / BLOCK
  }

  /** Block j of the session was opened with the nonce of counter `FirstBlock + j`. */
  ghost predicate OpenedAs(x: Session, received: seq<Block>, plain: seq<Bytes>, j: nat) {
    && j < |received| && j < |plain|
    && Decrypt(x.key, BuildNonce(x.prefix, FirstBlock(x) + j), received[j]) == Some(plain[j])
  }

  /** The queue holds the blocks not yet opened, each with the counter of its position. */
  ghost predicate QueuedAs(x: Session, s: State, k: nat) {
    && k < |s.queue| && |s.plain| + k < |s.received|
    && s.queue[k] == (FirstBlock(x) + |s.plain| + k, s.received[|s.plain| + k])
  }

  ghost predicate Lockstep(x: Session, s: State) {
    && s.blockIndex == FirstBlock(x) + |s.received|
    && (forall j: nat :: j < |s.plain| ==> OpenedAs(x, s.received, s.plain, j))
    && (s.writer == NotOpened ==> s.plain == [])
    && (s.writer != Dead ==> |s.plain| + |s.queue| == |s.received| && forall k: nat :: k < |s.queue| ==> QueuedAs(x, s, k))
  }

  /** While the loop runs or closes, the file is what was there plus what has been decrypted. */
  ghost predicate DiskOk(x: Session, leftover: Option<Bytes>, s: State) {
    !s.loop.Ended? ==>
      && (s.writer == NotOpened ==> s.disk == leftover)
      && (s.writer == Open || s.writer == Done ==>
            (x.isResume ==> leftover.Some?) && s.disk == Some(Base(x, leftover) + Flatten(s.plain)))
      && (s.writer == Done ==> s.queue == [] && s.loop != Receiving)
  }

  function Base(x: Session, leftover: Option<Bytes>): Bytes {
    if x.isResume && leftover.Some? then leftover.value else []
  }

  ghost predicate EndOk(x: Session, s: State) {
    && (s.loop.Ended? ==> s.disk == None || Digest(s.disk.value) == x.checksum || s.stray)
    && (s.stray ==> s.loop == Ended(false))
    && (Complete in s.sent || s.announced || s.loop == Ended(true) ==>
          s.loop == Ended(true) && s.disk.Some? && Digest(s.disk.value) == x.checksum)
    && (s.loop.Ended? ==> s.writer == Dead || s.writer == Done)
  }

  lemma LockstepWrite(x: Session, s: State, ok: bool)
    requires Lockstep(x, s) && Enabled(s, WriteBlock(ok))
    ensures Lockstep(x, Apply(x, s, WriteBlock(ok)))
  {
    var t := Apply(x, s, WriteBlock(ok));
    assert QueuedAs(x, s, 0);
    assert t.received == s.received && t.queue == s.queue[1..] && t.blockIndex == s.blockIndex;
    forall j: nat | j < |t.plain| ensures OpenedAs(x, t.received, t.plain, j) {
      if j < |s.plain| { assert OpenedAs(x, s.received, s.plain, j); }
    }
    forall k: nat | t.writer != Dead && k < |t.queue| ensures QueuedAs(x, t, k) {
      assert QueuedAs(x, s, k + 1);
    }
  }

  lemma LockstepReceive(x: Session, s: State, m: Message)
    requires Lockstep(x, s) && Enabled(s, Receive(m))
    ensures Lockstep(x, OnMessage(s, m))
  {
    var t := OnMessage(s, m);
    assert t.plain == s.plain && t.writer == s.writer;
    forall j: nat | j < |t.plain| ensures OpenedAs(x, t.received, t.plain, j) {
      assert OpenedAs(x, s.received, s.plain, j);
    }
    forall k: nat | t.writer != Dead && k < |t.queue| ensures QueuedAs(x, t, k) {
      if k < |s.queue| { assert QueuedAs(x, s, k); }
    }
  }

  /** Steps that touch neither the queue nor the history. */
  lemma LockstepOther(x: Session, s: State, t: State)
    requires Lockstep(x, s)
    requires t.queue == s.queue && t.received == s.received && t.plain == s.plain && t.blockIndex == s.blockIndex
    requires (t.writer == s.writer || s.writer == NotOpened || s.writer == Open) && (t.writer == NotOpened ==> s.writer == NotOpened)
    ensures Lockstep(x, t)
  {
    forall k: nat | t.writer != Dead && k < |t.queue| ensures QueuedAs(x, t, k) { assert QueuedAs(x, s, k); }
  }

  lemma LockstepStep(x: Session, s: State, step: Step)
    requires Lockstep(x, s) && Enabled(s, step)
    ensures Lockstep(x, Apply(x, s, step))
  {
    match step
    case WriteBlock(ok) => LockstepWrite(x, s, ok);
    case Receive(m) => LockstepReceive(x, s, m);
    case _ =>
      OtherSteps(x, s, step);
      LockstepOther(x, s, Apply(x, s, step));
  }

  lemma OtherSteps(x: Session, s: State, step: Step)
    requires Enabled(s, step) && !step.WriteBlock? && !step.Receive?
    ensures var t := Apply(x, s, step);
            && t.queue == s.queue && t.received == s.received && t.plain == s.plain && t.blockIndex == s.blockIndex
            && (t.writer == s.writer || s.writer == NotOpened || s.writer == Open)
            && (t.writer == NotOpened ==> s.writer == NotOpened)
  {
  }

  lemma DiskWrite(x: Session, leftover: Option<Bytes>, s: State, ok: bool)
    requires DiskOk(x, leftover, s) && Enabled(s, WriteBlock(ok))
    ensures DiskOk(x, leftover, Apply(x, s, WriteBlock(ok)))
  {
    var t := Apply(x, s, WriteBlock(ok));
    if t.writer == Open {
      var data := t.plain[|s.plain|];
      FlattenSnoc(s.plain, data);
      assert Base(x, leftover) + Flatten(s.plain) + data == Base(x, leftover) + (Flatten(s.plain) + data);
    }
  }

  lemma DiskStep(x: Session, leftover: Option<Bytes>, s: State, step: Step)
    requires Lockstep(x, s) && DiskOk(x, leftover, s) && EndOk(x, s) && Enabled(s, step)
    ensures DiskOk(x, leftover, Apply(x, s, step)) && EndOk(x, Apply(x, s, step))
  {
    var t := Apply(x, s, step);
    match step
    case OpenFile(ok) =>
      assert Base(x, leftover) + [] == Base(x, leftover);
    case WriteBlock(ok) => DiskWrite(x, leftover, s, ok);
    case _ =>
  }

  lemma {:induction false} PlayOk(x: Session, leftover: Option<Bytes>, steps: seq<Step>)
    ensures var s := Play(x, Init(x, leftover), steps);
            Lockstep(x, s) && DiskOk(x, leftover, s) && EndOk(x, s)
  {
    if steps != [] {
      var n := |steps| - 1;
      PlayOk(x, leftover, steps[..n]);
      var s := Play(x, Init(x, leftover), steps[..n]);
      if Enabled(s, steps[n]) {
        LockstepStep(x, s, steps[n]);
        DiskStep(x, leftover, s, steps[n]);
      }
    }
  }

  /** However the attempt goes, with whatever messages and failures: once it has ended there is no file,
      or a file with the announced checksum, or one that could not be removed after a reported failure;
      and COMPLETE is sent, and completion announced, only with a file of that checksum on disk. */
  lemma NoBadFileLeft(x: Session, leftover: Option<Bytes>, steps: seq<Step>)
    ensures var s := Play(x, Init(x, leftover), steps);
            && (s.loop.Ended? ==> s.disk == None || Digest(s.disk.value) == x.checksum || s.stray)
            && (s.stray ==> s.loop == Ended(false))
            && (Complete in s.sent || s.announced ==> s.disk.Some? && Digest(s.disk.value) == x.checksum)
  {
    PlayOk(x, leftover, steps);
  }

  // ---- an honest sender ----

  /** The frames of a sender that cut its data into `blocks` and numbers them from its own counter. */
  function SealFrom(x: Session, blocks: seq<Bytes>, k: nat): Block
    requires k < |blocks|
  {
    Encrypt(x.key, BuildNonce(x.prefix, x.start / BLOCK + k), blocks[k])
  }

  ghost predicate SealedAt(x: Session, blocks: seq<Bytes>, received: seq<Block>, k: nat) {
    k < |received| && k < |blocks| && received[k] == SealFrom(x, blocks, k)
  }

  /** Step `i` of the run is what an honest sender and an undisturbed receiver allow: chunks in order,
      the end of file after the last one, and no failure of disk, network or user. */
  ghost predicate Undisturbed(x: Session, blocks: seq<Bytes>, s: State, step: Step) {
    match step
    case OpenFile(ok) => ok
    case WriteBlock(ok) => ok
    case CloseFile(ok) => ok
    case Conclude(verifies, delivered, removes) => verifies && delivered && removes
    case CancelHere => false
    case Receive(m) =>
      if |s.received| < |blocks| then m == Chunk(SealFrom(x, blocks, |s.received|)) else m == EndOfFile
  }

  ghost predicate HonestRun(x: Session, leftover: Option<Bytes>, blocks: seq<Bytes>, steps: seq<Step>) {
    steps == []
    || (var n := |steps| - 1;
        HonestRun(x, leftover, blocks, steps[..n])
        && Enabled(Play(x, Init(x, leftover), steps[..n]), steps[n])
        && Undisturbed(x, blocks, Play(x, Init(x, leftover), steps[..n]), steps[n]))
  }

  /** Both ends start at the same offset, and the file to append to is there. */
  ghost predicate Agreed(x: Session, leftover: Option<Bytes>) {
    x.start == x.offset && (x.isResume ==> leftover.Some?)
  }

  ghost predicate Honest(x: Session, blocks: seq<Bytes>, s: State) {
    && s.writer != Dead
    && |s.received| <= |blocks|
    && (forall k: nat :: k < |s.received| ==> SealedAt(x, blocks, s.received, k))
    && (s.loop != Receiving ==> |s.received| == |blocks|)
    && (s.loop.Closing? ==> s.loop.how == Finished)
    && (s.loop.Ended? ==> s.writer == Done)
  }

  /** Opened blocks are the sent ones: the counters agree without looking at the wire index. */
  lemma OpenedAreSent(x: Session, blocks: seq<Bytes>, s: State)
    requires Lockstep(x, s) && Honest(x, blocks, s) && x.start == x.offset
    ensures |s.plain| <= |blocks| && s.plain == blocks[..|s.plain|]
  {
    forall j: nat | j < |s.plain| ensures j < |blocks| && s.plain[j] == blocks[j] {
      assert OpenedAs(x, s.received, s.plain, j);
      assert SealedAt(x, blocks, s.received, j);
    }
    if s.plain != [] { assert OpenedAs(x, s.received, s.plain, |s.plain| - 1); }
  }

  lemma HonestStep(x: Session, leftover: Option<Bytes>, blocks: seq<Bytes>, s: State, step: Step)
    requires Lockstep(x, s) && DiskOk(x, leftover, s) && EndOk(x, s) && Honest(x, blocks, s)
    requires Agreed(x, leftover)
    requires Enabled(s, step) && Undisturbed(x, blocks, s, step)
    ensures Honest(x, blocks, Apply(x, s, step))
  {
    var t := Apply(x, s, step);
    match step
    case WriteBlock(ok) =>
      assert QueuedAs(x, s, 0);
      assert SealedAt(x, blocks, s.received, |s.plain|);
    case Receive(m) =>
      forall k: nat | k < |t.received| ensures SealedAt(x, blocks, t.received, k) {
        if k < |s.received| { assert SealedAt(x, blocks, s.received, k); }
      }
    case _ =>
  }

  /** The verdict on an honest run depends on the appended whole alone. */
  ghost predicate Verdict(x: Session, leftover: Option<Bytes>, blocks: seq<Bytes>, s: State) {
    s.loop.Ended? ==>
      var whole := Base(x, leftover) + Flatten(blocks);
      if Digest(whole) == x.checksum then s.disk == Some(whole) && s.loop == Ended(true) && s.announced
      else s.disk == None && s.loop == Ended(false) && MismatchError in s.sent
  }

  lemma VerdictStep(x: Session, leftover: Option<Bytes>, blocks: seq<Bytes>, s: State, step: Step)
    requires Lockstep(x, s) && DiskOk(x, leftover, s) && EndOk(x, s) && Honest(x, blocks, s) && Agreed(x, leftover)
    requires Verdict(x, leftover, blocks, s)
    requires Enabled(s, step) && Undisturbed(x, blocks, s, step)
    ensures Verdict(x, leftover, blocks, Apply(x, s, step))
  {
    if step.Conclude? {
      OpenedAreSent(x, blocks, s);
      assert blocks[..|s.plain|] == blocks;
    }
  }

  lemma {:induction false} HonestRunOk(x: Session, leftover: Option<Bytes>, blocks: seq<Bytes>, steps: seq<Step>)
    requires HonestRun(x, leftover, blocks, steps) && Agreed(x, leftover)
    ensures var s := Play(x, Init(x, leftover), steps);
            Honest(x, blocks, s) && Verdict(x, leftover, blocks, s)
  {
    if steps != [] {
      var n := |steps| - 1;
      HonestRunOk(x, leftover, blocks, steps[..n]);
      PlayOk(x, leftover, steps[..n]);
      var s := Play(x, Init(x, leftover), steps[..n]);
      HonestStep(x, leftover, blocks, s, steps[n]);
      VerdictStep(x, leftover, blocks, s, steps[n]);
    }
  }

  /** Sender and receiver counters stay in lockstep: at every moment of an honest run what has been
      decrypted is exactly the first blocks sent, each under the nonce that sealed it. */
  lemma CountersInLockstep(x: Session, leftover: Option<Bytes>, blocks: seq<Bytes>, steps: seq<Step>)
    requires HonestRun(x, leftover, blocks, steps) && Agreed(x, leftover)
    ensures var s := Play(x, Init(x, leftover), steps);
            && |s.plain| <= |blocks| && s.plain == blocks[..|s.plain|]
            && s.writer != Dead
  {
    HonestRunOk(x, leftover, blocks, steps);
    PlayOk(x, leftover, steps);
    OpenedAreSent(x, blocks, Play(x, Init(x, leftover), steps));
  }

  function Taken(s: State): nat {
    |s.received| + |s.plain| + (if s.writer == NotOpened then 0 else 1) + (if s.writer == Done then 1 else 0)
    + (if s.loop == Receiving then 0 else 1) + (if s.loop.Ended? then 1 else 0)
  }

  /** Everything an honest session can do has a place in the count. */
  lemma TakenBound(x: Session, leftover: Option<Bytes>, blocks: seq<Bytes>, s: State)
    requires Lockstep(x, s) && DiskOk(x, leftover, s) && EndOk(x, s) && Honest(x, blocks, s)
    requires |s.plain| <= |blocks| && (s.loop.Ended? ==> |s.plain| == |blocks|)
    ensures Taken(s) <= 2 * |blocks| + 4 && (Taken(s) == 2 * |blocks| + 4 <==> s.loop.Ended?)
  {
  }

  /** An ended honest session has opened every block. */
  ghost predicate AllOpened(blocks: seq<Bytes>, s: State) {
    s.writer == Done ==> |s.plain| == |blocks|
  }

  lemma AllOpenedStep(x: Session, leftover: Option<Bytes>, blocks: seq<Bytes>, s: State, step: Step)
    requires Lockstep(x, s) && Honest(x, blocks, s) && AllOpened(blocks, s)
    requires Enabled(s, step) && Undisturbed(x, blocks, s, step)
    ensures AllOpened(blocks, Apply(x, s, step))
  {
  }

  lemma {:induction false} HonestRunOpens(x: Session, leftover: Option<Bytes>, blocks: seq<Bytes>, steps: seq<Step>)
    requires HonestRun(x, leftover, blocks, steps) && Agreed(x, leftover)
    ensures AllOpened(blocks, Play(x, Init(x, leftover), steps))
  {
    if steps != [] {
      var n := |steps| - 1;
      HonestRunOpens(x, leftover, blocks, steps[..n]);
      HonestRunOk(x, leftover, blocks, steps[..n]);
      PlayOk(x, leftover, steps[..n]);
      AllOpenedStep(x, leftover, blocks, Play(x, Init(x, leftover), steps[..n]), steps[n]);
    }
  }

  lemma {:induction false} HonestRunCounts(x: Session, leftover: Option<Bytes>, blocks: seq<Bytes>, steps: seq<Step>)
    requires HonestRun(x, leftover, blocks, steps) && Agreed(x, leftover)
    ensures |steps| == Taken(Play(x, Init(x, leftover), steps))
  {
    if steps != [] {
      var n := |steps| - 1;
      HonestRunCounts(x, leftover, blocks, steps[..n]);
      HonestRunOk(x, leftover, blocks, steps);
      PlayOk(x, leftover, steps[..n]);
      TakenGrows(x, leftover, blocks, Play(x, Init(x, leftover), steps[..n]), steps[n]);
    }
  }

  /** An honest run takes two steps for each block and four more, and no others. */
  lemma HonestRunLength(x: Session, leftover: Option<Bytes>, blocks: seq<Bytes>, steps: seq<Step>)
    requires HonestRun(x, leftover, blocks, steps) && Agreed(x, leftover)
    ensures var s := Play(x, Init(x, leftover), steps);
            |steps| == Taken(s) <= 2 * |blocks| + 4 && (|steps| == 2 * |blocks| + 4 <==> s.loop.Ended?)
  {
    var s := Play(x, Init(x, leftover), steps);
    HonestRunCounts(x, leftover, blocks, steps);
    HonestRunOk(x, leftover, blocks, steps);
    HonestRunOpens(x, leftover, blocks, steps);
    PlayOk(x, leftover, steps);
    OpenedAreSent(x, blocks, s);
    TakenBound(x, leftover, blocks, s);
  }

  lemma TakenGrows(x: Session, leftover: Option<Bytes>, blocks: seq<Bytes>, s: State, step: Step)
    requires Lockstep(x, s) && Enabled(s, step) && Undisturbed(x, blocks, s, step)
    requires Apply(x, s, step).writer != Dead
    ensures Taken(Apply(x, s, step)) == Taken(s) + 1
  {
  }

  /** An honest run that has not ended can always go on. */
  lemma HonestRunGoesOn(x: Session, leftover: Option<Bytes>, blocks: seq<Bytes>, steps: seq<Step>)
    requires HonestRun(x, leftover, blocks, steps) && Agreed(x, leftover)
    ensures var s := Play(x, Init(x, leftover), steps);
            !s.loop.Ended? ==> exists step :: Enabled(s, step) && Undisturbed(x, blocks, s, step)
  {
    HonestRunOk(x, leftover, blocks, steps);
    var s := Play(x, Init(x, leftover), steps);
    if !s.loop.Ended? {
      var step :=
        if s.writer == NotOpened then OpenFile(true)
        else if s.queue != [] && s.writer == Open then WriteBlock(true)
        else if s.loop == Receiving then
          Receive(if |s.received| < |blocks| then Chunk(SealFrom(x, blocks, |s.received|)) else EndOfFile)
        else if s.writer == Open then CloseFile(true) else Conclude(true, true, true);
      PlayOk(x, leftover, steps);
      assert Enabled(s, step) && Undisturbed(x, blocks, s, step);
    }
  }

  /** From wherever it is, an honest run can be carried to its end. */
  lemma HonestRunEnds(x: Session, leftover: Option<Bytes>, blocks: seq<Bytes>, steps: seq<Step>) returns (run: seq<Step>)
    requires HonestRun(x, leftover, blocks, steps) && Agreed(x, leftover)
    ensures |run| >= |steps| && run[..|steps|] == steps
    ensures HonestRun(x, leftover, blocks, run) && Play(x, Init(x, leftover), run).loop.Ended?
    decreases 2 * |blocks| + 4 - |steps|
  {
    HonestRunLength(x, leftover, blocks, steps);
    run := steps;
    if !Play(x, Init(x, leftover), steps).loop.Ended? {
      HonestRunGoesOn(x, leftover, blocks, steps);
      var s := Play(x, Init(x, leftover), steps);
      var step :| Enabled(s, step) && Undisturbed(x, blocks, s, step);
      assert (steps + [step])[..|steps|] == steps;
      run := HonestRunEnds(x, leftover, blocks, steps + [step]);
    }
  }

  // ---- what opens, what is answered, what is held ----

  /** The writer opens a block exactly when it was sealed under the session's key and nonce prefix for the very
      counter it was forwarded under; then it appends what was sealed, and otherwise it stops and writes
      nothing. */
  lemma WriterOpensExactly(x: Session, y: Session, blocks: seq<Bytes>, k: nat, index: nat, s: State)
    requires k < |blocks| && |x.prefix| == |y.prefix| && index < U64_MODULUS && y.start / BLOCK + k < U64_MODULUS
    requires s.writer == Open && s.queue != [] && s.queue[0] == (index, SealFrom(y, blocks, k)) && s.disk.Some?
    ensures var t := Apply(x, s, WriteBlock(true));
            if x.key == y.key && x.prefix == y.prefix && index == y.start / BLOCK + k
            then t.writer == Open && t.disk == Some(s.disk.value + blocks[k])
            else t.writer == Dead && t.disk == s.disk
  {
    var counter := y.start / BLOCK + k;
    if x.prefix != y.prefix {
      var n := |x.prefix|;
      assert BuildNonce(x.prefix, index)[..n] == x.prefix && BuildNonce(y.prefix, counter)[..n] == y.prefix;
    } else {
      NonceInjective(x.prefix, index, counter);
    }
  }

  /** Nothing is answered before the end, and at most one reply is given. */
  ghost predicate RepliesOnce(s: State) {
    && |s.sent| <= 1 && (!s.loop.Ended? ==> s.sent == [])
    && (s.loop == Ended(true) ==> s.sent == [Complete]) && (s.loop == Ended(false) ==> Complete !in s.sent)
  }

  lemma RepliesStep(x: Session, s: State, step: Step)
    requires RepliesOnce(s)
    ensures RepliesOnce(Next(x, s, step))
  {
  }

  lemma {:induction false} PlayReplies(x: Session, leftover: Option<Bytes>, steps: seq<Step>)
    ensures RepliesOnce(Play(x, Init(x, leftover), steps))
  {
    if steps != [] {
      var n := |steps| - 1;
      PlayReplies(x, leftover, steps[..n]);
      RepliesStep(x, Play(x, Init(x, leftover), steps[..n]), steps[n]);
    }
  }

  /** How the loop ends at each message that is no chunk, and at the user's cancel. */
  lemma MessageEnds(x: Session, s: State)
    requires s.loop == Receiving
    ensures Next(x, s, CancelHere).loop == Closing(Cancelled)
    ensures Next(x, s, Receive(PeerError(true))).loop == Closing(Cancelled)
    ensures Next(x, s, Receive(PeerError(false))).loop == Closing(Broke)
    ensures Next(x, s, Receive(Malformed)).loop == Closing(Broke)
    ensures Next(x, s, Receive(NetworkError)).loop == Closing(Broke)
    ensures Next(x, s, Receive(EndOfFile)).loop == Closing(Finished)
  {
  }

  /** What an attempt answers and leaves at its end: a cancelled one says so and removes the file; a broken one
      says nothing and removes it; a finished one whose file cannot be read back says nothing and removes it,
      one of the wrong hash says so and removes it, and one of the right hash keeps the file and says
      COMPLETE, as far as that can be delivered. */
  lemma AnswersAtTheEnd(x: Session, leftover: Option<Bytes>, steps: seq<Step>, verifies: bool, delivered: bool)
    requires var s := Play(x, Init(x, leftover), steps);
             s.loop.Closing? && (s.writer == Dead || s.writer == Done)
    ensures var s := Play(x, Init(x, leftover), steps);
            var t := Next(x, s, Conclude(verifies, delivered, true));
            var readable := s.loop.how == Finished && s.writer == Done && s.disk.Some? && verifies;
            var right := readable && Digest(s.disk.value) == x.checksum;
            && t.disk == (if right then s.disk else None)
            && t.sent == (if s.loop.how == Cancelled then [CancelledError]
                          else if right && delivered then [Complete]
                          else if readable && !right then [MismatchError] else [])
  {
    PlayReplies(x, leftover, steps);
    PlayOk(x, leftover, steps);
  }

  /** The channel to the writer never holds more than its capacity, and the loop can always fill it. */
  lemma {:induction false} ChannelBound(x: Session, leftover: Option<Bytes>, steps: seq<Step>)
    ensures |Play(x, Init(x, leftover), steps).queue| <= CHANNEL_CAPACITY
  {
    if steps != [] { ChannelBound(x, leftover, steps[..|steps| - 1]); }
  }
}
