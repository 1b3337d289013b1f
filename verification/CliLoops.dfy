/**
 The loops of the command-line program in their own form: the sender's select arms and the hashing thread,
 against the functions and runs of the step system, and the sequential receiver, which is a program of its
 own, against the turns it takes.
 */
module CliLoops {
  import opened Basics
  import opened Tiling
  import R = Reorder
  import Resume
  import opened Pipeline
  import PI = PipelineInvariant

  // ---- the sender's loop ----

  /** The draining loop run to its end, with the frames it writes. */
  function DrainLoop(s: Sender, paused: bool): (Sender, seq<Frame>)
    decreases |s.buffer.pending|
  {
    var (t, out) := DrainTurn(s, paused);
    if R.Ready(s.buffer) then
      assert |t.buffer.pending| < |s.buffer.pending| by {
        assert t.buffer.pending.Keys == s.buffer.pending.Keys - {s.buffer.next};
      }
      var (u, more) := DrainLoop(t, paused);
      (u, out + more)
    else
      (t, out)
  }

  /** The loop, uninterrupted, is a run of the step system. */
  lemma {:induction false} DrainLoopRuns(c: Config, s: State) returns (steps: seq<Step>)
    requires c.chunkSize > 0 && s.sender.phase == Draining
    ensures IsRun(c, s, steps) && forall k :: 0 <= k < |steps| ==> steps[k] == DrainOne
    ensures var (t, out) := DrainLoop(s.sender, s.paused);
            After(c, s, steps) == s.(sender := t, wire := s.wire + out)
    decreases |s.sender.buffer.pending|
  {
    var t := Apply(c, s, DrainOne);
    if R.Ready(s.sender.buffer) {
      assert t.sender.buffer.pending.Keys == s.sender.buffer.pending.Keys - {s.sender.buffer.next};
      var more := DrainLoopRuns(c, t);
      steps := [DrainOne] + more;
      assert steps[1..] == more;
      var first := [s.sender.buffer.pending[s.sender.buffer.next]];
      var rest := DrainLoop(t.sender, t.paused).1;
      assert s.wire + first + rest == s.wire + (first + rest);
    } else {
      steps := [DrainOne];
      assert IsRun(c, t, steps[1..]);
    }
  }

  /** Draining `start` with `base` sent ends as draining `now` with `sent` does. */
  ghost predicate LeftToDrain(start: Sender, base: seq<Frame>, now: Sender, sent: seq<Frame>, paused: bool) {
    var (t, out) := DrainLoop(start, paused);
    var (t', out') := DrainLoop(now, paused);
    t == t' && base + out == sent + out'
  }

  lemma LeftAfterTurn(start: Sender, base: seq<Frame>, now: Sender, sent: seq<Frame>, paused: bool)
    requires LeftToDrain(start, base, now, sent, paused) && R.Ready(now.buffer)
    ensures var b := now.buffer;
            LeftToDrain(start, base, now.(buffer := R.Release(b)), sent + [b.pending[b.next]], paused)
  {
    var b := now.buffer;
    var rest := DrainLoop(now.(buffer := R.Release(b)), paused).1;
    assert sent + ([b.pending[b.next]] + rest) == (sent + [b.pending[b.next]]) + rest;
  }

  class SenderLoop {
    const c: Config
    var phase: SendPhase
    var bufferedFrames: map<nat, Frame>
    var nextToSend: nat
    var nextToAck: nat
    var bytesSent: int
    var record: Resume.Record
    /** Everything written to the socket so far. */
    var sent: seq<Frame>

    constructor (c: Config, row: Resume.Record)
      ensures this.c == c && View() == Init(c, [], row).sender && sent == []
    {
      this.c := c;
      phase, bufferedFrames, nextToSend, nextToAck := Selecting, map[], c.start, c.start;
      bytesSent, record, sent := c.offset, row, [];
    }

    ghost function View(): Sender
      reads this
    {
      Sender(phase, R.Buffer(nextToSend, bufferedFrames), nextToAck, bytesSent, record)
    }

    /** The arm that takes a frame from the encryption tasks. */
    method OnFrame(index: nat, frame: Frame, paused: bool)
      requires phase == Selecting && InFlight(View()) < WINDOW
      modifies this
      ensures (View(), sent) == (var (t, out) := DrainLoop(Accept(old(View()), index, frame), paused);
                                 (t, old(sent) + out))
    {
      bufferedFrames := bufferedFrames[index := frame];
      phase := Draining;
      ghost var start := View();
      while nextToSend in bufferedFrames
        invariant phase == Draining && LeftToDrain(start, old(sent), View(), sent, paused)
        decreases |bufferedFrames|
      {
        var frame' := bufferedFrames[nextToSend];
        LeftAfterTurn(start, old(sent), View(), sent, paused);
        assert (bufferedFrames - {nextToSend}).Keys == bufferedFrames.Keys - {nextToSend};
        sent := sent + [frame'];
        bufferedFrames := bufferedFrames - {nextToSend};
        nextToSend := nextToSend + 1;
      }
      phase := if paused then PausedOut else Selecting;
      assert sent + [] == sent;
    }

    /** The arm that takes a reply inside the loop. */
    method TakeAck(reply: Reply, paused: bool)
      requires phase == Selecting && c.chunkSize > 0
      modifies this
      ensures View() == OnReply(c, old(View()), reply, paused) && sent == old(sent)
    {
      match reply
      case Ack(_) =>
        var actual := if nextToAck == c.total - 1 then |c.source| % c.chunkSize else c.chunkSize;
        var increment := if actual == 0 then c.chunkSize else actual;
        bytesSent := bytesSent + increment;
        record := Resume.Progressed(record, bytesSent);
        nextToAck := nextToAck + 1;
        phase := if paused then PausedOut else if nextToAck == c.total then Verifying else Selecting;
      case _ =>
        phase, record := Failed, Resume.MarkedFailed(record);
    }
  }

  // ---- the hashing thread ----

  /** The thread's whole life: take every message, then judge. */
  method HashChunks(queue: seq<(nat, Bytes)>, total: nat, expected: Digest) returns (valid: bool)
    ensures valid <==> var (b, out) := R.PushAll(R.Buffer(0, map[]), queue);
                       b.next == total && Digest(Flatten(out)) == expected
  {
    var hashed: Bytes := [];
    var buffer := new R.ReorderBuffer<Bytes>(0);
    ghost var emitted: seq<Bytes> := [];
    for k := 0 to |queue|
      invariant (buffer.View(), emitted) == R.PushAll(R.Buffer(0, map[]), queue[..k])
      invariant hashed == Flatten(emitted)
    {
      assert queue[..k + 1][..k] == queue[..k];
      var out := buffer.Accept(queue[k].0, queue[k].1);
      var more := FlattenLoop(out);
      FlattenAppend(emitted, out);
      hashed := hashed + more;
      emitted := emitted + out;
    }
    assert queue[..|queue|] == queue;
    valid := buffer.next == total && Digest(hashed) == expected;
  }

  /** `hasher.update` once per released chunk. */
  method FlattenLoop(blocks: seq<Bytes>) returns (all: Bytes)
    ensures all == Flatten(blocks)
  {
    all := [];
    for k := 0 to |blocks|
      invariant all == Flatten(blocks[..k])
    {
      FlattenSnoc(blocks[..k], blocks[k]);
      assert blocks[..k + 1] == blocks[..k] + [blocks[k]];
      all := all + blocks[k];
    }
    assert blocks[..|blocks|] == blocks;
  }

  /** For distinct, honest arrivals in any order the thread accepts exactly when every chunk arrived. */
  lemma HasherAccepts(queue: seq<(nat, Bytes)>, chunks: seq<Bytes>)
    requires R.DistinctIndices(queue) && R.Honest(queue, 0, chunks)
    ensures var (b, out) := R.PushAll(R.Buffer(0, map[]), queue);
            (b.next == |chunks| && Digest(Flatten(out)) == Digest(Flatten(chunks))
             <==> forall i: nat :: i < |chunks| ==> i in R.Indices(queue))
  {
    R.ReorderPrefix(queue, 0, chunks);
    var (b, out) := R.PushAll(R.Buffer(0, map[]), queue);
    if forall i: nat :: i < |chunks| ==> i in R.Indices(queue) {
      R.ReorderSorts(queue, 0, chunks);
    }
  }

  lemma {:induction false} PushAllFirst(b: R.Buffer<Bytes>, queue: seq<(nat, Bytes)>)
    requires queue != []
    ensures var (mid, out) := R.Push(b, queue[0].0, queue[0].1);
            var (last, more) := R.PushAll(mid, queue[1..]);
            R.PushAll(b, queue) == (last, out + more)
  {
    var n := |queue| - 1;
    if n == 0 {
      assert queue[..0] == [] && queue[1..] == [];
      var out := R.Push(b, queue[0].0, queue[0].1).1;
      assert [] + out == out && out + [] == out;
    } else {
      PushAllFirst(b, queue[..n]);
      assert queue[..n][1..] == queue[1..][..n - 1] && queue[1..][n - 1] == queue[n];
      var (mid, out) := R.Push(b, queue[0].0, queue[0].1);
      var (end, more) := R.PushAll(mid, queue[1..][..n - 1]);
      var rest := R.Push(end, queue[n].0, queue[n].1).1;
      assert (out + more) + rest == out + (more + rest);
    }
  }

  /** The thread taking every queued message is a run of the step system. */
  lemma {:induction false} HashRuns(c: Config, s: State) returns (steps: seq<Step>)
    requires c.chunkSize > 0
    ensures IsRun(c, s, steps) && forall k :: 0 <= k < |steps| ==> steps[k] == HashOne
    ensures var (b, out) := R.PushAll(s.hasher.buffer, s.hashQueue);
            After(c, s, steps) == s.(hashQueue := [], hasher := HashThread(b, s.hasher.hashed + Flatten(out)))
    decreases |s.hashQueue|
  {
    steps := [];
    if s.hashQueue == [] {
      assert s.hasher.hashed + [] == s.hasher.hashed;
    } else {
      var t := Apply(c, s, HashOne);
      var more := HashRuns(c, t);
      steps := [HashOne] + more;
      assert steps[1..] == more;
      HashedOne(s.hasher, t.hasher, s.hashQueue);
    }
  }

  lemma FlattenTwice(hashed: Bytes, out: seq<Bytes>, more: seq<Bytes>)
    ensures hashed + Flatten(out + more) == (hashed + Flatten(out)) + Flatten(more)
  {
    FlattenAppend(out, more);
  }

  lemma HashedOne(h: HashThread, g: HashThread, queue: seq<(nat, Bytes)>)
    requires queue != []
    requires var (b, out) := R.Push(h.buffer, queue[0].0, queue[0].1); g == HashThread(b, h.hashed + Flatten(out))
    ensures R.PushAll(h.buffer, queue).0 == R.PushAll(g.buffer, queue[1..]).0
    ensures h.hashed + Flatten(R.PushAll(h.buffer, queue).1) == g.hashed + Flatten(R.PushAll(g.buffer, queue[1..]).1)
  {
    PushAllFirst(h.buffer, queue);
    FlattenTwice(h.hashed, R.Push(h.buffer, queue[0].0, queue[0].1).1, R.PushAll(g.buffer, queue[1..]).1);
  }

  /** A receiver with every ack behind it, no task left and a thread that has not begun: letting the thread
      take everything and then judging it gives the verdict of HashChunks on what was queued. */
  lemma ThreadVerdict(c: Config, s: State) returns (steps: seq<Step>)
    requires c.chunkSize > 0 && s.hasher == HashThread(R.Buffer(0, map[]), []) && s.receiver.phase == AwaitingHash
    requires |s.receiver.decrypting| + |s.receiver.writing| + |s.receiver.hashing| == 0
    ensures IsRun(c, s, steps) && Enabled(c, After(c, s, steps), Verdict)
    ensures var (b, out) := R.PushAll(R.Buffer(0, map[]), s.hashQueue);
            Apply(c, After(c, s, steps), Verdict).receiver.phase
            == Closed(b.next == c.total && Digest(Flatten(out)) == c.checksum)
  {
    steps := HashRuns(c, s);
    var out := R.PushAll(s.hasher.buffer, s.hashQueue).1;
    assert [] + Flatten(out) == Flatten(out);
  }

  /** The thread always starts at chunk 0: the honest chunks of a session that begins at `start` are
      accepted exactly when that is chunk 0. */
  lemma ResumedSessionRefused(queue: seq<(nat, Bytes)>, chunks: seq<Bytes>, start: nat)
    requires R.DistinctIndices(queue) && R.Honest(queue, 0, chunks) && start < |chunks|
    requires forall i: nat :: i in R.Indices(queue) <==> start <= i < |chunks|
    ensures var (b, out) := R.PushAll(R.Buffer(0, map[]), queue);
            (b.next == |chunks| && Digest(Flatten(out)) == Digest(Flatten(chunks)) <==> start == 0)
  {
    HasherAccepts(queue, chunks);
    assert 0 in R.Indices(queue) <==> start == 0;
  }

  // ---- the sequential receiver ----

  datatype Incoming = ChunkMessage(frame: Frame) | ShortChunk | PeerError | OtherTag | EndOfStream

  /** What the receiver has done so far and whether it has given up. */
  datatype Session = Session(file: Bytes, replies: seq<Reply>, failed: bool)

  /** One turn for chunk `i`; the connection may end early. */
  function SlowTurn(c: Config, s: Session, i: nat, message: Incoming): Session {
    match message
    case ChunkMessage(f) =>
      if f.index != i then s.(failed := true)
      else
        (match OpenChunk(c, f)
         case None => s.(failed := true)
         case Some(data) => Session(ProcessReceivedChunk(s.file, i, c.chunkSize, data),
                                    s.replies + [Ack(i % U32_MODULUS)], false))
    case _ => s.(failed := true)
  }

  function MessageAt(incoming: seq<Incoming>, i: nat): Incoming {
    if i < |incoming| then incoming[i] else EndOfStream
  }

  /** The session after chunks 0 .. k. */
  function SlowTurns(c: Config, start: Session, incoming: seq<Incoming>, k: nat): Session {
    if k == 0 then start
    else
      var s := SlowTurns(c, start, incoming, k - 1);
      if s.failed then s else SlowTurn(c, s, k - 1, MessageAt(incoming, k - 1))
  }

  function SlowFinish(c: Config, s: Session): Session {
    if s.failed then s
    else if Digest(s.file) == c.checksum then s.(replies := s.replies + [Complete(c.checksum)])
    else Session(s.file, s.replies + [Error], true)
  }

  /** `leftover` is what the output file holds; a missing file reads as empty. */
  function SlowReceived(c: Config, leftover: Bytes, incoming: seq<Incoming>): Session {
    SlowFinish(c, SlowTurns(c, Session(leftover, [], false), incoming, c.total))
  }

  lemma {:induction false} SlowFailureStays(c: Config, start: Session, incoming: seq<Incoming>, j: nat, k: nat)
    requires j <= k && SlowTurns(c, start, incoming, j).failed
    ensures SlowTurns(c, start, incoming, k) == SlowTurns(c, start, incoming, j)
    decreases k
  {
    if j < k { SlowFailureStays(c, start, incoming, j, k - 1); }
  }

  class SlowReceiver {
    const c: Config
    var file: Bytes
    var replies: seq<Reply>

    constructor (c: Config, leftover: Bytes)
      ensures this.c == c && file == leftover && replies == []
    {
      this.c, file, replies := c, leftover, [];
    }

    /** One turn of the loop; false when it gives up, which writes nothing. */
    method Turn(i: nat, message: Incoming) returns (ok: bool)
      modifies this
      ensures Session(file, replies, !ok) == SlowTurn(c, Session(old(file), old(replies), false), i, message)
    {
      ok := false;
      if message.ChunkMessage? && message.frame.index == i {
        match OpenChunk(c, message.frame) {
          case Some(data) =>
            file := WriteAt(file, i * c.chunkSize, data);
            replies := replies + [Ack(i % U32_MODULUS)];
            ok := true;
          case None =>
        }
      }
    }

    method Run(incoming: seq<Incoming>) returns (ok: bool)
      requires replies == []
      modifies this
      ensures Session(file, replies, !ok) == SlowReceived(c, old(file), incoming)
    {
      ghost var start := Session(file, [], false);
      for i := 0 to c.total
        invariant Session(file, replies, false) == SlowTurns(c, start, incoming, i)
      {
        ok := Turn(i, if i < |incoming| then incoming[i] else EndOfStream);
        if !ok {
          assert SlowTurns(c, start, incoming, i + 1) == Session(file, replies, true);
          SlowFailureStays(c, start, incoming, i + 1, c.total);
          return;
        }
      }
      ok := Digest(file) == c.checksum;
      replies := replies + [if ok then Complete(c.checksum) else Error];
    }
  }

  /** Whatever a peer sends, COMPLETE is answered only when the whole file on disk has the announced
      checksum. */
  lemma SlowCompleteIsSource(c: Config, leftover: Bytes, incoming: seq<Incoming>, h: Digest)
    requires Complete(h) in SlowReceived(c, leftover, incoming).replies
    ensures Digest(SlowReceived(c, leftover, incoming).file) == c.checksum == h
    ensures !SlowReceived(c, leftover, incoming).failed
  {
    SlowRepliesAreAcks(c, Session(leftover, [], false), incoming, c.total);
  }

  /** A turn is taken exactly for a chunk frame of the index that is due, if it opens: the data goes to its
      offset and is acknowledged.  Anything else ends the session with file and replies as they were. */
  lemma SlowTurnExactly(c: Config, s: Session, i: nat, message: Incoming)
    requires !s.failed
    ensures var t := SlowTurn(c, s, i, message);
            var due := message.ChunkMessage? && message.frame.index == i && OpenChunk(c, message.frame).Some?;
            && (!t.failed <==> due)
            && (due ==> t.file == WriteAt(s.file, i * c.chunkSize, OpenChunk(c, message.frame).value)
                        && t.replies == s.replies + [Ack(i % U32_MODULUS)])
            && (!due ==> t.file == s.file && t.replies == s.replies)
  {
  }

  ghost predicate AcksInOrder(replies: seq<Reply>) {
    forall j :: 0 <= j < |replies| ==> replies[j] == Ack(j % U32_MODULUS)
  }

  lemma SlowTurnAcks(c: Config, s: Session, message: Incoming)
    requires AcksInOrder(s.replies) && !s.failed
    ensures var t := SlowTurn(c, s, |s.replies|, message);
            AcksInOrder(t.replies) && (!t.failed ==> |t.replies| == |s.replies| + 1)
  {
  }

  lemma {:induction false} SlowRepliesAreAcks(c: Config, start: Session, incoming: seq<Incoming>, k: nat)
    requires start.replies == []
    ensures var s := SlowTurns(c, start, incoming, k);
            AcksInOrder(s.replies) && (!s.failed ==> |s.replies| == k)
  {
    if k > 0 {
      SlowRepliesAreAcks(c, start, incoming, k - 1);
      var s := SlowTurns(c, start, incoming, k - 1);
      if !s.failed { SlowTurnAcks(c, s, MessageAt(incoming, k - 1)); }
    }
  }

  /** What reaches the receiver of the sender's k-th frame: a message over the limit ends the session. */
  function Delivered(c: Config, k: nat): Incoming {
    if ChunkFits(c, c.start + k) then ChunkMessage(SealChunk(c, c.start + k, Data(c, c.start + k))) else EndOfStream
  }

  ghost predicate HonestAt(c: Config, incoming: seq<Incoming>, k: nat) {
    MessageAt(incoming, k) == Delivered(c, k)
  }

  ghost predicate HonestSession(c: Config, incoming: seq<Incoming>) {
    forall k: nat :: c.start + k < c.total ==> HonestAt(c, incoming, k)
  }

  function UpTo(k: nat): (order: seq<nat>)
    ensures |order| == k && forall i :: 0 <= i < k ==> order[i] == i
  {
    if k == 0 then [] else UpTo(k - 1) + [k - 1]
  }

  /** The file after chunks 0 .. k, each at its announced offset. */
  function Written(c: Config, leftover: Bytes, k: nat): Bytes {
    if k == 0 then leftover
    else ProcessReceivedChunk(Written(c, leftover, k - 1), k - 1, c.chunkSize, Data(c, k - 1))
  }

  lemma OpenSealed(c: Config, i: nat, data: Bytes)
    requires i < U32_MODULUS
    ensures var f := SealChunk(c, i, data); f.index == i && OpenChunk(c, f) == Some(data)
  {
  }

  lemma SlowHonestTurn(c: Config, s: Session, i: nat, message: Incoming)
    requires i < U32_MODULUS && !s.failed && c.start == 0 && message == Delivered(c, i)
    ensures var t := SlowTurn(c, s, i, message);
            if ChunkFits(c, i) then !t.failed && t.file == ProcessReceivedChunk(s.file, i, c.chunkSize, Data(c, i))
            else t.failed
  {
    OpenSealed(c, i, Data(c, i));
  }

  lemma {:induction false} SlowHonestTurns(c: Config, leftover: Bytes, incoming: seq<Incoming>, k: nat)
    requires WellFormed(c) && k <= c.total && HonestSession(c, incoming) && c.start == 0
    requires forall i: nat :: i < k ==> ChunkFits(c, i)
    ensures var s := SlowTurns(c, Session(leftover, [], false), incoming, k);
            !s.failed && s.file == Written(c, leftover, k)
  {
    if k > 0 {
      SlowHonestTurns(c, leftover, incoming, k - 1);
      assert HonestAt(c, incoming, k - 1);
      var s := SlowTurns(c, Session(leftover, [], false), incoming, k - 1);
      SlowHonestTurn(c, s, k - 1, MessageAt(incoming, k - 1));
    }
  }

  /** The turn at the first frame over the limit is the last. */
  lemma OversizedTurnFails(c: Config, leftover: Bytes, incoming: seq<Incoming>, k: nat)
    requires WellFormed(c) && HonestSession(c, incoming) && c.start == 0 && k < c.total
    requires !ChunkFits(c, k) && forall j: nat :: j < k ==> ChunkFits(c, j)
    ensures SlowTurns(c, Session(leftover, [], false), incoming, k + 1).failed
  {
    SlowHonestTurns(c, leftover, incoming, k);
    assert HonestAt(c, incoming, k);
    SlowHonestTurn(c, SlowTurns(c, Session(leftover, [], false), incoming, k), k, MessageAt(incoming, k));
  }

  lemma LateStartFails(c: Config, leftover: Bytes, incoming: seq<Incoming>)
    requires WellFormed(c) && HonestSession(c, incoming) && c.start > 0
    ensures SlowTurns(c, Session(leftover, [], false), incoming, 1).failed
  {
    var start := Session(leftover, [], false);
    assert HonestAt(c, incoming, 0);
    assert SlowTurns(c, start, incoming, 0) == start;
    if ChunkFits(c, c.start) { OpenSealed(c, c.start, Data(c, c.start)); }
  }

  /** A session that starts late or has a frame over the limit is given up. */
  lemma SlowGivesUp(c: Config, leftover: Bytes, incoming: seq<Incoming>)
    requires WellFormed(c) && HonestSession(c, incoming) && !Transferable(c)
    ensures SlowReceived(c, leftover, incoming).failed
    ensures SlowReceived(c, leftover, incoming) == SlowTurns(c, Session(leftover, [], false), incoming, c.total)
  {
    var k := 0;
    if c.start == 0 {
      var i: nat :| c.start <= i < c.total && !ChunkFits(c, i);
      k := FirstOversized(c, i);
      OversizedTurnFails(c, leftover, incoming, k);
    } else {
      LateStartFails(c, leftover, incoming);
    }
    SlowFailureStays(c, Session(leftover, [], false), incoming, k + 1, c.total);
  }

  lemma FirstOversized(c: Config, i: nat) returns (k: nat)
    requires !ChunkFits(c, i)
    ensures k <= i && !ChunkFits(c, k) && forall j: nat :: j < k ==> ChunkFits(c, j)
  {
    k := 0;
    while ChunkFits(c, k)
      invariant k <= i && forall j: nat :: j < k ==> ChunkFits(c, j)
      decreases i - k
    {
      k := k + 1;
    }
  }

  lemma OneMoreChunk(leftover: Bytes, source: Bytes, cs: nat, k: nat)
    requires k > 0
    ensures WriteChunks(leftover, source, cs, UpTo(k))
            == ProcessReceivedChunk(WriteChunks(leftover, source, cs, UpTo(k - 1)), k - 1, cs, Chunk(source, cs, k - 1))
  {
    assert UpTo(k)[..k - 1] == UpTo(k - 1) && UpTo(k)[k - 1] == k - 1;
  }

  lemma {:induction false} WrittenIsChunks(c: Config, leftover: Bytes, k: nat)
    requires WellFormed(c) && OffsetsMatch(c) && k <= c.total
    ensures Written(c, leftover, k) == WriteChunks(leftover, c.source, c.chunkSize, UpTo(k))
  {
    if k > 0 {
      WrittenIsChunks(c, leftover, k - 1);
      PI.SameChunks(c, k - 1);
      OneMoreChunk(leftover, c.source, c.chunkSize, k);
    }
  }

  lemma LastWritten(c: Config, leftover: Bytes)
    requires WellFormed(c) && |c.source| > 0
    ensures PI.Reaches(c, Written(c, leftover, c.total), c.total - 1)
  {
    OffsetInFile(|c.source|, Clamp(c.chunkSize), c.total - 1);
    WriteReaches(Written(c, leftover, c.total - 1), Offset(c.chunkSize, c.total - 1), Data(c, c.total - 1));
  }

  lemma WriteReaches(file: Bytes, offset: nat, data: Bytes)
    requires data != []
    ensures |WriteAt(file, offset, data)| >= offset + |data|
  {
  }

  lemma UpToCovers(n: nat)
    ensures Below(UpTo(n), n) && forall i: nat :: i < n ==> i in UpTo(n)
  {
    forall i: nat | i < n ensures i in UpTo(n) { assert UpTo(n)[i] == i; }
  }

  lemma MatchingIsSource(c: Config, leftover: Bytes)
    requires WellFormed(c) && OffsetsMatch(c)
    ensures Written(c, leftover, c.total) == c.source <==> |leftover| <= |c.source|
  {
    WrittenIsChunks(c, leftover, c.total);
    PI.SameChunks(c, 0);
    UpToCovers(c.total);
    AnyOrder(leftover, c.source, c.chunkSize, UpTo(c.total));
  }

  lemma WrittenIsSource(c: Config, leftover: Bytes)
    requires WellFormed(c)
    ensures Written(c, leftover, c.total) == c.source <==> OffsetsMatch(c) && |leftover| <= |c.source|
  {
    if OffsetsMatch(c) {
      MatchingIsSource(c, leftover);
    } else {
      LastWritten(c, leftover);
      PI.LastChunkTooFar(c, Written(c, leftover, c.total));
    }
  }

  /** An honest session with the sequential receiver completes exactly when it is transferable, the
      offsets match, and the output file was not longer than the source beforehand: this receiver neither
      truncates nor sets the length. */
  lemma SlowHonestCompletes(c: Config, leftover: Bytes, incoming: seq<Incoming>)
    requires WellFormed(c) && HonestSession(c, incoming)
    ensures var s, good := SlowReceived(c, leftover, incoming), OffsetsMatch(c) && |leftover| <= |c.source|;
            && (Complete(c.checksum) in s.replies <==> Transferable(c) && good)
            && (Error in s.replies <==> Transferable(c) && !good)
            && (s.failed <==> !(Transferable(c) && good))
            && (Transferable(c) && good ==> s.file == c.source)
  {
    SlowRepliesAreAcks(c, Session(leftover, [], false), incoming, c.total);
    if Transferable(c) {
      SlowHonestTurns(c, leftover, incoming, c.total);
      WrittenIsSource(c, leftover);
    } else {
      SlowGivesUp(c, leftover, incoming);
    }
  }
}
