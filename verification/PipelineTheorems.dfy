/** What holds of every run of the command-line transfer. */
module PipelineTheorems {
  import opened Basics
  import opened Aead
  import opened Tiling
  import R = Reorder
  import Resume
  import Framing
  import opened Pipeline
  import opened PipelineInvariant

  function PlanOf(c: Config): (plan: Plan)
    ensures IsPlan(c, plan)
  {
    Plan(seq(c.total, i requires 0 <= i < c.total => Data(c, i)),
         seq(c.total, i requires 0 <= i < c.total => SealChunk(c, i, Data(c, i))))
  }

  lemma {:induction false} RunInv(c: Config, plan: Plan, s: State, steps: seq<Step>)
    requires WellFormed(c) && IsPlan(c, plan) && Inv(c, plan, s) && IsRun(c, s, steps)
    ensures Inv(c, plan, After(c, s, steps))
    decreases |steps|
  {
    if steps != [] {
      StepInv(c, plan, s, steps[0]);
      RunInv(c, plan, Apply(c, s, steps[0]), steps[1..]);
    }
  }

  /** s is reached from a session, fresh or resumed, whose output file held `leftover`. */
  ghost predicate Reached(c: Config, leftover: Bytes, row: Resume.Record, steps: seq<Step>, s: State) {
    && WellFormed(c)
    && IsRun(c, Init(c, leftover, row), steps)
    && s == After(c, Init(c, leftover, row), steps)
  }

  lemma ReachedInv(c: Config, leftover: Bytes, row: Resume.Record, steps: seq<Step>, s: State)
    requires Reached(c, leftover, row, steps, s)
    ensures Inv(c, PlanOf(c), s)
  {
    InitInv(c, PlanOf(c), leftover, row);
    RunInv(c, PlanOf(c), Init(c, leftover, row), steps);
  }

  // ---- which frames get through ----

  lemma PlanFits(c: Config, plan: Plan, i: nat)
    requires IsPlan(c, plan) && i < c.total
    ensures FitsAt(plan, i) <==> ChunkFits(c, i)
  {
    assert Planned(c, plan, i);
  }

  /** The receiver's reader has choked only on a frame over the limit. */
  lemma ChokedMeansOversized(c: Config, plan: Plan, s: State)
    requires IsPlan(c, plan) && Inv(c, plan, s) && s.choked
    ensures !Carries(c)
  {
    var i := ChokedAt(c, plan, s);
    OversizedRefutes(c, plan, i);
  }

  lemma ChokedAt(c: Config, plan: Plan, s: State) returns (i: nat)
    requires Inv(c, plan, s) && s.choked
    ensures c.start <= i < c.total && !FitsAt(plan, i)
  {
    TakenFromStart(c, s.receiver, s.taken, s.acked, s.sender, s.paused);
    i := HeadTooLong(c, plan, s.taken, s.arrived, s.wire, s.sender.buffer.next, s.receiver.phase);
  }

  lemma TakenFromStart(c: Config, r: Receiver, taken: nat, acked: seq<nat>, s: Sender, paused: bool)
    requires c.chunkSize > 0 && TasksOk(r, taken, acked) && SenderOk(c, s, paused) && s.nextToAck <= |acked|
    ensures c.start <= taken
  {
  }

  lemma HeadTooLong(c: Config, plan: Plan, taken: nat, arrived: seq<Frame>, wire: seq<Frame>, next: nat, phase: RecvPhase)
    returns (i: nat)
    requires WireOk(plan, taken, arrived, wire, next) && ReaderOk(c, plan, taken, arrived, wire, true, phase)
    requires c.start <= taken
    ensures c.start <= i < |plan.frames| && !FitsAt(plan, i)
  {
    i := taken + |arrived|;
    assert wire[0] == plan.frames[i];
  }

  lemma OversizedRefutes(c: Config, plan: Plan, i: nat)
    requires IsPlan(c, plan) && c.start <= i < c.total && !FitsAt(plan, i)
    ensures !Carries(c)
  {
    PlanFits(c, plan, i);
  }

  lemma ClosedMeansCarried(c: Config, plan: Plan, s: State)
    requires IsPlan(c, plan) && Inv(c, plan, s) && (s.receiver.phase == AwaitingHash || s.receiver.phase.Closed?)
    ensures Carries(c)
  {
    AllReported(c, plan, s);
    forall i: nat | c.start <= i < c.total ensures ChunkFits(c, i) {
      assert FitsAt(plan, i);
      PlanFits(c, plan, i);
    }
  }

  // ---- same bytes, no false alarm ----

  lemma TilesCover(file: Bytes, src: Bytes, cs: nat, written: set<nat>, n: nat)
    requires forall i :: i in written ==> HasTile(file, src, cs, i)
    requires forall i: nat :: i < n ==> i in written
    ensures Covered(file, src, cs, n)
  {
  }

  lemma MatchedMeansSource(c: Config, file: Bytes, written: set<nat>)
    requires WellFormed(c) && OffsetsMatch(c) && FileOk(c, file, written)
    requires forall i: nat :: i < c.total ==> i in written
    ensures file == c.source
  {
    SameChunks(c, 0);
    TilesCover(file, c.source, c.chunkSize, written, c.total);
    CoveredFile(file, c.source, c.chunkSize);
  }

  /** Every chunk is on disk, wherever it was written. */
  lemma WrittenMeansSource(c: Config, file: Bytes, written: set<nat>)
    requires WellFormed(c) && FileOk(c, file, written) && c.total - 1 in written
    requires forall i: nat :: i < c.total ==> i in written
    ensures file == c.source <==> OffsetsMatch(c)
  {
    if OffsetsMatch(c) { MatchedMeansSource(c, file, written); } else { LastChunkTooFar(c, file); }
  }

  lemma ClosedMeansSource(c: Config, plan: Plan, s: State)
    requires WellFormed(c) && IsPlan(c, plan) && Inv(c, plan, s) && s.receiver.phase == Closed(true)
    ensures s.file == c.source <==> OffsetsMatch(c)
    ensures s.hasher.hashed == c.source
  {
    PlanIsSource(c, plan);
    assert plan.data[..c.total] == plan.data;
    AllReported(c, plan, s);
    WrittenMeansSource(c, s.file, s.receiver.hashing.Keys + Reported(c.start, s.receiver, s.acked));
  }

  /** Whatever the interleaving and whatever the output file held before: once COMPLETE is on its way
      the hashing thread has consumed exactly the source, chunks 0 .. total in order, and the file is the
      source exactly when both ends place chunks at the same offsets. */
  lemma CompleteMeansSource(c: Config, leftover: Bytes, row: Resume.Record, steps: seq<Step>, s: State, h: Digest)
    requires Reached(c, leftover, row, steps, s)
    requires Complete(h) in s.backWire + s.replies || s.sender.phase == Succeeded
    ensures s.file == c.source <==> OffsetsMatch(c)
    ensures s.hasher.hashed == c.source && s.hasher.buffer.next == c.total
  {
    ReachedInv(c, leftover, row, steps, s);
    if Complete(h) in s.backWire + s.replies {
      OnTheWayBack(c, s.replies, s.backWire, s.acked, s.sender.nextToAck, s.receiver.phase, s.sender.phase, Complete(h));
    }
    ClosedMeansSource(c, PlanOf(c), s);
  }

  /** Only acks travel back, and the receiver's last word. */
  lemma OnTheWayBack(c: Config, replies: seq<Reply>, backWire: seq<Reply>, acked: seq<nat>, n: nat,
                     r: RecvPhase, s: SendPhase, reply: Reply)
    requires RepliesOk(c, replies + backWire, acked, n, r, s) && reply in backWire + replies
    ensures reply.Ack? || [reply] == LastWord(c, r)
  {
    assert reply in replies + backWire;
  }

  /** Nothing but a frame over the limit, or a start past chunk 0, makes the receiver say Error. */
  lemma ErrorsHaveReasons(c: Config, plan: Plan, s: State)
    requires IsPlan(c, plan) && Inv(c, plan, s)
    ensures s.receiver.phase == Broken ==> !Carries(c)
    ensures s.receiver.phase.Closed? ==> Carries(c) && (s.receiver.phase == Closed(true) <==> c.start == 0)
  {
    if s.choked { ChokedMeansOversized(c, plan, s); }
    if s.receiver.phase.Closed? { ClosedMeansCarried(c, plan, s); }
  }

  lemma NextIsAckOrBroken(c: Config, replies: seq<Reply>, backWire: seq<Reply>, acked: seq<nat>, n: nat, r: Receiver,
                          s: SendPhase)
    requires RepliesOk(c, replies + backWire, acked, n, r.phase, s) && !Judged(s) && replies != []
    requires |acked| == r.count && (r.phase.Closed? ==> r.count == c.total) && r.count <= c.total
    requires n < c.total && (r.phase == Broken ==> r.count < c.total)
    ensures replies[0].Ack? || (replies[0].Error? && r.phase == Broken)
  {
    NextReply(c, replies + backWire, acked, n, r, s);
    assert (replies + backWire)[0] == replies[0];
  }

  /** An error on either side has one of two reasons: a frame over the message limit breaks the receiver,
      and a session resumed past chunk 0 is refused by the hashing thread.  COMPLETE never comes before
      every chunk is acknowledged. */
  lemma NoFalseAlarm(c: Config, leftover: Bytes, row: Resume.Record, steps: seq<Step>, s: State)
    requires Reached(c, leftover, row, steps, s)
    ensures s.receiver.phase == Broken ==> !Carries(c)
    ensures s.receiver.phase.Closed? ==> Carries(c) && (s.receiver.phase == Closed(true) <==> c.start == 0)
    ensures s.sender.phase == Failed || Error in s.backWire + s.replies ==> !Carries(c) || c.start > 0
    ensures s.sender.phase in {Selecting, Draining} && s.replies != [] ==>
              s.replies[0].Ack? || (s.replies[0].Error? && !Carries(c))
  {
    ReachedInv(c, leftover, row, steps, s);
    ErrorsHaveReasons(c, PlanOf(c), s);
    if Error in s.backWire + s.replies {
      OnTheWayBack(c, s.replies, s.backWire, s.acked, s.sender.nextToAck, s.receiver.phase, s.sender.phase, Error);
    }
    if s.sender.phase in {Selecting, Draining} && s.replies != [] {
      NextIsAckOrBroken(c, s.replies, s.backWire, s.acked, s.sender.nextToAck, s.receiver, s.sender.phase);
    }
  }

  // ---- conservation ----

  function CountAcks(replies: seq<Reply>): nat {
    if replies == [] then 0 else CountAcks(replies[1..]) + if replies[0].Ack? then 1 else 0
  }

  lemma {:induction false} CountAckMessages(indices: seq<nat>, rest: seq<Reply>)
    ensures CountAcks(AckMessages(indices) + rest) == |indices| + CountAcks(rest)
  {
    if indices == [] {
      assert AckMessages(indices) + rest == rest;
    } else {
      CountAckMessages(indices[1..], rest);
      assert (AckMessages(indices) + rest)[1..] == AckMessages(indices[1..]) + rest;
    }
  }

  /** Frames sent and not acknowledged are on the wire, in the receiver's channel, in a receiver task,
      or acknowledged with the ack still travelling; acks never run ahead of written chunks, nor those
      of frames sent, so the unsigned window subtraction cannot underflow. */
  lemma Conservation(c: Config, leftover: Bytes, row: Resume.Record, steps: seq<Step>, s: State)
    requires Reached(c, leftover, row, steps, s)
    ensures var r := s.receiver;
            && InFlight(s.sender) == |s.wire| + |s.arrived|
                                     + |r.decrypting| + |r.writing| + |r.hashing| + |r.finished|
                                     + CountAcks(s.replies + s.backWire)
            && 0 <= s.sender.nextToAck <= r.count <= |r.hashing| + |r.finished| + r.count <= s.sender.buffer.next
  {
    ReachedInv(c, leftover, row, steps, s);
    AcksInbound(c, s.replies + s.backWire, s.acked, s.sender.nextToAck, s.receiver.phase, s.sender.phase);
  }

  lemma AcksInbound(c: Config, inbound: seq<Reply>, acked: seq<nat>, n: nat, r: RecvPhase, s: SendPhase)
    requires RepliesOk(c, inbound, acked, n, r, s)
    ensures n <= |acked| && CountAcks(inbound) == |acked| - n
  {
    if !Judged(s) { CountAckMessages(acked[n..], LastWord(c, r)); }
  }

  // ---- bytes reported by the sender ----

  /** The sender's arithmetic for one ack is the length of that chunk, except for the empty file,
      whose single empty chunk counts as a full one. */
  lemma AckLengthSpec(size: nat, cs: nat, total: nat, k: nat)
    requires cs > 0 && total == TotalChunks(size, cs) && k < total
    ensures AckLength(size, cs, total, k) == if size > 0 then ChunkLength(size, cs, k) else cs
  {
    TotalChunksSpec(size, cs);
    if k < total - 1 {
      OffsetMono(cs, k, total - 1);
    } else if size > 0 {
      LastRemainder(size, cs, k, size - Offset(cs, k));
    }
  }

  lemma LastRemainder(size: nat, cs: nat, k: nat, last: int)
    requires 0 < last <= cs && size == k * cs + last
    ensures size % cs == if last == cs then 0 else last
  {
    if last == cs {
      assert size == (k + 1) * cs;
    }
    DivModUnique(size, cs, if last == cs then k + 1 else k, if last == cs then 0 else last);
  }

  /** What the last ack adds. */
  function LastLength(c: Config): (n: nat)
    requires c.chunkSize > 0
    ensures 0 < n <= c.chunkSize
  {
    if |c.source| % c.chunkSize == 0 then c.chunkSize else |c.source| % c.chunkSize
  }

  /** Each ack adds a whole chunk, the one for the last chunk its remainder. */
  lemma {:induction false} AcknowledgedBytes(c: Config, k: nat)
    requires c.chunkSize > 0 && c.start <= k <= c.total && c.start < c.total
    ensures k < c.total ==> Acknowledged(c, k) == Offset(c.chunkSize, k) - Offset(c.chunkSize, c.start)
    ensures k == c.total ==>
              Acknowledged(c, k) == Offset(c.chunkSize, k - 1) - Offset(c.chunkSize, c.start) + LastLength(c)
  {
    if k > c.start {
      AcknowledgedBytes(c, k - 1);
      NextOffset(c.chunkSize, k - 1);
    }
  }

  /** The count of chunks, made with the clamped size, is also that of the announced size. */
  predicate CountsMatch(c: Config)
    requires c.chunkSize > 0
  {
    c.total == TotalChunks(|c.source|, c.chunkSize)
  }

  /** The sender's byte count comes out right. */
  predicate CountsExactly(c: Config)
    requires c.chunkSize > 0
  {
    |c.source| > 0 && CountsMatch(c) && c.offset == Offset(c.chunkSize, c.start)
  }

  lemma LastLengthFits(c: Config)
    requires WellFormed(c) && |c.source| > 0
    ensures CountsMatch(c) ==> Offset(c.chunkSize, c.total - 1) + LastLength(c) == |c.source|
    ensures !CountsMatch(c) ==> Offset(c.chunkSize, c.total - 1) + LastLength(c) > |c.source|
  {
    var cs, size, m := c.chunkSize, |c.source|, TotalChunks(|c.source|, c.chunkSize);
    TotalChunksSpec(size, cs);
    if CountsMatch(c) {
      LastRemainder(size, cs, c.total - 1, size - Offset(cs, c.total - 1));
    } else {
      MoreChunks(size, cs, Clamp(cs));
      OffsetMono(cs, m, c.total - 1);
    }
  }

  /** Smaller chunks are never fewer. */
  lemma MoreChunks(size: nat, cs: nat, less: nat)
    requires MIN_CHUNK_SIZE <= cs && less == Clamp(cs)
    ensures TotalChunks(size, cs) <= TotalChunks(size, less)
  {
    if size > 0 && less < cs {
      var m, n := TotalChunks(size, cs), TotalChunks(size, less);
      TotalChunksSpec(size, cs);
      TotalChunksSpec(size, less);
      if n < m {
        OffsetMono(cs, n, m - 1);
        assert Offset(cs, n) == Offset(less, n) + n * (cs - less);
        MulAtLeast(n, cs - less);
      }
    }
  }

  lemma OffsetFits(c: Config)
    requires c.chunkSize > 0 && c.start == StartChunk(c.total, c.chunkSize, c.offset)
    ensures Offset(c.chunkSize, c.start) <= c.offset
  {
    OffsetMono(c.chunkSize, c.start, c.offset / c.chunkSize);
    assert c.offset == c.offset / c.chunkSize * c.chunkSize + c.offset % c.chunkSize;
  }

  lemma CountNow(c: Config, n: nat)
    requires WellFormed(c) && c.start <= n <= c.total && CountsExactly(c)
    ensures c.offset + Acknowledged(c, n) == Min(Offset(c.chunkSize, n), |c.source|)
  {
    AcknowledgedBytes(c, n);
    LastLengthFits(c);
    TotalChunksSpec(|c.source|, c.chunkSize);
    if n < c.total { OffsetMono(c.chunkSize, n, c.total - 1); }
  }

  /** In every reachable state the sender's byte count and the persisted one are whole chunks beyond the
      offset; counted exactly, they are the end of the last acknowledged chunk. */
  lemma SenderAccounting(c: Config, leftover: Bytes, row: Resume.Record, steps: seq<Step>, s: State)
    requires Reached(c, leftover, row, steps, s)
    ensures var n := s.sender.nextToAck;
            && c.start <= n <= c.total
            && (n < c.total ==> s.sender.bytesSent == c.offset + Offset(c.chunkSize, n) - Offset(c.chunkSize, c.start))
            && (CountsExactly(c) ==> s.sender.bytesSent == Min(Offset(c.chunkSize, n), |c.source|))
            && (n > c.start && s.sender.phase != Succeeded ==> s.sender.record.transferred == s.sender.bytesSent)
  {
    ReachedInv(c, leftover, row, steps, s);
    AcknowledgedBytes(c, s.sender.nextToAck);
    if CountsExactly(c) { CountNow(c, s.sender.nextToAck); }
  }

  lemma FinalCount(c: Config)
    requires WellFormed(c) && c.start == StartChunk(c.total, c.chunkSize, c.offset)
    ensures c.offset + Acknowledged(c, c.total) >= |c.source|
    ensures c.offset + Acknowledged(c, c.total) == |c.source| <==> CountsExactly(c)
  {
    AcknowledgedBytes(c, c.total);
    OffsetFits(c);
    if |c.source| > 0 {
      LastLengthFits(c);
    } else {
      OffsetMono(c.chunkSize, c.start, c.total - 1);
    }
  }

  /** Once every ack is in, the sender's count is the file size exactly when the file is not empty, the
      chunk count is right for the announced size, and the offset is the start of the chunk resumed at. */
  lemma ResumeAccounting(c: Config, leftover: Bytes, row: Resume.Record, steps: seq<Step>, s: State)
    requires Reached(c, leftover, row, steps, s) && s.sender.nextToAck == c.total
    requires c.start == StartChunk(c.total, c.chunkSize, c.offset)
    ensures s.sender.bytesSent == |c.source| <==> CountsExactly(c)
    ensures s.sender.bytesSent >= |c.source|
  {
    ReachedInv(c, leftover, row, steps, s);
    FinalCount(c);
  }

  /** The row follows the acks: without one it stays, and its file size always does. */
  predicate RowFollows(s: Sender, t: Sender) {
    && t.record.fileSize == s.record.fileSize
    && t.nextToAck >= s.nextToAck
    && (t.nextToAck == s.nextToAck && t.phase != Succeeded ==> t.record.transferred == s.record.transferred)
  }

  lemma RowStep(c: Config, s: State, step: Step)
    requires c.chunkSize > 0 && Enabled(c, s, step)
    ensures RowFollows(s.sender, Apply(c, s, step).sender)
    ensures s.sender.phase == Succeeded ==> Apply(c, s, step).sender == s.sender
  {
    if !OfSender(step) { OthersKeepSender(c, s, step); }
  }

  lemma OthersKeepSender(c: Config, s: State, step: Step)
    requires c.chunkSize > 0 && Enabled(c, s, step) && !OfSender(step)
    ensures Apply(c, s, step).sender == s.sender
  {
  }

  lemma {:induction false} RowKept(c: Config, s: State, steps: seq<Step>)
    requires c.chunkSize > 0 && IsRun(c, s, steps)
    ensures RowFollows(s.sender, After(c, s, steps).sender)
    ensures s.sender.phase == Succeeded ==> After(c, s, steps).sender == s.sender
    decreases |steps|
  {
    if steps != [] {
      RowStep(c, s, steps[0]);
      RowKept(c, Apply(c, s, steps[0]), steps[1..]);
    }
  }

  /** What the row of a session holds: the offset, then the sender's count, at the end the file size. */
  function Persisted(c: Config, s: Sender): int {
    if s.phase == Succeeded then |c.source| else if s.nextToAck == c.start then c.offset else s.bytesSent
  }

  /** What is known of the sender's numbers in every reachable state. */
  predicate Numbers(c: Config, s: Sender)
    requires c.chunkSize > 0
  {
    && c.start <= s.nextToAck <= c.total
    && s.record.transferred == Persisted(c, s)
    && (s.nextToAck == c.start ==> s.bytesSent == c.offset)
    && (CountsExactly(c) ==> s.bytesSent == Min(Offset(c.chunkSize, s.nextToAck), |c.source|))
  }

  lemma RowOfRun(c: Config, leftover: Bytes, row: Resume.Record, steps: seq<Step>, s: State)
    requires Reached(c, leftover, row, steps, s) && row.fileSize == |c.source| && row.transferred == c.offset
    ensures Numbers(c, s.sender)
  {
    ReachedInv(c, leftover, row, steps, s);
    RowKept(c, Init(c, leftover, row), steps);
    SenderAccounting(c, leftover, row, steps, s);
    AcknowledgedBytes(c, c.start);
  }

  lemma {:induction false} RunSnoc(c: Config, s: State, steps: seq<Step>, step: Step)
    requires c.chunkSize > 0 && IsRun(c, s, steps) && Enabled(c, After(c, s, steps), step)
    ensures IsRun(c, s, steps + [step])
    ensures After(c, s, steps + [step]) == Apply(c, After(c, s, steps), step)
    decreases |steps|
  {
    if steps == [] {
      assert steps + [step] == [step] && [step][1..] == [];
      assert IsRun(c, Apply(c, s, step), [step][1..]);
    } else {
      RunSnoc(c, Apply(c, s, steps[0]), steps[1..], step);
      assert (steps + [step])[1..] == steps[1..] + [step];
    }
  }

  /** No step lowers the stored progress, except that success sets it to the file size, which a count
      that came out too high lies above. */
  lemma ProgressNeverDecreases(c: Config, leftover: Bytes, row: Resume.Record, steps: seq<Step>, s: State, step: Step)
    requires Reached(c, leftover, row, steps, s) && row.fileSize == |c.source| && row.transferred == c.offset
    requires Enabled(c, s, step)
    ensures var t := Apply(c, s, step);
            && (t.sender.phase == Succeeded ==> t.sender.record.transferred == |c.source|)
            && (t.sender.phase != Succeeded || CountsExactly(c) ==>
                  s.sender.record.transferred <= t.sender.record.transferred)
            && (CountsExactly(c) ==> t.sender.record.transferred <= |c.source|)
  {
    RowOfRun(c, leftover, row, steps, s);
    RunSnoc(c, Init(c, leftover, row), steps, step);
    RowOfRun(c, leftover, row, steps + [step], Apply(c, s, step));
    CountForward(c, s, step);
    NumbersForward(c, s.sender, Apply(c, s, step).sender);
  }

  lemma NumbersForward(c: Config, s: Sender, t: Sender)
    requires c.chunkSize > 0 && Numbers(c, s) && Numbers(c, t) && s.bytesSent <= t.bytesSent && s.nextToAck <= t.nextToAck
    requires s.phase == Succeeded ==> t == s
    ensures t.phase == Succeeded ==> t.record.transferred == |c.source|
    ensures t.phase != Succeeded || CountsExactly(c) ==> s.record.transferred <= t.record.transferred
    ensures CountsExactly(c) ==> t.record.transferred <= |c.source|
  {
  }

  lemma CountForward(c: Config, s: State, step: Step)
    requires c.chunkSize > 0 && Enabled(c, s, step)
    ensures s.sender.bytesSent <= Apply(c, s, step).sender.bytesSent
    ensures s.sender.nextToAck <= Apply(c, s, step).sender.nextToAck
    ensures s.sender.phase == Succeeded ==> Apply(c, s, step).sender == s.sender
  {
  }

  // ---- termination ----

  function SendRank(phase: SendPhase): nat {
    match phase
    case Draining => 3
    case Selecting => 2
    case Verifying => 1
    case _ => 0
  }

  function ProducerLoad(total: nat, p: Producer): int {
    16 * (total - p.next) + 15 * |p.encrypting| + 14 * |p.sending| + |p.encoded| + if p.stopped then 0 else 1
  }

  function SenderLoad(s: Sender): int {
    10 * |s.buffer.pending| + SendRank(s.phase)
  }

  function ReceiverLoad(r: Receiver): int {
    7 * |r.decrypting| + 6 * |r.writing| + 5 * |r.hashing| + 3 * |r.finished|
    + if r.phase.Receiving? || r.phase.AwaitingHash? then 3 else 0
  }

  /** Every chunk weighs what it still has to go through. */
  function Measure(c: Config, s: State): int {
    ProducerLoad(c.total, s.producer) + 12 * |s.net| + SenderLoad(s.sender) + 9 * |s.wire| + 8 * |s.arrived|
    + ReceiverLoad(s.receiver) + |s.hashQueue| + 2 * |s.backWire| + |s.replies|
    + (if s.paused then 0 else 1) + if s.choked then 0 else 1
  }

  lemma MapShrinks<T>(m: map<nat, T>, i: nat)
    requires i in m
    ensures |m - {i}| == |m| - 1
  {
    assert (m - {i}).Keys == m.Keys - {i};
  }

  lemma EncryptLoad(total: nat, p: Producer, q: Producer, i: nat, f: Frame)
    requires i in p.encrypting && q == p.(encrypting := p.encrypting - {i}, sending := p.sending[i := f])
    ensures ProducerLoad(total, q) < ProducerLoad(total, p)
  {
    MapShrinks(p.encrypting, i);
    MapGrows(p.sending, i, f);
  }

  lemma OfferLoad(total: nat, p: Producer, q: Producer, i: nat)
    requires i in p.sending && q == p.(sending := p.sending - {i}, encoded := p.encoded + {i})
    ensures ProducerLoad(total, q) <= ProducerLoad(total, p) - 13
  {
    MapShrinks(p.sending, i);
  }

  lemma DecryptLoad(r: Receiver, q: Receiver, i: nat, data: Bytes)
    requires i in r.decrypting && q == r.(decrypting := r.decrypting - {i}, writing := r.writing[i := data])
    ensures ReceiverLoad(q) < ReceiverLoad(r)
  {
    MapShrinks(r.decrypting, i);
    MapGrows(r.writing, i, data);
  }

  lemma WriteLoad(r: Receiver, q: Receiver, i: nat)
    requires i in r.writing && q == r.(writing := r.writing - {i}, hashing := r.hashing[i := r.writing[i]])
    ensures ReceiverLoad(q) < ReceiverLoad(r)
  {
    MapShrinks(r.writing, i);
    MapGrows(r.hashing, i, r.writing[i]);
  }

  lemma ReportLoad(r: Receiver, q: Receiver, i: nat)
    requires i in r.hashing && q == r.(hashing := r.hashing - {i}, finished := r.finished + {i})
    ensures ReceiverLoad(q) <= ReceiverLoad(r) - 2
  {
    MapShrinks(r.hashing, i);
  }

  lemma ProducerDecreases(c: Config, s: State, step: Step)
    requires c.chunkSize > 0 && OfProducer(step) && Enabled(c, s, step)
    ensures Measure(c, Apply(c, s, step)) < Measure(c, s)
  {
    var p, t := s.producer, Apply(c, s, step);
    match step
    case Spawn => MapGrows(p.encrypting, p.next, Data(c, p.next));
    case EncryptChunk(i) => EncryptLoad(c.total, p, t.producer, i, SealChunk(c, i, p.encrypting[i]));
    case OfferFrame(i) => OfferLoad(c.total, p, t.producer, i);
    case _ =>
  }

  lemma SenderDecreases(c: Config, s: State, step: Step)
    requires c.chunkSize > 0 && OfSender(step) && Enabled(c, s, step)
    ensures Measure(c, Apply(c, s, step)) < Measure(c, s)
  {
    match step
    case AcceptFrame => MapGrows(s.sender.buffer.pending, s.net[0].0, s.net[0].1);
    case DrainOne => DrainDecreases(c, s);
    case TakeReply => ReplyDecreases(c, s);
    case _ =>
  }

  lemma ReplyDecreases(c: Config, s: State)
    requires c.chunkSize > 0 && Enabled(c, s, TakeReply)
    ensures Measure(c, Apply(c, s, TakeReply)) < Measure(c, s)
  {
    var t := Apply(c, s, TakeReply).sender;
    assert t.buffer == s.sender.buffer && SendRank(t.phase) <= SendRank(s.sender.phase);
  }

  lemma DrainDecreases(c: Config, s: State)
    requires c.chunkSize > 0 && s.sender.phase == Draining
    ensures Measure(c, Apply(c, s, DrainOne)) < Measure(c, s)
  {
    var b := s.sender.buffer;
    if R.Ready(b) { MapShrinks(b.pending, b.next); }
  }

  lemma TaskDecreases(c: Config, s: State, step: Step)
    requires c.chunkSize > 0 && OfTask(step) && Enabled(c, s, step)
    ensures Measure(c, Apply(c, s, step)) < Measure(c, s)
  {
    var r, t := s.receiver, Apply(c, s, step);
    match step
    case TakeFrame => MapGrows(r.decrypting, s.arrived[0].index, s.arrived[0]);
    case DecryptChunk(i) =>
      match OpenChunk(c, r.decrypting[i]) {
        case Some(data) => DecryptLoad(r, t.receiver, i, data);
        case None => MapShrinks(r.decrypting, i);
      }
    case WriteChunk(i) => WriteLoad(r, t.receiver, i);
    case ReportHash(i) => ReportLoad(r, t.receiver, i);
  }

  /** Every step, from any state whatever, lowers the measure. */
  lemma MeasureDecreases(c: Config, s: State, step: Step)
    requires c.chunkSize > 0 && Enabled(c, s, step)
    ensures Measure(c, Apply(c, s, step)) < Measure(c, s)
  {
    if OfProducer(step) {
      ProducerDecreases(c, s, step);
    } else if OfSender(step) {
      SenderDecreases(c, s, step);
    } else if OfTask(step) {
      TaskDecreases(c, s, step);
    }
  }

  lemma {:induction false} RunShortens(c: Config, s: State, steps: seq<Step>)
    requires c.chunkSize > 0 && IsRun(c, s, steps)
    ensures |steps| <= Measure(c, s) - Measure(c, After(c, s, steps))
    decreases |steps|
  {
    if steps != [] {
      MeasureDecreases(c, s, steps[0]);
      RunShortens(c, Apply(c, s, steps[0]), steps[1..]);
    }
  }

  /** No run of the pipeline is longer than sixteen steps for each chunk to send and eight more. */
  lemma RunsEnd(c: Config, leftover: Bytes, row: Resume.Record, steps: seq<Step>, s: State)
    requires Reached(c, leftover, row, steps, s)
    ensures |steps| <= 16 * (c.total - c.start) + 8
  {
    RunShortens(c, Init(c, leftover, row), steps);
    ReachedInv(c, leftover, row, steps, s);
    FirstMeasure(c, leftover, row);
    MeasureNotNegative(c, s);
  }

  lemma FirstMeasure(c: Config, leftover: Bytes, row: Resume.Record)
    ensures Measure(c, Init(c, leftover, row)) == 16 * (c.total - c.start) + 8
  {
  }

  lemma MeasureNotNegative(c: Config, s: State)
    requires s.producer.next <= c.total
    ensures Measure(c, s) >= 0
  {
  }

  // ---- no deadlock, and the one way to hang ----

  /** No task of the pipeline can act; the user could still press Ctrl-C. */
  ghost predicate Stuck(c: Config, s: State) {
    forall step: Step :: Enabled(c, s, step) ==> step.PressPause?
  }

  predicate Ended(s: State) {
    s.sender.phase in {PausedOut, Succeeded, Failed}
  }

  /** The select loop waits with everything spawned so far acknowledged. */
  predicate Idle(s: State) {
    s.sender.phase == Selecting && s.producer.next == s.sender.nextToAck
  }

  /** The select loop waits while the producer has left early, everything it spawned is acknowledged,
      its tasks are joined and the hashing thread is idle. */
  predicate Drained(s: State) {
    && Idle(s) && s.producer.stopped
    && s.producer.encoded == {} && s.hashQueue == []
  }

  /** With nothing enabled, no task holds a chunk anywhere. */
  lemma NothingHeld(c: Config, s: State)
    requires Stuck(c, s)
    ensures s.producer.encrypting == map[]
    ensures s.receiver.decrypting == map[] && s.receiver.writing == map[] && s.receiver.hashing == map[]
    ensures s.receiver.phase == Receiving ==> s.receiver.finished == {} && s.arrived == [] && !s.choked
    ensures |s.arrived| < CHUNK_CAPACITY ==> s.wire == [] || s.choked
    ensures s.hashQueue == [] && s.sender.phase != Draining
    ensures |s.net| < NET_CAPACITY ==> s.producer.sending == map[]
  {
    var p, r := s.producer, s.receiver;
    forall i: nat ensures i !in p.encrypting { assert !Enabled(c, s, EncryptChunk(i)); }
    forall i: nat ensures i !in r.decrypting { assert !Enabled(c, s, DecryptChunk(i)); }
    forall i: nat ensures i !in r.writing { assert !Enabled(c, s, WriteChunk(i)); }
    forall i: nat ensures i !in r.hashing { assert !Enabled(c, s, ReportHash(i)); }
    if r.phase == Receiving {
      assert !Enabled(c, s, TakeFrame) && !Enabled(c, s, TakeError);
      forall i: nat ensures i !in r.finished { assert !Enabled(c, s, AckChunk(i)); }
    }
    assert !Enabled(c, s, CarryFrame) && !Enabled(c, s, Choke) && !Enabled(c, s, HashOne) && !Enabled(c, s, DrainOne);
    if |s.net| < NET_CAPACITY {
      forall i: nat ensures i !in p.sending { assert !Enabled(c, s, OfferFrame(i)); }
    }
  }

  lemma NothingInbound(c: Config, s: State)
    requires Stuck(c, s) && s.sender.phase in {Selecting, Verifying}
    ensures s.replies == [] && s.backWire == [] && s.replies + s.backWire == []
    ensures s.receiver.phase != AwaitingHash
  {
    NothingHeld(c, s);
    assert !Enabled(c, s, TakeReply);
    assert !Enabled(c, s, CarryReply);
    assert !Enabled(c, s, Verdict);
  }

  lemma NothingEncoded(c: Config, s: State)
    requires Stuck(c, s)
    ensures Tasks(s.producer) >= ENCRYPT_TASKS || s.producer.next >= c.total || s.producer.stopped
            ==> s.producer.encoded == {}
  {
    forall i: nat ensures !(i in s.producer.encoded && Enabled(c, s, JoinEncoder(i))) {
      assert !Enabled(c, s, JoinEncoder(i));
    }
  }

  /** A select loop that cannot move has nothing in flight. */
  lemma NothingInFlight(c: Config, plan: Plan, s: State)
    requires Inv(c, plan, s) && Stuck(c, s) && s.sender.phase == Selecting
    ensures s.sender.buffer.next == s.sender.nextToAck
  {
    NothingHeld(c, s);
    NothingInbound(c, s);
    RepliesCount(c, [], s.acked, s.sender.nextToAck, s.receiver.phase, s.sender.phase);
  }

  lemma RepliesCount(c: Config, inbound: seq<Reply>, acked: seq<nat>, n: nat, r: RecvPhase, s: SendPhase)
    requires RepliesOk(c, inbound, acked, n, r, s) && !Judged(s)
    ensures |inbound| == |acked| - n + |LastWord(c, r)|
  {
  }

  lemma NothingSending(c: Config, s: State)
    requires Stuck(c, s) && s.sender.phase == Selecting && s.sender.buffer.next == s.sender.nextToAck
    ensures s.net == [] && s.producer.sending == map[] && s.producer.encrypting == map[]
  {
    NothingHeld(c, s);
    assert !Enabled(c, s, AcceptFrame);
  }

  lemma NothingSpawned(c: Config, s: State)
    requires Stuck(c, s) && s.producer.next < c.total
    requires s.producer.encrypting == map[] && s.producer.sending == map[]
    ensures s.producer.stopped && s.producer.encoded == {}
  {
    NothingEncoded(c, s);
    assert !Enabled(c, s, Spawn) && !Enabled(c, s, StopProducer);
  }

  /** With nothing between them, the producer is where the sender's buffer waits. */
  lemma AllSent(p: Producer, b: R.Buffer<Frame>)
    requires QueueOk(p, [], b) && p.encrypting == map[] && p.sending == map[] && !R.Ready(b)
    ensures p.next == b.next
  {
    assert QueuePlace(b.next, p, [], b);
  }

  lemma StuckSelecting(c: Config, plan: Plan, s: State)
    requires Inv(c, plan, s) && Stuck(c, s) && s.sender.phase == Selecting
    ensures Drained(s)
  {
    NothingInFlight(c, plan, s);
    SelectingDrains(c, s);
  }

  lemma SelectingDrains(c: Config, s: State)
    requires Stuck(c, s) && s.sender.phase == Selecting && s.sender.buffer.next == s.sender.nextToAck < c.total
    requires QueueOk(s.producer, s.net, s.sender.buffer) && !R.Ready(s.sender.buffer)
    ensures Drained(s)
  {
    NothingSending(c, s);
    AllSent(s.producer, s.sender.buffer);
    NothingSpawned(c, s);
    NothingHeld(c, s);
  }

  /** The wait for the verdict cannot get stuck. */
  lemma VerdictComes(c: Config, plan: Plan, s: State)
    requires Inv(c, plan, s) && s.sender.phase == Verifying
    ensures !Stuck(c, s)
  {
    if Stuck(c, s) {
      NothingInbound(c, s);
      RepliesCount(c, [], s.acked, s.sender.nextToAck, s.receiver.phase, s.sender.phase);
    }
  }

  lemma StuckIsDrained(c: Config, plan: Plan, s: State)
    requires Inv(c, plan, s) && Stuck(c, s) && !Ended(s)
    ensures Drained(s)
  {
    NothingHeld(c, s);
    if s.sender.phase == Verifying { VerdictComes(c, plan, s); }
    StuckSelecting(c, plan, s);
  }

  lemma DrainedIsStuck(c: Config, plan: Plan, s: State)
    requires Inv(c, plan, s) && Drained(s)
    ensures Stuck(c, s)
  {
    IdleIsEmpty(c, plan, s);
    EmptyIsStuck(c, s);
  }

  lemma EmptyIsStuck(c: Config, s: State)
    requires s.producer.encrypting == map[] && s.producer.sending == map[] && s.net == [] && Drained(s)
    requires s.wire == [] && s.arrived == [] && s.replies == [] && s.backWire == [] && !s.choked
    requires s.receiver.decrypting == map[] && s.receiver.writing == map[] && s.receiver.hashing == map[]
    requires s.receiver.finished == {} && s.receiver.phase == Receiving
    ensures Stuck(c, s)
  {
    forall step: Step ensures Enabled(c, s, step) ==> step.PressPause? {
      match step
      case _ =>
    }
  }

  /** A session that has not ended is stuck exactly when its producer has left early and everything it
      spawned has been acknowledged and cleared away; the select loop then waits for ever. */
  lemma StuckExactlyWhenDrained(c: Config, leftover: Bytes, row: Resume.Record, steps: seq<Step>, s: State)
    requires Reached(c, leftover, row, steps, s) && !Ended(s)
    ensures Stuck(c, s) <==> Drained(s)
    ensures Drained(s) ==> s.paused
  {
    ReachedInv(c, leftover, row, steps, s);
    if Stuck(c, s) { StuckIsDrained(c, PlanOf(c), s); }
    if Drained(s) { DrainedIsStuck(c, PlanOf(c), s); }
  }

  lemma HeadIndex<T>(queue: seq<(nat, T)>)
    ensures queue == [] || queue[0].0 in R.Indices(queue)
  {
  }

  lemma ClosedQueueIsEmpty(p: Producer, net: seq<(nat, Frame)>, b: R.Buffer<Frame>)
    requires QueueOk(p, net, b) && p.next == b.next
    ensures p.encrypting == map[] && p.sending == map[] && net == []
  {
    forall i: nat ensures i !in p.encrypting && i !in p.sending && i !in R.Indices(net) {
      assert QueuePlace(i, p, net, b);
    }
    HeadIndex(net);
  }

  /** An idle sender has nothing in flight anywhere. */
  lemma IdleIsEmpty(c: Config, plan: Plan, s: State)
    requires Inv(c, plan, s) && Idle(s)
    ensures s.producer.encrypting == map[] && s.producer.sending == map[] && s.net == []
    ensures s.wire == [] && s.arrived == [] && s.replies == [] && s.backWire == [] && !s.choked
    ensures s.receiver.decrypting == map[] && s.receiver.writing == map[] && s.receiver.hashing == map[]
    ensures s.receiver.finished == {} && s.receiver.phase == Receiving
  {
    assert s.acked[s.sender.nextToAck..] == [];
    assert s.replies + s.backWire == [];
    ClosedQueueIsEmpty(s.producer, s.net, s.sender.buffer);
  }

  /** Once paused, an idle sender stays idle and no other becomes it. */
  lemma IdleStays(c: Config, plan: Plan, s: State, step: Step)
    requires Inv(c, plan, s) && s.paused && Enabled(c, s, step)
    ensures Idle(s) <==> Idle(Apply(c, s, step))
    ensures Apply(c, s, step).paused
  {
    if Idle(s) {
      IdleIsEmpty(c, plan, s);
      EmptyStaysIdle(c, s, step);
    } else {
      NotIdleStays(c, s, step);
    }
  }

  lemma EmptyStaysIdle(c: Config, s: State, step: Step)
    requires c.chunkSize > 0 && Idle(s) && s.paused && s.net == [] && s.replies == [] && Enabled(c, s, step)
    ensures Idle(Apply(c, s, step)) && Apply(c, s, step).paused
  {
  }

  lemma NotIdleStays(c: Config, s: State, step: Step)
    requires c.chunkSize > 0 && !Idle(s) && s.paused && Enabled(c, s, step)
    ensures !Idle(Apply(c, s, step)) && Apply(c, s, step).paused
  {
  }

  lemma {:induction false} IdleRun(c: Config, plan: Plan, s: State, steps: seq<Step>)
    requires WellFormed(c) && IsPlan(c, plan) && Inv(c, plan, s) && s.paused && IsRun(c, s, steps)
    ensures Idle(s) <==> Idle(After(c, s, steps))
    decreases |steps|
  {
    if steps != [] {
      IdleStays(c, plan, s, steps[0]);
      StepInv(c, plan, s, steps[0]);
      IdleRun(c, plan, Apply(c, s, steps[0]), steps[1..]);
    }
  }

  /** The one way to hang: when Ctrl-C is pressed, whether the sender will end is decided by whether its
      select loop is idle at that moment.  However the session goes on, once it cannot go further the
      sender is still waiting exactly when it was. */
  lemma PauseHangsExactlyWhenIdle(c: Config, leftover: Bytes, row: Resume.Record, steps: seq<Step>, s: State,
                                  more: seq<Step>, t: State)
    requires Reached(c, leftover, row, steps, s) && !s.paused
    requires IsRun(c, Apply(c, s, PressPause), more) && t == After(c, Apply(c, s, PressPause), more) && Stuck(c, t)
    ensures !Ended(t) <==> Idle(s)
  {
    ReachedInv(c, leftover, row, steps, s);
    StepInv(c, PlanOf(c), s, PressPause);
    PausedEnd(c, PlanOf(c), Apply(c, s, PressPause), more);
  }

  lemma PausedEnd(c: Config, plan: Plan, s: State, more: seq<Step>)
    requires WellFormed(c) && IsPlan(c, plan) && Inv(c, plan, s) && s.paused && IsRun(c, s, more)
    requires Stuck(c, After(c, s, more))
    ensures !Ended(After(c, s, more)) <==> Idle(s)
  {
    IdleRun(c, plan, s, more);
    RunInv(c, plan, s, more);
    StuckEnd(c, plan, After(c, s, more));
  }

  lemma StuckEnd(c: Config, plan: Plan, s: State)
    requires Inv(c, plan, s) && Stuck(c, s)
    ensures !Ended(s) <==> Idle(s)
  {
    if !Ended(s) { StuckIsDrained(c, plan, s); }
  }

  /** Pressing Ctrl-C before the producer has looked at its first chunk is enough, for every session. */
  lemma EarlyPauseHangs(c: Config, leftover: Bytes, row: Resume.Record)
    requires WellFormed(c)
    ensures var steps := [PressPause, StopProducer];
            && IsRun(c, Init(c, leftover, row), steps)
            && !Ended(After(c, Init(c, leftover, row), steps))
            && Stuck(c, After(c, Init(c, leftover, row), steps))
  {
    var s := Init(c, leftover, row);
    var s1 := Apply(c, s, PressPause);
    var s2 := Apply(c, s1, StopProducer);
    InitInv(c, PlanOf(c), leftover, row);
    StepInv(c, PlanOf(c), s, PressPause);
    StepInv(c, PlanOf(c), s1, StopProducer);
    DrainedIsStuck(c, PlanOf(c), s2);
    TwoStepRun(c, s, PressPause, StopProducer);
  }

  lemma TwoStepRun(c: Config, s: State, a: Step, b: Step)
    requires c.chunkSize > 0 && Enabled(c, s, a) && Enabled(c, Apply(c, s, a), b)
    ensures IsRun(c, s, [a, b]) && After(c, s, [a, b]) == Apply(c, Apply(c, s, a), b)
  {
    var t := Apply(c, s, a);
    assert [a, b][1..] == [b] && [b][1..] == [];
    assert IsRun(c, Apply(c, t, b), [b][1..]);
    assert IsRun(c, t, [b]) && After(c, t, [b]) == Apply(c, t, b);
  }

  // ---- the whole transfer ----

  lemma {:induction false} NeverPaused(c: Config, s: State, steps: seq<Step>)
    requires c.chunkSize > 0 && IsRun(c, s, steps) && !s.paused && PressPause !in steps
    ensures !After(c, s, steps).paused
    decreases |steps|
  {
    if steps != [] {
      assert steps[0] in steps;
      NeverPaused(c, Apply(c, s, steps[0]), steps[1..]);
    }
  }

  /** What an undisturbed session comes to: it always ends, and the sender succeeds exactly when the
      session is transferable, with the transfer recorded as completed, and the file equal to the source
      exactly when the offsets match; otherwise it fails and the transfer is recorded as failed. */
  lemma TransferSucceeds(c: Config, leftover: Bytes, row: Resume.Record, steps: seq<Step>, s: State)
    requires Reached(c, leftover, row, steps, s) && PressPause !in steps && Stuck(c, s)
    ensures s.sender.phase == (if Transferable(c) then Succeeded else Failed)
    ensures Transferable(c) ==> s.sender.record.status == Resume.Completed
                                && s.sender.record.checksum == Some(Digest(c.source))
                                && (s.file == c.source <==> OffsetsMatch(c))
    ensures !Transferable(c) ==> s.sender.record.status == Resume.Failed
  {
    NeverPaused(c, Init(c, leftover, row), steps);
    ReachedInv(c, leftover, row, steps, s);
    if !Ended(s) { StuckIsDrained(c, PlanOf(c), s); }
    if s.choked { ChokedMeansOversized(c, PlanOf(c), s); }
    if s.receiver.phase.Closed? { ClosedMeansCarried(c, PlanOf(c), s); }
    if s.receiver.phase == Closed(true) { ClosedMeansSource(c, PlanOf(c), s); }
  }

  /** From any moment of an undisturbed session the tasks can carry it to its end. */
  lemma CanAlwaysFinish(c: Config, leftover: Bytes, row: Resume.Record, steps: seq<Step>, s: State)
    returns (run: seq<Step>, t: State)
    requires Reached(c, leftover, row, steps, s) && PressPause !in steps
    ensures steps <= run && PressPause !in run && Reached(c, leftover, row, run, t)
    ensures t.sender.phase == if Transferable(c) then Succeeded else Failed
    decreases 16 * (c.total - c.start) + 8 - |steps|
  {
    run, t := steps, s;
    if Stuck(c, s) {
      TransferSucceeds(c, leftover, row, steps, s);
    } else {
      var step :| Enabled(c, s, step) && !step.PressPause?;
      RunSnoc(c, Init(c, leftover, row), steps, step);
      RunsEnd(c, leftover, row, steps + [step], Apply(c, s, step));
      run, t := CanAlwaysFinish(c, leftover, row, steps + [step], Apply(c, s, step));
    }
  }

  // ---- which sessions there are ----

  /** What `create_metadata` announces for a file and a requested chunk size, resumed at `offset`. */
  function Announce(source: Bytes, requested: nat, offset: nat, key: Key, prefix: Bytes, shrink: seq<Option<nat>>)
    : Config
  {
    var cs := Announced(requested);
    var total := TotalChunks(|source|, Clamp(cs));
    Config(source, cs, total, Digest(source), offset, StartChunk(total, cs, offset), key, prefix, shrink)
  }

  /** The sessions the theorems speak of are all those announced, for any file, chunk size and offset, as
      long as the chunk index fits its 32 bits; both ends agree on the offsets exactly when the requested
      size survives the clamp or the file is a single chunk. */
  lemma AnnouncedSession(source: Bytes, requested: nat, offset: nat, key: Key, prefix: Bytes, shrink: seq<Option<nat>>)
    requires |source| < U64_MODULUS && |prefix| == PREFIX_LENGTH
    requires |shrink| == TotalChunks(|source|, Clamp(Announced(requested)))
    ensures var c := Announce(source, requested, offset, key, prefix, shrink);
            && (WellFormed(c) <==> |source| <= U32_MODULUS * Clamp(Announced(requested)))
            && (OffsetsMatch(c) <==> requested <= MAX_CHUNK_SIZE || |source| <= MAX_CHUNK_SIZE)
            && (WellFormed(c) && OffsetsMatch(c) ==> CountsMatch(c))
  {
    var cs := Clamp(Announced(requested));
    TotalChunksSpec(|source|, cs);
    var n := TotalChunks(|source|, cs);
    if n <= U32_MODULUS { OffsetMono(cs, n, U32_MODULUS); } else { OffsetMono(cs, U32_MODULUS, n - 1); }
    var c := Announce(source, requested, offset, key, prefix, shrink);
    if WellFormed(c) && OffsetsMatch(c) { SameChunks(c, 0); }
  }

  /** Without compression the frames fit exactly when the first chunk to send, which is a longest one,
      leaves room for the frame's overhead: a full chunk of 64 MB does not. */
  lemma UncompressedCarries(c: Config)
    requires WellFormed(c) && forall i :: 0 <= i < |c.shrink| ==> c.shrink[i] == None
    ensures Carries(c) <==> |Data(c, c.start)| + FRAME_OVERHEAD <= Framing.MAX_PAYLOAD_SIZE
  {
    forall i: nat | c.start <= i < c.total
      ensures ChunkFits(c, i) <==> |Data(c, i)| + FRAME_OVERHEAD <= Framing.MAX_PAYLOAD_SIZE
      ensures |Data(c, i)| <= |Data(c, c.start)|
    {
      OffsetMono(Clamp(c.chunkSize), c.start, i);
    }
  }
}
