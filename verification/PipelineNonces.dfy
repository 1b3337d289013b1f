/** Which frames open, and that no two frames of a command-line session share a nonce. */
module PipelineNonces {
  import opened Basics
  import opened Aead
  import Framing
  import Resume
  import opened Pipeline
  import opened PipelineInvariant
  import opened PipelineTheorems

  /** The nonce of a chunk is the session's prefix and the chunk's 64-bit index. */
  lemma FrameNonce(c: Config, i: nat, data: Bytes)
    ensures SealChunk(c, i, data).sealed.nonce == BuildNonce(c.prefix, i)
    ensures SealChunk(c, i, data).sealed.key == c.key
  {
  }

  /** No two chunks of a session are sealed under one nonce. */
  lemma ChunkNoncesDistinct(c: Config, i: nat, j: nat)
    requires WellFormed(c) && i < j < c.total
    ensures SealChunk(c, i, Data(c, i)).sealed.nonce != SealChunk(c, j, Data(c, j)).sealed.nonce
  {
    FrameNonce(c, i, Data(c, i));
    FrameNonce(c, j, Data(c, j));
    NoncesDiffer(c.prefix, i, j);
  }

  lemma NoncesDiffer(prefix: Bytes, i: nat, j: nat)
    requires i < U64_MODULUS && j < U64_MODULUS && i != j
    ensures BuildNonce(prefix, i) != BuildNonce(prefix, j)
  {
    NonceInjective(prefix, i, j);
  }

  /** A frame opens under a session's key at an index exactly when that key sealed it, in a session of that
      nonce prefix, for that index; and then it opens to the chunk. */
  lemma OpensExactly(c: Config, d: Config, i: nat, j: nat, data: Bytes)
    requires |c.prefix| == |d.prefix| && i < U64_MODULUS && j < U64_MODULUS
    ensures OpenChunk(d, SealChunk(c, i, data).(index := j))
            == if c.key == d.key && c.prefix == d.prefix && i == j then Some(data) else None
  {
    FrameNonce(c, i, data);
    if c.prefix != d.prefix {
      var n := |c.prefix|;
      assert BuildNonce(c.prefix, i)[..n] == c.prefix && BuildNonce(d.prefix, j)[..n] == d.prefix;
    } else if i != j {
      NoncesDiffer(c.prefix, i, j);
    }
  }

  /** Nor does it open when its compression flag has been turned. */
  lemma TurnedFlagFails(c: Config, i: nat, data: Bytes)
    ensures var f := SealChunk(c, i, data); OpenChunk(c, f.(compressed := !f.compressed)) == None
  {
  }

  /** The length of a frame is that of its encoding as a tagged message, for any ciphertext that is as long
      as the packed chunk and its authentication tag. */
  lemma FrameLength(c: Config, i: nat, data: Bytes, ciphertext: Bytes)
    requires |ciphertext| == TAG_LENGTH + if i < |c.shrink| && c.shrink[i].Some? then c.shrink[i].value else |data|
    ensures var f := SealChunk(c, i, data); f.length == |Framing.ChunkFrame(i, f.compressed, ciphertext)|
    ensures Fits(SealChunk(c, i, data)) <==> |ciphertext| + 6 <= Framing.MAX_PAYLOAD_SIZE
  {
  }

  // ---- reachable states ----

  ghost predicate NoncesDifferIn(frames: seq<Frame>) {
    forall j: nat, k: nat :: j < k < |frames| ==> DifferentAt(frames, j, k)
  }

  ghost predicate DifferentAt(frames: seq<Frame>, j: nat, k: nat) {
    j < |frames| && k < |frames| && frames[j].sealed.nonce != frames[k].sealed.nonce
  }

  lemma PlanNonces(c: Config, plan: Plan, i: nat, j: nat)
    requires WellFormed(c) && IsPlan(c, plan) && i < |plan.frames| && j < |plan.frames| && i != j
    ensures plan.frames[i].sealed.nonce != plan.frames[j].sealed.nonce
  {
    assert Planned(c, plan, i) && Planned(c, plan, j);
    if i < j { ChunkNoncesDistinct(c, i, j); } else { ChunkNoncesDistinct(c, j, i); }
  }

  /** The frames the receiver has yet to take, in the order it will. */
  function Coming(s: State): seq<Frame> {
    s.arrived + s.wire
  }

  lemma ComingIsPlan(c: Config, plan: Plan, taken: nat, arrived: seq<Frame>, wire: seq<Frame>, next: nat, k: nat)
    requires WireOk(plan, taken, arrived, wire, next) && k < |arrived + wire|
    ensures taken + k < |plan.frames| && (arrived + wire)[k] == plan.frames[taken + k]
  {
  }

  /** A receiver's task has a frame that was taken. */
  lemma TaskIsTaken(r: Receiver, taken: nat, acked: seq<nat>, i: nat)
    requires TasksOk(r, taken, acked) && i in r.decrypting
    ensures i < taken
  {
    assert TaskPlace(i, r, taken, acked);
  }

  lemma ComingDiffer(c: Config, plan: Plan, taken: nat, arrived: seq<Frame>, wire: seq<Frame>, next: nat)
    requires WellFormed(c) && IsPlan(c, plan) && WireOk(plan, taken, arrived, wire, next)
    ensures NoncesDifferIn(arrived + wire)
  {
    forall j: nat, k: nat | j < k < |arrived + wire| ensures DifferentAt(arrived + wire, j, k) {
      ComingIsPlan(c, plan, taken, arrived, wire, next, j);
      ComingIsPlan(c, plan, taken, arrived, wire, next, k);
      PlanNonces(c, plan, taken + j, taken + k);
    }
  }

  ghost predicate TasksDiffer(tasks: map<nat, Frame>) {
    forall i, j :: i in tasks && j in tasks && i != j ==> tasks[i].sealed.nonce != tasks[j].sealed.nonce
  }

  ghost predicate TaskDiffers(tasks: map<nat, Frame>, frames: seq<Frame>, i: nat, k: nat) {
    i in tasks && k < |frames| && tasks[i].sealed.nonce != frames[k].sealed.nonce
  }

  lemma TaskNonces(c: Config, plan: Plan, r: Receiver)
    requires WellFormed(c) && IsPlan(c, plan) && ReceiverOk(c, plan, r)
    ensures TasksDiffer(r.decrypting)
  {
    forall i, j | i in r.decrypting && j in r.decrypting && i != j
      ensures r.decrypting[i].sealed.nonce != r.decrypting[j].sealed.nonce
    {
      PlanNonces(c, plan, i, j);
    }
  }

  lemma TaskAgainstComing(c: Config, plan: Plan, r: Receiver, taken: nat, acked: seq<nat>, arrived: seq<Frame>,
                          wire: seq<Frame>, next: nat, i: nat, k: nat)
    requires WellFormed(c) && IsPlan(c, plan) && ReceiverOk(c, plan, r) && TasksOk(r, taken, acked)
    requires WireOk(plan, taken, arrived, wire, next) && i in r.decrypting && k < |arrived + wire|
    ensures TaskDiffers(r.decrypting, arrived + wire, i, k)
  {
    TaskIsTaken(r, taken, acked, i);
    ComingIsPlan(c, plan, taken, arrived, wire, next, k);
    PlanNonces(c, plan, i, taken + k);
  }

  /** In every reachable state any two frames on the wire, in the receiver's channel or in its decrypting tasks
      have different nonces, as section 4 of RFC 8439 requires. */
  lemma NoncesInTransit(c: Config, leftover: Bytes, row: Resume.Record, steps: seq<Step>, s: State)
    requires Reached(c, leftover, row, steps, s)
    ensures NoncesDifferIn(Coming(s))
    ensures TasksDiffer(s.receiver.decrypting)
    ensures forall i, k: nat :: i in s.receiver.decrypting && k < |Coming(s)| ==>
              TaskDiffers(s.receiver.decrypting, Coming(s), i, k)
  {
    ReachedInv(c, leftover, row, steps, s);
    ComingDiffer(c, PlanOf(c), s.taken, s.arrived, s.wire, s.sender.buffer.next);
    TaskNonces(c, PlanOf(c), s.receiver);
    forall i, k: nat | i in s.receiver.decrypting && k < |Coming(s)|
      ensures TaskDiffers(s.receiver.decrypting, Coming(s), i, k)
    {
      TaskAgainstComing(c, PlanOf(c), s.receiver, s.taken, s.acked, s.arrived, s.wire, s.sender.buffer.next, i, k);
    }
  }

  // ---- a frame that does not open ----

  /** The only steps that send COMPLETE are the verdicts of a receiver that waits for one. */
  lemma BrokenStep(c: Config, s: State, step: Step)
    requires c.chunkSize > 0 && s.receiver.phase == Broken && Enabled(c, s, step)
    ensures var t := Apply(c, s, step);
            && t.receiver.phase == Broken
            && (t.backWire == s.backWire || t.backWire == s.backWire + [Error] || (s.backWire != [] && t.backWire == s.backWire[1..]))
  {
  }

  lemma {:induction false} BrokenStays(c: Config, s: State, steps: seq<Step>)
    requires c.chunkSize > 0 && s.receiver.phase == Broken && IsRun(c, s, steps)
    ensures After(c, s, steps).receiver.phase == Broken
    ensures forall h :: Complete(h) in After(c, s, steps).backWire ==> Complete(h) in s.backWire
    decreases |steps|
  {
    if steps != [] {
      BrokenStep(c, s, steps[0]);
      var t := Apply(c, s, steps[0]);
      forall h ensures Complete(h) in t.backWire ==> Complete(h) in s.backWire {}
      BrokenStays(c, Apply(c, s, steps[0]), steps[1..]);
    }
  }

  /** A task whose frame does not open writes nothing and ends the session: the sender is told, and no
      COMPLETE is sent from then on, whatever else is under way. */
  lemma UnopenedFrameBreaks(c: Config, s: State, i: nat, more: seq<Step>)
    requires c.chunkSize > 0 && i in s.receiver.decrypting && OpenChunk(c, s.receiver.decrypting[i]) == None
    requires IsRun(c, Apply(c, s, DecryptChunk(i)), more)
    ensures var t := Apply(c, s, DecryptChunk(i));
            && t.file == s.file && t.hashQueue == s.hashQueue && t.backWire == s.backWire + [Error]
            && After(c, t, more).receiver.phase == Broken
            && forall h :: Complete(h) in After(c, t, more).backWire ==> Complete(h) in s.backWire
  {
    BrokenStays(c, Apply(c, s, DecryptChunk(i)), more);
  }

  // ---- a sender and any receiver ----

  /** The sender's loop on a list of replies. */
  function TakeAll(c: Config, s: Sender, replies: seq<Reply>): Sender
    requires c.chunkSize > 0
  {
    if replies == [] then s
    else
      var t := TakeAll(c, s, replies[..|replies| - 1]);
      var reply := replies[|replies| - 1];
      match t.phase
      case Selecting => OnReply(c, t, reply, false)
      case Verifying => OnVerdict(c, t, reply)
      case _ => t
  }

  ghost predicate AcksFirst(replies: seq<Reply>, n: int) {
    |replies| >= n && forall k :: 0 <= k < n ==> replies[k].Ack?
  }

  /** How far replies carry a sender that has n chunks to hear about. */
  ghost predicate Heard(c: Config, s: Sender, t: Sender, replies: seq<Reply>)
    requires s.nextToAck < c.total
  {
    var n := c.total - s.nextToAck;
    match t.phase
    case Selecting => |replies| < n && AcksFirst(replies, |replies|) && t.nextToAck == s.nextToAck + |replies|
    case Verifying => |replies| == n && AcksFirst(replies, n) && t.nextToAck == c.total
    case Succeeded => |replies| > n && AcksFirst(replies, n) && replies[n] == Complete(c.checksum)
                      && t.record.status == Resume.Completed
    case Failed => exists k :: Refused(c, replies, n, k) && t.record.status == Resume.Failed
    case _ => false
  }

  /** Reply k is the first that is not what the sender waits for. */
  ghost predicate Refused(c: Config, replies: seq<Reply>, n: int, k: nat) {
    && k < |replies| && k <= n && AcksFirst(replies, k)
    && if k < n then !replies[k].Ack? else replies[k] != Complete(c.checksum)
  }

  lemma {:induction false} HearsAll(c: Config, s: Sender, replies: seq<Reply>)
    requires c.chunkSize > 0 && s.phase == Selecting && s.nextToAck < c.total
    ensures Heard(c, s, TakeAll(c, s, replies), replies)
  {
    if replies != [] {
      var m := |replies| - 1;
      HearsAll(c, s, replies[..m]);
      HearsOne(c, s, TakeAll(c, s, replies[..m]), replies[..m], replies[m]);
      assert replies == replies[..m] + [replies[m]];
    }
  }

  lemma HearsOne(c: Config, s: Sender, t: Sender, replies: seq<Reply>, reply: Reply)
    requires c.chunkSize > 0 && s.nextToAck < c.total && Heard(c, s, t, replies)
    ensures var u := match t.phase case Selecting => OnReply(c, t, reply, false) case Verifying => OnVerdict(c, t, reply) case _ => t;
            Heard(c, s, u, replies + [reply])
  {
    var n, more := c.total - s.nextToAck, replies + [reply];
    if t.phase == Failed {
      var k :| Refused(c, replies, n, k);
      assert Refused(c, more, n, k);
    } else if t.phase == Selecting || t.phase == Verifying {
      assert more[|replies|] == reply;
      if (t.phase == Selecting && !reply.Ack?) || (t.phase == Verifying && reply != Complete(c.checksum)) {
        assert Refused(c, more, n, |replies|);
      }
    }
  }

  /** Whatever a receiver answers, a sender that nobody pauses succeeds exactly when every chunk it sends is
      acknowledged first and the next reply is COMPLETE with the checksum it announced. */
  lemma SenderSucceedsExactly(c: Config, s: Sender, replies: seq<Reply>)
    requires c.chunkSize > 0 && s.phase == Selecting && s.nextToAck < c.total
    ensures var n := c.total - s.nextToAck;
            TakeAll(c, s, replies).phase == Succeeded
            <==> |replies| > n && AcksFirst(replies, n) && replies[n] == Complete(c.checksum)
  {
    HearsAll(c, s, replies);
    var n, t := c.total - s.nextToAck, TakeAll(c, s, replies);
    if t.phase == Failed {
      var k :| Refused(c, replies, n, k);
    }
  }
}
