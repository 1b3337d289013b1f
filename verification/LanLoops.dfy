/**
 The loops of the local-network path as the code writes them, one after the other, and the schedule of
 the step system that has the same outcome.
 */
module LanLoops {
  import opened Basics
  import opened Aead
  import opened Files
  import opened LanReceive
  import opened LanAttempts

  /** How the user, the file system and the socket treat the receiver: whether the file opens, how many
      blocks the disk takes, whether the flush works and the file can be
      read back, how many messages are read before cancel is seen,
      whether the answer is delivered, and whether the file can be removed. */
  datatype World = World(opens: bool, accepts: nat, flushes: bool, verifies: bool, cancelAt: nat, delivers: bool, removes: bool)

  function LeadingChunks(messages: seq<Message>): (n: nat)
    ensures n <= |messages|
  {
    if messages == [] || !messages[0].Chunk? then 0 else 1 + LeadingChunks(messages[1..])
  }

  lemma {:induction false} LeadingChunksIs(messages: seq<Message>, n: nat)
    requires n <= |messages| && forall k: nat :: k < n ==> messages[k].Chunk?
    requires n < |messages| ==> !messages[n].Chunk?
    ensures LeadingChunks(messages) == n
  {
    if n > 0 { LeadingChunksIs(messages[1..], n - 1); }
  }

  lemma {:induction false} LeadingChunksAre(messages: seq<Message>, k: nat)
    requires k < LeadingChunks(messages)
    ensures messages[k].Chunk?
  {
    if k > 0 { LeadingChunksAre(messages[1..], k - 1); }
  }

  lemma {:induction false} AfterLeadingChunks(messages: seq<Message>)
    ensures var n := LeadingChunks(messages); n < |messages| ==> !messages[n].Chunk?
  {
    if messages != [] && messages[0].Chunk? { AfterLeadingChunks(messages[1..]); }
  }

  /** How a message that is no chunk ends the loop. */
  function EndingOf(m: Message): Ending {
    match m
    case EndOfFile => Finished
    case PeerError(true) => Cancelled
    case _ => Broke
  }

  /** How many blocks the loop forwards, and how it ends. */
  function Count(messages: seq<Message>, cancelAt: nat): nat {
    Min(LeadingChunks(messages), cancelAt)
  }

  function LoopEnds(messages: seq<Message>, cancelAt: nat): Ending {
    var n := Count(messages, cancelAt);
    if n == cancelAt then Cancelled else if n == |messages| then Broke else EndingOf(messages[n])
  }

  /** Message k of the session, forwarded under the counter of its position. */
  ghost predicate ForwardedAs(first: nat, messages: seq<Message>, forwarded: seq<(nat, Block)>, k: nat) {
    && k < |messages| && k < |forwarded| && messages[k].Chunk?
    && forwarded[k] == (first + k, messages[k].block)
  }

  /** The receive loop; `forwarded` is everything it has put on the channel to the writer. */
  class Receiver {
    var blockIndex: nat
    var forwarded: seq<(nat, Block)>

    constructor (x: Session)
      ensures blockIndex == FirstBlock(x) && forwarded == []
    {
      blockIndex, forwarded := x.offset / BLOCK, [];
    }

    /** Chunks are forwarded in order until cancel is seen or something else arrives, and that decides how
        the loop ends; a connection that goes quiet is a network error. */
    method Run(messages: seq<Message>, cancelAt: nat) returns (how: Ending)
      requires forwarded == []
      modifies this
      ensures |forwarded| == Count(messages, cancelAt) && blockIndex == old(blockIndex) + |forwarded|
      ensures forall k: nat :: k < |forwarded| ==> ForwardedAs(old(blockIndex), messages, forwarded, k)
      ensures how == LoopEnds(messages, cancelAt)
    {
      var i := 0;
      AfterLeadingChunks(messages);
      while i < cancelAt && i < |messages| && messages[i].Chunk?
        invariant i == |forwarded| <= Count(messages, cancelAt) && blockIndex == old(blockIndex) + i
        invariant forall k: nat :: k < i ==> ForwardedAs(old(blockIndex), messages, forwarded, k)
      {
        ghost var before := forwarded;
        forwarded := forwarded + [(blockIndex, messages[i].block)];
        blockIndex := blockIndex + 1;
        i := i + 1;
        forall k: nat | k < i ensures ForwardedAs(old(blockIndex), messages, forwarded, k) {
          if k < i - 1 { assert ForwardedAs(old(blockIndex), messages, before, k); }
        }
      }
      if i < LeadingChunks(messages) { LeadingChunksAre(messages, i); }
      if i == cancelAt { return Cancelled; }
      if i == |messages| { return Broke; }
      match messages[i]
      case EndOfFile => how := Finished;
      case PeerError(cancelled) => how := if cancelled then Cancelled else Broke;
      case _ => how := Broke;
    }
  }

  ghost predicate OpensAs(x: Session, queue: seq<(nat, Block)>, plain: seq<Bytes>, j: nat) {
    && j < |queue| && j < |plain|
    && Decrypt(x.key, BuildNonce(x.prefix, queue[j].0), queue[j].1) == Some(plain[j])
  }

  /** The decryptions of a queue up to the first that fails or that the disk does not take. */
  ghost predicate Opens(x: Session, queue: seq<(nat, Block)>, accepts: nat, plain: seq<Bytes>) {
    && |plain| <= |queue| && |plain| <= accepts && (forall j: nat :: j < |plain| ==> OpensAs(x, queue, plain, j))
    && (|plain| < |queue| ==>
          |plain| == accepts || Decrypt(x.key, BuildNonce(x.prefix, queue[|plain|].0), queue[|plain|].1) == None)
  }

  /** The writer task: appends what it can decrypt, and stops at the first block it cannot decrypt or
      write. */
  method WriterTask(x: Session, disk: FileHandle, queue: seq<(nat, Block)>, accepts: nat)
    returns (ok: bool, ghost plain: seq<Bytes>)
    modifies disk
    ensures disk.content == old(disk.content) + Flatten(plain)
    ensures Opens(x, queue, accepts, plain) && (ok <==> |plain| == |queue|)
  {
    plain := [];
    var i := 0;
    while i < |queue|
      invariant i == |plain| <= |queue| && i <= accepts
      invariant disk.content == old(disk.content) + Flatten(plain)
      invariant forall j: nat :: j < |plain| ==> OpensAs(x, queue, plain, j)
    {
      var (index, block) := queue[i];
      var data := Decrypt(x.key, BuildNonce(x.prefix, index), block);
      if data == None || i == accepts { return false, plain; }
      ghost var before := plain;
      FlattenSnoc(plain, data.value);
      disk.Append(data.value);
      plain := plain + [data.value];
      i := i + 1;
      forall j: nat | j < |plain| ensures OpensAs(x, queue, plain, j) {
        if j < i - 1 { assert OpensAs(x, queue, before, j); }
      }
    }
    ok := true;
  }

  ghost predicate Forwards(x: Session, messages: seq<Message>, n: nat, queue: seq<(nat, Block)>) {
    |queue| == n && forall k: nat :: k < |queue| ==> ForwardedAs(FirstBlock(x), messages, queue, k)
  }

  // ---- the receiver's side of an attempt ----

  predicate CanOpen(x: Session, leftover: Option<Bytes>, w: World) {
    w.opens && (x.isResume ==> leftover.Some?)
  }

  /** The whole file arrived, was written, and has the announced checksum. */
  predicate Verified(x: Session, leftover: Option<Bytes>, messages: seq<Message>, w: World, plain: seq<Bytes>) {
    && LoopEnds(messages, w.cancelAt) == Finished
    && CanOpen(x, leftover, w) && |plain| == Count(messages, w.cancelAt) && w.flushes && w.verifies
    && Digest(Base(x, leftover) + Flatten(plain)) == x.checksum
  }

  /** The file at the end. */
  function FileAtEnd(x: Session, leftover: Option<Bytes>, messages: seq<Message>, w: World, plain: seq<Bytes>)
    : Option<Bytes>
  {
    if !Verified(x, leftover, messages, w, plain) && w.removes then None
    else if CanOpen(x, leftover, w) then Some(Base(x, leftover) + Flatten(plain))
    else leftover
  }

  /** The receiver's side of an attempt in any world: what it leaves on disk and whether it completes, as
      some schedule of the step system has it too. */
  method ReceiveFile(x: Session, leftover: Option<Bytes>, messages: seq<Message>, w: World)
    returns (disk: Option<Bytes>, complete: bool, ghost queue: seq<(nat, Block)>, ghost plain: seq<Bytes>,
             ghost steps: seq<Step>)
    ensures Forwards(x, messages, Count(messages, w.cancelAt), queue)
    ensures if CanOpen(x, leftover, w) then Opens(x, queue, w.accepts, plain) else plain == []
    ensures disk == FileAtEnd(x, leftover, messages, w, plain)
    ensures complete <==> Verified(x, leftover, messages, w, plain) && w.delivers
    ensures var s := LanReceive.Play(x, Init(x, leftover), steps);
            s.disk == disk && s.loop == Ended(complete) && s.announced == complete
  {
    var receiver := new Receiver(x);
    var how := receiver.Run(messages, w.cancelAt);
    queue, plain := receiver.forwarded, [];
    disk, complete := leftover, false;
    if CanOpen(x, leftover, w) {
      var file := new FileHandle(Base(x, leftover));
      var ok;
      ok, plain := WriterTask(x, file, receiver.forwarded, w.accepts);
      if how == Finished && ok && w.flushes && w.verifies {
        file.Seek(0);
        complete := VerifyChecksum(file, x.checksum);
      }
      disk := Some(file.content);
    }
    if !complete && w.removes { disk := None; }
    complete := complete && w.delivers;
    steps := Schedule(x, leftover, messages, w, queue, plain);
  }

  // ---- the same outcome in the step system ----

  lemma Then(x: Session, leftover: Option<Bytes>, steps: seq<Step>, step: Step)
    ensures LanReceive.Play(x, Init(x, leftover), steps + [step])
            == Next(x, LanReceive.Play(x, Init(x, leftover), steps), step)
  {
    assert (steps + [step])[..|steps|] == steps;
  }

  /** The loop has forwarded k messages, and the writer has opened and written them all. */
  ghost predicate Even(x: Session, leftover: Option<Bytes>, messages: seq<Message>, plain: seq<Bytes>, s: State, k: nat) {
    && k <= |plain| && k <= |messages|
    && s.disk == Some(Base(x, leftover) + Flatten(plain[..k])) && s.writer == Open && s.queue == []
    && s.blockIndex == FirstBlock(x) + k && s.loop == Receiving && !s.announced
  }

  lemma {:induction false} EvenRun(x: Session, leftover: Option<Bytes>, messages: seq<Message>, w: World,
                                   queue: seq<(nat, Block)>, plain: seq<Bytes>, k: nat) returns (steps: seq<Step>)
    requires CanOpen(x, leftover, w) && Forwards(x, messages, Count(messages, w.cancelAt), queue)
    requires Opens(x, queue, w.accepts, plain) && k <= |plain|
    ensures Even(x, leftover, messages, plain, LanReceive.Play(x, Init(x, leftover), steps), k)
  {
    if k == 0 {
      Then(x, leftover, [], OpenFile(true));
      steps := [] + [OpenFile(true)];
      assert Base(x, leftover) + [] == Base(x, leftover);
    } else {
      steps := EvenRun(x, leftover, messages, w, queue, plain, k - 1);
      assert ForwardedAs(FirstBlock(x), messages, queue, k - 1) && OpensAs(x, queue, plain, k - 1);
      Then(x, leftover, steps, Receive(messages[k - 1]));
      Then(x, leftover, steps + [Receive(messages[k - 1])], WriteBlock(true));
      OneMore(x, leftover, messages, plain, LanReceive.Play(x, Init(x, leftover), steps), k - 1);
      steps := steps + [Receive(messages[k - 1])] + [WriteBlock(true)];
    }
  }

  lemma OneMore(x: Session, leftover: Option<Bytes>, messages: seq<Message>, plain: seq<Bytes>, s: State, k: nat)
    requires Even(x, leftover, messages, plain, s, k) && k < |messages| && k < |plain| && messages[k].Chunk?
    requires Decrypt(x.key, BuildNonce(x.prefix, FirstBlock(x) + k), messages[k].block) == Some(plain[k])
    ensures Even(x, leftover, messages, plain, Next(x, Next(x, s, Receive(messages[k])), WriteBlock(true)), k + 1)
  {
    FlattenSnoc(plain[..k], plain[k]);
    assert plain[..k + 1] == plain[..k] + [plain[k]];
    assert Base(x, leftover) + Flatten(plain[..k]) + plain[k] == Base(x, leftover) + Flatten(plain[..k + 1]);
  }

  /** The step that ends the loop after k messages. */
  function EndStep(messages: seq<Message>, cancelAt: nat, k: nat): Step {
    if k >= cancelAt then CancelHere else if k >= |messages| then Receive(NetworkError) else Receive(messages[k])
  }

  lemma EndingIsStep(s: State, m: Message)
    requires s.loop == Receiving && !m.Chunk?
    ensures OnMessage(s, m) == s.(loop := Closing(EndingOf(m)))
  {
  }

  /** With the writer dead, whatever comes next ends the loop, and the attempt. */
  lemma DeadEnds(x: Session, s: State, messages: seq<Message>, k: nat, w: World)
    requires s.writer == Dead && s.loop == Receiving && !s.announced
    ensures var t := Next(x, Next(x, s, EndStep(messages, w.cancelAt, k)), Conclude(w.verifies, w.delivers, w.removes));
            t.loop == Ended(false) && !t.announced && t.disk == if w.removes then None else s.disk
  {
  }

  lemma EndsAs(x: Session, s: State, messages: seq<Message>, cancelAt: nat)
    requires s.loop == Receiving && s.writer == Open
    ensures Next(x, s, EndStep(messages, cancelAt, Count(messages, cancelAt)))
            == s.(loop := Closing(LoopEnds(messages, cancelAt)))
  {
    AfterLeadingChunks(messages);
    var k := Count(messages, cancelAt);
    if k < cancelAt && k < |messages| { EndingIsStep(s, messages[k]); }
  }

  lemma ClosesAs(x: Session, s: State, how: Ending, whole: Bytes, w: World)
    requires s.loop == Closing(how) && s.writer == Open && s.queue == [] && s.disk == Some(whole) && !s.announced
    ensures var t := Next(x, Next(x, s, CloseFile(w.flushes)), Conclude(w.verifies, w.delivers, w.removes));
            var good := how == Finished && w.flushes && w.verifies && Digest(whole) == x.checksum;
            && t.disk == (if !good && w.removes then None else Some(whole))
            && t.loop == Ended(good && w.delivers) && t.announced == (good && w.delivers)
  {
  }

  lemma OpenEnds(x: Session, leftover: Option<Bytes>, s: State, messages: seq<Message>, w: World, plain: seq<Bytes>)
    requires Even(x, leftover, messages, plain, s, |plain|) && |plain| == Count(messages, w.cancelAt)
    requires CanOpen(x, leftover, w)
    ensures var closing := Next(x, s, EndStep(messages, w.cancelAt, |plain|));
            var t := Next(x, Next(x, closing, CloseFile(w.flushes)), Conclude(w.verifies, w.delivers, w.removes));
            && t.disk == FileAtEnd(x, leftover, messages, w, plain)
            && t.loop == Ended(Verified(x, leftover, messages, w, plain) && w.delivers)
            && t.announced == (Verified(x, leftover, messages, w, plain) && w.delivers)
  {
    assert plain[..|plain|] == plain;
    var whole := Base(x, leftover) + Flatten(plain);
    EndsAs(x, s, messages, w.cancelAt);
    ClosesAs(x, s.(loop := Closing(LoopEnds(messages, w.cancelAt))), LoopEnds(messages, w.cancelAt), whole, w);
  }

  /** A block that cannot be opened, or that the disk does not take, kills the writer. */
  lemma WriterDies(x: Session, leftover: Option<Bytes>, messages: seq<Message>, plain: seq<Bytes>, s: State, ok: bool)
    requires Even(x, leftover, messages, plain, s, |plain|) && |plain| < |messages| && messages[|plain|].Chunk?
    requires ok ==> Decrypt(x.key, BuildNonce(x.prefix, FirstBlock(x) + |plain|), messages[|plain|].block) == None
    ensures var t := Next(x, Next(x, s, Receive(messages[|plain|])), WriteBlock(ok));
            t.writer == Dead && t.loop == Receiving && !t.announced && t.disk == s.disk
  {
  }

  /** The schedule in which the writer takes each block as it comes. */
  lemma Schedule(x: Session, leftover: Option<Bytes>, messages: seq<Message>, w: World, queue: seq<(nat, Block)>,
                 plain: seq<Bytes>) returns (steps: seq<Step>)
    requires Forwards(x, messages, Count(messages, w.cancelAt), queue)
    requires if CanOpen(x, leftover, w) then Opens(x, queue, w.accepts, plain) else plain == []
    ensures var s := LanReceive.Play(x, Init(x, leftover), steps);
            var good := Verified(x, leftover, messages, w, plain) && w.delivers;
            s.disk == FileAtEnd(x, leftover, messages, w, plain) && s.loop == Ended(good) && s.announced == good
  {
    var n, end := |plain|, Conclude(w.verifies, w.delivers, w.removes);
    if !CanOpen(x, leftover, w) {
      Then(x, leftover, [], OpenFile(false));
      steps := Dies(x, leftover, messages, w, [] + [OpenFile(false)], 0);
    } else {
      steps := EvenRun(x, leftover, messages, w, queue, plain, n);
      assert plain[..n] == plain;
      var s := LanReceive.Play(x, Init(x, leftover), steps);
      if n == |queue| {
        OpenEnds(x, leftover, s, messages, w, plain);
        Then(x, leftover, steps, EndStep(messages, w.cancelAt, n));
        steps := steps + [EndStep(messages, w.cancelAt, n)];
        Then(x, leftover, steps, CloseFile(w.flushes));
        steps := steps + [CloseFile(w.flushes)];
        Then(x, leftover, steps, end);
        steps := steps + [end];
      } else {
        assert ForwardedAs(FirstBlock(x), messages, queue, n);
        var ok := n != w.accepts;
        WriterDies(x, leftover, messages, plain, s, ok);
        Then(x, leftover, steps, Receive(messages[n]));
        steps := steps + [Receive(messages[n])];
        Then(x, leftover, steps, WriteBlock(ok));
        steps := Dies(x, leftover, messages, w, steps + [WriteBlock(ok)], n + 1);
      }
    }
  }

  lemma Dies(x: Session, leftover: Option<Bytes>, messages: seq<Message>, w: World, steps: seq<Step>, k: nat)
    returns (run: seq<Step>)
    requires var s := LanReceive.Play(x, Init(x, leftover), steps);
             s.writer == Dead && s.loop == Receiving && !s.announced
    ensures var s, t := LanReceive.Play(x, Init(x, leftover), steps), LanReceive.Play(x, Init(x, leftover), run);
            t.loop == Ended(false) && !t.announced && t.disk == if w.removes then None else s.disk
  {
    DeadEnds(x, LanReceive.Play(x, Init(x, leftover), steps), messages, k, w);
    Then(x, leftover, steps, EndStep(messages, w.cancelAt, k));
    run := steps + [EndStep(messages, w.cancelAt, k)];
    Then(x, leftover, run, Conclude(w.verifies, w.delivers, w.removes));
    run := run + [Conclude(w.verifies, w.delivers, w.removes)];
  }

  // ---- both programs ----

  /** What the sender puts on the wire: its frames, then the end of the file. */
  function WireMessages(frames: seq<WireFrame>): (m: seq<Message>)
    ensures |m| == |frames| + 1
  {
    seq(|frames|, k requires 0 <= k < |frames| => Chunk(frames[k].block)) + [EndOfFile]
  }

  /** With counters that start together, the writer opens every block to what the sender read. */
  lemma WriterOpensAll(x: Session, frames: seq<WireFrame>, sent: seq<Bytes>, queue: seq<(nat, Block)>, plain: seq<Bytes>)
    requires x.start == x.offset && FramesSeal(x, frames, sent)
    requires Forwards(x, WireMessages(frames), |frames|, queue) && Opens(x, queue, |frames|, plain)
    ensures plain == sent
  {
    forall k: nat | k < |queue| ensures queue[k] == (FirstBlock(x) + k, SealFrom(x, sent, k)) {
      assert ForwardedAs(FirstBlock(x), WireMessages(frames), queue, k);
      assert FrameSeals(x, frames, sent, k);
    }
    forall j: nat | j < |plain| ensures plain[j] == sent[j] {
      assert OpensAs(x, queue, plain, j);
    }
  }

  /** One undisturbed attempt, end to end, as the two programs carry it out: it completes exactly when it
      does not resume or resumes from whole blocks of the source, and otherwise removes the file. */
  method TransferFile(source: FileHandle, leftover: Option<Bytes>, force: bool, key: Key, prefix: Bytes)
    returns (disk: Option<Bytes>, complete: bool)
    requires source.position == 0 && |source.content| < U64_MODULUS
    modifies source`position
    ensures complete <==> !Resumes(source.content, leftover, force)
                          || (|leftover.value| % BLOCK == 0 && leftover.value == source.content[..|leftover.value|])
    ensures disk == if complete then Some(source.content) else None
  {
    var attempt := Attempt(key, prefix, force, []);
    var x := SessionOf(source.content, leftover, attempt);
    SessionAgrees(source.content, leftover, attempt);
    var frames, senderHash, sent := ReadAndSeal(x, source);
    var messages := WireMessages(frames);
    var quiet := World(true, |frames|, true, true, |messages|, true, true);
    LeadingChunksIs(messages, |frames|);
    ghost var queue, plain, steps;
    disk, complete, queue, plain, steps := ReceiveFile(x, leftover, messages, quiet);
    WriterOpensAll(x, frames, sent, queue, plain);
    AppendedIsSource(source.content, Base(x, leftover), x.offset);
  }
}
