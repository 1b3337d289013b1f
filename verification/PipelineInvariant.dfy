/** What every step of the command-line transfer keeps. */
module PipelineInvariant {
  import opened Basics
  import opened Tiling
  import R = Reorder
  import Resume
  import opened Pipeline

  /** The contents meant for each index. */
  datatype Plan = Plan(data: seq<Bytes>, frames: seq<Frame>)

  ghost predicate IsPlan(c: Config, plan: Plan) {
    && |plan.data| == |plan.frames| == c.total
    && forall i :: 0 <= i < c.total ==> Planned(c, plan, i)
  }

  ghost predicate Planned(c: Config, plan: Plan, i: nat)
  {
    && i < |plan.data| && i < |plan.frames|
    && plan.data[i] == Data(c, i) && plan.frames[i] == SealChunk(c, i, Data(c, i))
  }

  // ---- sets of indices ----

  ghost function Range(lo: nat, hi: nat): (r: set<nat>)
    ensures forall i: nat :: i in r <==> lo <= i < hi
    ensures lo <= hi ==> |r| == hi - lo
    decreases hi
  {
    if hi <= lo then {} else Range(lo, hi - 1) + {hi - 1}
  }

  /** i is in the whole exactly when it is in one of the five sets, and never in two of them. */
  ghost predicate Place(i: nat, a: set<nat>, b: set<nat>, c: set<nat>, d: set<nat>, e: set<nat>, whole: set<nat>) {
    (if i in a then 1 else 0) + (if i in b then 1 else 0) + (if i in c then 1 else 0)
    + (if i in d then 1 else 0) + (if i in e then 1 else 0) == (if i in whole then 1 else 0)
  }

  ghost function Members(s: seq<nat>): set<nat> {
    set i | i in s
  }

  lemma {:induction false} SkippedMembers(start: nat)
    ensures Members(Skipped(start)) == Range(0, start)
  {
    if start > 0 {
      SkippedMembers(start - 1);
      MembersSnoc(Skipped(start - 1), start - 1);
    }
  }

  /** Taking the head of a queue of distinct indices removes exactly its index. */
  lemma QueueTail<T>(q: seq<(nat, T)>)
    requires q != [] && R.DistinctIndices(q)
    ensures R.DistinctIndices(q[1..])
    ensures q[0].0 in R.Indices(q)
    ensures R.Indices(q[1..]) == R.Indices(q) - {q[0].0}
  {
    forall i | i in R.Indices(q) - {q[0].0} ensures i in R.Indices(q[1..]) {
      var k :| 0 <= k < |q| && q[k].0 == i;
      assert q[1..][k - 1].0 == i;
    }
    forall i | i in R.Indices(q[1..]) ensures i in R.Indices(q) && i != q[0].0 {
      var k :| 0 <= k < |q| - 1 && q[1..][k].0 == i;
      assert q[k + 1].0 == i;
    }
  }

  lemma QueueSnoc<T>(q: seq<(nat, T)>, i: nat, v: T)
    requires R.DistinctIndices(q) && i !in R.Indices(q)
    ensures R.DistinctIndices(q + [(i, v)])
    ensures R.Indices(q + [(i, v)]) == R.Indices(q) + {i}
  {
    var r := q + [(i, v)];
    forall k | 0 <= k < |q| ensures q[k].0 in R.Indices(q) {}
    forall j | j in R.Indices(q) + {i} ensures j in R.Indices(r) {
      if j == i { assert r[|q|].0 == i; }
      else {
        var k :| 0 <= k < |q| && q[k].0 == j;
        assert r[k].0 == j;
      }
    }
  }

  // ---- the invariant, one predicate per place a chunk can be ----

  ghost predicate ProducerOk(c: Config, plan: Plan, p: Producer, paused: bool) {
    && p.next <= c.total
    && (p.stopped ==> paused)
    && Tasks(p) <= ENCRYPT_TASKS
    && (forall i :: i in p.encrypting ==> i < |plan.data| && p.encrypting[i] == plan.data[i])
    && (forall i :: i in p.sending ==> i < |plan.frames| && p.sending[i] == plan.frames[i])
  }

  ghost predicate QueuePlace(i: nat, p: Producer, net: seq<(nat, Frame)>, b: R.Buffer<Frame>) {
    Place(i, p.encrypting.Keys, p.sending.Keys, R.Indices(net), b.pending.Keys, {}, Range(b.next, p.next))
  }

  /** Every index between the next to send and the next to spawn is in exactly one place. */
  ghost predicate QueueOk(p: Producer, net: seq<(nat, Frame)>, b: R.Buffer<Frame>) {
    && b.next <= p.next
    && R.DistinctIndices(net)
    && forall i: nat :: QueuePlace(i, p, net, b)
  }

  ghost predicate FramesOk(c: Config, plan: Plan, net: seq<(nat, Frame)>, b: R.Buffer<Frame>) {
    && (forall k :: 0 <= k < |net| ==> net[k].0 < |plan.frames| && net[k].1 == plan.frames[net[k].0])
    && (forall i :: i in b.pending ==> i < |plan.frames| && b.pending[i] == plan.frames[i])
  }

  /** The wire and the receiver's channel hold consecutive frames. */
  ghost predicate WireOk(plan: Plan, taken: nat, arrived: seq<Frame>, wire: seq<Frame>, next: nat) {
    && taken + |arrived| + |wire| == next <= |plan.frames|
    && arrived == plan.frames[taken..taken + |arrived|]
    && wire == plan.frames[taken + |arrived|..next]
  }

  ghost predicate TaskPlace(i: nat, r: Receiver, taken: nat, acked: seq<nat>) {
    Place(i, r.decrypting.Keys, r.writing.Keys, r.hashing.Keys, r.finished, Members(acked), Range(0, taken))
  }

  /** Every frame taken from the channel is one task, or acknowledged. */
  ghost predicate TasksOk(r: Receiver, taken: nat, acked: seq<nat>) {
    && (forall i: nat :: TaskPlace(i, r, taken, acked))
    && |r.decrypting| + |r.writing| + |r.hashing| + |r.finished| + |acked| == taken
    && r.count == |acked|
  }

  ghost predicate ReceiverOk(c: Config, plan: Plan, r: Receiver) {
    && (forall i :: i in r.decrypting ==> i < |plan.frames| && r.decrypting[i] == plan.frames[i])
    && (forall i :: i in r.writing ==> i < |plan.data| && r.writing[i] == plan.data[i])
    && (forall i :: i in r.hashing ==> i < |plan.data| && r.hashing[i] == plan.data[i])
    && (match r.phase
        case Receiving => r.count < c.total
        case AwaitingHash => r.count == c.total
        case Closed(valid) => (valid <==> c.start == 0) && r.count == c.total
        case Broken => r.count < c.total)
  }

  /** The reader has let through only frames within the limit, and stands before one that is not. */
  ghost predicate ReaderOk(c: Config, plan: Plan, taken: nat, arrived: seq<Frame>, wire: seq<Frame>, choked: bool,
                           phase: RecvPhase) {
    && (forall i: nat :: c.start <= i < taken + |arrived| ==> FitsAt(plan, i))
    && (choked ==> wire != [] && !Fits(wire[0]))
    && (phase == Broken ==> choked)
  }

  ghost predicate FitsAt(plan: Plan, i: nat) {
    i < |plan.frames| && Fits(plan.frames[i])
  }

  /** The file is as long as every written chunk made it, and where both ends agree on the offsets it
      has the source's length and agrees on every written chunk. */
  ghost predicate FileOk(c: Config, file: Bytes, written: set<nat>) {
    && |file| >= |c.source|
    && (forall i :: i in written ==> Reaches(c, file, i))
    && (OffsetsMatch(c) ==> |file| == |c.source| && forall i :: i in written ==> HasTile(file, c.source, c.chunkSize, i))
  }

  ghost predicate Reaches(c: Config, file: Bytes, i: nat) {
    Offset(c.chunkSize, i) + |Data(c, i)| <= |file|
  }

  ghost predicate HashPlace(i: nat, reported: set<nat>, queue: seq<(nat, Bytes)>, b: R.Buffer<Bytes>) {
    Place(i, Range(0, b.next), b.pending.Keys, R.Indices(queue), {}, {}, reported)
  }

  /** Every chunk reported for hashing is queued, held back, or already hashed. */
  ghost predicate HashOk(plan: Plan, reported: set<nat>, queue: seq<(nat, Bytes)>, h: HashThread) {
    && h.buffer.next <= |plan.data|
    && R.DistinctIndices(queue)
    && (forall i: nat :: HashPlace(i, reported, queue, h.buffer))
    && !R.Ready(h.buffer)
    && (forall k :: 0 <= k < |queue| ==> queue[k].0 < |plan.data| && queue[k].1 == plan.data[queue[k].0])
    && (forall i :: i in h.buffer.pending ==> i < |plan.data| && h.buffer.pending[i] == plan.data[i])
    && h.hashed == Flatten(plan.data[..h.buffer.next])
  }

  ghost function AckMessages(indices: seq<nat>): seq<Reply> {
    seq(|indices|, k requires 0 <= k < |indices| => Ack(indices[k] % U32_MODULUS))
  }

  /** What the receiver has sent and the sender has not taken: the acks beyond the count, then the verdict. */
  ghost predicate RepliesOk(c: Config, inbound: seq<Reply>, acked: seq<nat>, nextToAck: nat, r: RecvPhase, s: SendPhase) {
    && nextToAck <= |acked|
    && (s.Succeeded? ==> r == Closed(true))
    && (s.Failed? ==> r == Closed(false) || r == Broken)
    && inbound == (if Judged(s) then [] else AckMessages(acked[nextToAck..]) + LastWord(c, r))
    && (Judged(s) ==> nextToAck == |acked|)
  }

  /** The sender has taken the receiver's last word. */
  predicate Judged(s: SendPhase) {
    s.Succeeded? || s.Failed?
  }

  /** What the receiver says after its acks. */
  function LastWord(c: Config, r: RecvPhase): seq<Reply> {
    match r
    case Closed(true) => [Complete(c.checksum)]
    case Closed(false) => [Error]
    case Broken => [Error]
    case _ => []
  }

  /** Bytes added to the sender's count by the acks below k. */
  function Acknowledged(c: Config, k: nat): int
    requires c.chunkSize > 0
  {
    if k <= c.start then 0 else Acknowledged(c, k - 1) + AckLength(|c.source|, c.chunkSize, c.total, k - 1)
  }

  ghost predicate SenderOk(c: Config, s: Sender, paused: bool)
    requires c.chunkSize > 0
  {
    && c.start <= s.nextToAck
    && s.bytesSent == c.offset + Acknowledged(c, s.nextToAck)
    && (s.nextToAck > c.start && s.phase != Succeeded ==> s.record.transferred == s.bytesSent)
    && (match s.phase
        case Selecting => s.nextToAck < c.total && !R.Ready(s.buffer)
        case Draining => s.nextToAck < c.total
        case PausedOut => s.nextToAck <= c.total && paused
        case Verifying => s.nextToAck == c.total
        case Succeeded => s.nextToAck == c.total && s.record.status == Resume.Completed
                          && s.record.checksum == Some(c.checksum) && s.record.transferred == s.record.fileSize
        case Failed => s.nextToAck <= c.total && s.record.status == Resume.Failed)
  }

  /** Chunks of this session whose task has passed on the data for hashing. */
  ghost function Reported(start: nat, r: Receiver, acked: seq<nat>): set<nat> {
    r.finished + Members(acked) - Range(0, start)
  }

  /** The chunks a resumed session skips count as acknowledged. */
  ghost predicate SkipOk(start: nat, acked: seq<nat>) {
    Range(0, start) <= Members(acked)
  }

  ghost predicate Inv(c: Config, plan: Plan, s: State) {
    && c.chunkSize > 0
    && |plan.data| == |plan.frames| == c.total
    && ProducerOk(c, plan, s.producer, s.paused)
    && QueueOk(s.producer, s.net, s.sender.buffer)
    && FramesOk(c, plan, s.net, s.sender.buffer)
    && WireOk(plan, s.taken, s.arrived, s.wire, s.sender.buffer.next)
    && TasksOk(s.receiver, s.taken, s.acked)
    && ReceiverOk(c, plan, s.receiver)
    && ReaderOk(c, plan, s.taken, s.arrived, s.wire, s.choked, s.receiver.phase)
    && SkipOk(c.start, s.acked)
    && FileOk(c, s.file, s.receiver.hashing.Keys + Reported(c.start, s.receiver, s.acked))
    && HashOk(plan, Reported(c.start, s.receiver, s.acked), s.hashQueue, s.hasher)
    && RepliesOk(c, s.replies + s.backWire, s.acked, s.sender.nextToAck, s.receiver.phase, s.sender.phase)
    && SenderOk(c, s.sender, s.paused)
    && (s.receiver.phase == Closed(true) ==> s.hasher.buffer.next == c.total)
  }

  lemma InitFile(c: Config, leftover: Bytes)
    ensures FileOk(c, SetLen(leftover, |c.source|), {})
  {
  }

  lemma InitPlaces(c: Config, s: State)
    requires s.producer == Producer(c.start, false, map[], map[], {}) && s.net == []
    requires s.sender.buffer == R.Buffer(c.start, map[]) && s.taken == c.start && s.acked == Skipped(c.start)
    requires s.receiver == Receiver(Receiving, map[], map[], map[], {}, c.start)
    ensures QueueOk(s.producer, s.net, s.sender.buffer) && TasksOk(s.receiver, s.taken, s.acked)
    ensures Reported(c.start, s.receiver, s.acked) == {} && SkipOk(c.start, s.acked)
  {
    SkippedMembers(c.start);
    forall i: nat ensures QueuePlace(i, s.producer, s.net, s.sender.buffer) {}
    forall i: nat ensures TaskPlace(i, s.receiver, s.taken, s.acked) {}
  }

  lemma InitHash(plan: Plan)
    ensures HashOk(plan, {}, [], HashThread(R.Buffer(0, map[]), []))
  {
    forall i: nat ensures HashPlace(i, {}, [], R.Buffer(0, map[])) {}
  }

  lemma InitReplies(c: Config, acked: seq<nat>)
    requires |acked| == c.start
    ensures RepliesOk(c, [] + [], acked, c.start, Receiving, Selecting)
  {
    assert acked[c.start..] == [];
  }

  lemma InitWire(c: Config, plan: Plan)
    requires c.start < c.total && |plan.data| == |plan.frames| == c.total
    ensures WireOk(plan, c.start, [], [], c.start) && ReaderOk(c, plan, c.start, [], [], false, Receiving)
    ensures FramesOk(c, plan, [], R.Buffer(c.start, map[]))
    ensures ReceiverOk(c, plan, Receiver(Receiving, map[], map[], map[], {}, c.start))
  {
  }

  lemma FreshInv(c: Config, plan: Plan, s: State)
    requires c.chunkSize > 0 && c.start < c.total && |plan.data| == |plan.frames| == c.total
    requires ProducerOk(c, plan, s.producer, s.paused) && s.producer.next == s.sender.buffer.next == s.taken == c.start
    requires QueueOk(s.producer, s.net, s.sender.buffer) && s.net == [] && s.sender.buffer.pending == map[]
    requires TasksOk(s.receiver, s.taken, s.acked) && s.receiver == Receiver(Receiving, map[], map[], map[], {}, c.start)
    requires WireOk(plan, s.taken, s.arrived, s.wire, s.sender.buffer.next) && SkipOk(c.start, s.acked)
    requires FramesOk(c, plan, s.net, s.sender.buffer) && ReceiverOk(c, plan, s.receiver)
    requires ReaderOk(c, plan, s.taken, s.arrived, s.wire, s.choked, s.receiver.phase)
    requires Reported(c.start, s.receiver, s.acked) == {} && FileOk(c, s.file, {}) && HashOk(plan, {}, s.hashQueue, s.hasher)
    requires SenderOk(c, s.sender, s.paused) && s.sender.phase == Selecting
    requires RepliesOk(c, s.replies + s.backWire, s.acked, s.sender.nextToAck, Receiving, Selecting)
    ensures Inv(c, plan, s)
  {
    assert s.receiver.hashing.Keys + Reported(c.start, s.receiver, s.acked) == {};
  }

  lemma InitEnds(c: Config, plan: Plan, row: Resume.Record)
    requires c.chunkSize > 0 && c.start < c.total
    ensures ProducerOk(c, plan, Producer(c.start, false, map[], map[], {}), false)
    ensures SenderOk(c, Sender(Selecting, R.Buffer(c.start, map[]), c.start, c.offset, row), false)
  {
  }

  lemma InitInv(c: Config, plan: Plan, leftover: Bytes, row: Resume.Record)
    requires c.chunkSize > 0 && c.start < c.total && |plan.data| == |plan.frames| == c.total
    ensures Inv(c, plan, Init(c, leftover, row))
  {
    var s := Init(c, leftover, row);
    InitPlaces(c, s);
    InitHash(plan);
    InitFile(c, leftover);
    InitReplies(c, s.acked);
    InitEnds(c, plan, row);
    InitWire(c, plan);
    FreshInv(c, plan, s);
  }

  // ---- what a step leaves alone keeps its part of the invariant ----

  lemma ProducerMoves(c: Config, plan: Plan, s: State, t: State)
    requires Inv(c, plan, s) && t == s.(producer := t.producer)
    requires ProducerOk(c, plan, t.producer, s.paused) && QueueOk(t.producer, s.net, s.sender.buffer)
    ensures Inv(c, plan, t)
  {
  }

  lemma SenderMoves(c: Config, plan: Plan, s: State, t: State)
    requires Inv(c, plan, s) && t == s.(sender := t.sender, replies := t.replies)
    requires t.sender.buffer == s.sender.buffer && SenderOk(c, t.sender, s.paused)
    requires RepliesOk(c, t.replies + s.backWire, s.acked, t.sender.nextToAck, s.receiver.phase, t.sender.phase)
    ensures Inv(c, plan, t)
  {
  }

  /** A task moves on, with the file it may have written. */
  lemma TaskMoves(c: Config, plan: Plan, s: State, t: State)
    requires Inv(c, plan, s) && t == s.(receiver := t.receiver, file := t.file)
    requires t.receiver.phase == s.receiver.phase && t.receiver.finished == s.receiver.finished
    requires TasksOk(t.receiver, s.taken, s.acked) && ReceiverOk(c, plan, t.receiver)
    requires FileOk(c, t.file, t.receiver.hashing.Keys + Reported(c.start, s.receiver, s.acked))
    ensures Inv(c, plan, t)
  {
    assert Reported(c.start, t.receiver, t.acked) == Reported(c.start, s.receiver, s.acked);
  }

  lemma FrameTaken(c: Config, plan: Plan, s: State, t: State)
    requires Inv(c, plan, s) && t == s.(receiver := t.receiver, arrived := t.arrived, taken := t.taken)
    requires t.receiver.phase == s.receiver.phase && t.receiver.finished == s.receiver.finished
    requires t.receiver.hashing == s.receiver.hashing && t.taken + |t.arrived| == s.taken + |s.arrived|
    requires TasksOk(t.receiver, t.taken, s.acked) && ReceiverOk(c, plan, t.receiver)
    requires WireOk(plan, t.taken, t.arrived, s.wire, s.sender.buffer.next)
    ensures Inv(c, plan, t)
  {
    assert Reported(c.start, t.receiver, t.acked) == Reported(c.start, s.receiver, s.acked);
  }

  /** The receiver answers: an ack, or its last word. */
  lemma ReceiverAnswers(c: Config, plan: Plan, s: State, t: State)
    requires Inv(c, plan, s) && t == s.(receiver := t.receiver, backWire := t.backWire, acked := t.acked)
    requires t.receiver.hashing == s.receiver.hashing
    requires TasksOk(t.receiver, s.taken, t.acked) && ReceiverOk(c, plan, t.receiver)
    requires Reported(c.start, t.receiver, t.acked) == Reported(c.start, s.receiver, s.acked)
    requires ReaderOk(c, plan, s.taken, s.arrived, s.wire, s.choked, t.receiver.phase) && SkipOk(c.start, t.acked)
    requires RepliesOk(c, s.replies + t.backWire, t.acked, s.sender.nextToAck, t.receiver.phase, s.sender.phase)
    requires t.receiver.phase == Closed(true) ==> s.hasher.buffer.next == c.total
    ensures Inv(c, plan, t)
  {
  }

  // ---- the producer and its tasks ----

  lemma QueueSpawn(p: Producer, q: Producer, net: seq<(nat, Frame)>, b: R.Buffer<Frame>, data: Bytes)
    requires QueueOk(p, net, b)
    requires q == p.(next := p.next + 1, encrypting := p.encrypting[p.next := data])
    ensures QueueOk(q, net, b)
  {
    forall i: nat ensures QueuePlace(i, q, net, b) { assert QueuePlace(i, p, net, b); }
  }

  lemma ProducerSpawn(c: Config, plan: Plan, p: Producer, q: Producer, paused: bool, data: Bytes)
    requires ProducerOk(c, plan, p, paused) && p.next < |plan.data| == c.total && data == plan.data[p.next]
    requires !p.stopped && Tasks(p) < ENCRYPT_TASKS
    requires q == p.(next := p.next + 1, encrypting := p.encrypting[p.next := data])
    ensures ProducerOk(c, plan, q, paused)
  {
    MapGrows(p.encrypting, p.next, data);
  }

  lemma MapGrows<T>(m: map<nat, T>, i: nat, v: T)
    ensures |m[i := v]| <= |m| + 1
  {
    assert m[i := v].Keys == m.Keys + {i};
  }

  lemma SpawnStep(c: Config, plan: Plan, s: State)
    requires Inv(c, plan, s) && Enabled(c, s, Spawn) && Planned(c, plan, s.producer.next)
    ensures Inv(c, plan, Apply(c, s, Spawn))
  {
    var t := Apply(c, s, Spawn);
    QueueSpawn(s.producer, t.producer, t.net, t.sender.buffer, Data(c, s.producer.next));
    ProducerSpawn(c, plan, s.producer, t.producer, s.paused, Data(c, s.producer.next));
    ProducerMoves(c, plan, s, t);
  }

  lemma QueueEncrypt(p: Producer, q: Producer, net: seq<(nat, Frame)>, b: R.Buffer<Frame>, x: nat, f: Frame)
    requires QueueOk(p, net, b) && x in p.encrypting
    requires q == p.(encrypting := p.encrypting - {x}, sending := p.sending[x := f])
    ensures QueueOk(q, net, b)
  {
    forall i: nat ensures QueuePlace(i, q, net, b) { assert QueuePlace(i, p, net, b); }
  }

  lemma ProducerEncrypt(c: Config, plan: Plan, p: Producer, q: Producer, paused: bool, x: nat, f: Frame)
    requires ProducerOk(c, plan, p, paused) && x in p.encrypting && x < |plan.frames| && f == plan.frames[x]
    requires q == p.(encrypting := p.encrypting - {x}, sending := p.sending[x := f])
    ensures ProducerOk(c, plan, q, paused)
  {
  }

  lemma EncryptStep(c: Config, plan: Plan, s: State, i: nat)
    requires Inv(c, plan, s) && Enabled(c, s, EncryptChunk(i)) && Planned(c, plan, i)
    ensures Inv(c, plan, Apply(c, s, EncryptChunk(i)))
  {
    var t := Apply(c, s, EncryptChunk(i));
    ProducerEncrypt(c, plan, s.producer, t.producer, t.paused, i, SealChunk(c, i, s.producer.encrypting[i]));
    QueueEncrypt(s.producer, t.producer, t.net, t.sender.buffer, i, SealChunk(c, i, s.producer.encrypting[i]));
    ProducerMoves(c, plan, s, t);
  }

  lemma QueueOffer(p: Producer, q: Producer, net: seq<(nat, Frame)>, net': seq<(nat, Frame)>, b: R.Buffer<Frame>, x: nat)
    requires QueueOk(p, net, b) && x in p.sending
    requires q == p.(sending := p.sending - {x}, encoded := p.encoded + {x})
    requires net' == net + [(x, p.sending[x])]
    ensures QueueOk(q, net', b)
  {
    assert QueuePlace(x, p, net, b);
    QueueSnoc(net, x, p.sending[x]);
    forall i: nat ensures QueuePlace(i, q, net', b) { assert QueuePlace(i, p, net, b); }
  }

  lemma ProducerOffer(c: Config, plan: Plan, p: Producer, q: Producer, paused: bool, x: nat)
    requires ProducerOk(c, plan, p, paused) && x in p.sending
    requires q == p.(sending := p.sending - {x}, encoded := p.encoded + {x})
    ensures ProducerOk(c, plan, q, paused)
  {
  }

  lemma FramesOffer(c: Config, plan: Plan, net: seq<(nat, Frame)>, net': seq<(nat, Frame)>, b: R.Buffer<Frame>,
                    x: nat, f: Frame)
    requires FramesOk(c, plan, net, b) && x < |plan.frames| && f == plan.frames[x]
    requires net' == net + [(x, f)]
    ensures FramesOk(c, plan, net', b)
  {
  }

  lemma OfferStep(c: Config, plan: Plan, s: State, i: nat)
    requires Inv(c, plan, s) && Enabled(c, s, OfferFrame(i))
    ensures Inv(c, plan, Apply(c, s, OfferFrame(i)))
  {
    var t := Apply(c, s, OfferFrame(i));
    ProducerOffer(c, plan, s.producer, t.producer, t.paused, i);
    FramesOffer(c, plan, s.net, t.net, t.sender.buffer, i, s.producer.sending[i]);
    QueueOffer(s.producer, t.producer, s.net, t.net, t.sender.buffer, i);
  }

  lemma JoinStep(c: Config, plan: Plan, s: State, i: nat)
    requires Inv(c, plan, s) && Enabled(c, s, JoinEncoder(i))
    ensures Inv(c, plan, Apply(c, s, JoinEncoder(i)))
  {
    var t := Apply(c, s, JoinEncoder(i));
    QueueSame(s.producer, t.producer, t.net, t.sender.buffer);
  }

  lemma StopStep(c: Config, plan: Plan, s: State)
    requires Inv(c, plan, s) && Enabled(c, s, StopProducer)
    ensures Inv(c, plan, Apply(c, s, StopProducer))
  {
    var t := Apply(c, s, StopProducer);
    QueueSame(s.producer, t.producer, t.net, t.sender.buffer);
  }

  lemma QueueSame(p: Producer, q: Producer, net: seq<(nat, Frame)>, b: R.Buffer<Frame>)
    requires QueueOk(p, net, b)
    requires q.encrypting == p.encrypting && q.sending == p.sending && q.next == p.next
    ensures QueueOk(q, net, b)
  {
    forall i: nat ensures QueuePlace(i, q, net, b) { assert QueuePlace(i, p, net, b); }
  }

  // ---- the sender's loop ----

  lemma QueueAccept(p: Producer, net: seq<(nat, Frame)>, net': seq<(nat, Frame)>,
                    b: R.Buffer<Frame>, b': R.Buffer<Frame>)
    requires QueueOk(p, net, b) && net != []
    requires net' == net[1..] && b' == R.Insert(b, net[0].0, net[0].1)
    ensures QueueOk(p, net', b')
  {
    QueueTail(net);
    assert QueuePlace(net[0].0, p, net, b);
    forall i: nat ensures QueuePlace(i, p, net', b') { assert QueuePlace(i, p, net, b); }
  }

  lemma FramesAccept(c: Config, plan: Plan, net: seq<(nat, Frame)>, net': seq<(nat, Frame)>,
                     b: R.Buffer<Frame>, b': R.Buffer<Frame>)
    requires FramesOk(c, plan, net, b) && net != []
    requires net' == net[1..] && b' == R.Insert(b, net[0].0, net[0].1)
    ensures FramesOk(c, plan, net', b')
  {
    forall k | 0 <= k < |net'| ensures net'[k].0 < |plan.frames| && net'[k].1 == plan.frames[net'[k].0] {
      assert net'[k] == net[k + 1];
    }
  }

  lemma AcceptStep(c: Config, plan: Plan, s: State)
    requires Inv(c, plan, s) && Enabled(c, s, AcceptFrame)
    ensures Inv(c, plan, Apply(c, s, AcceptFrame))
  {
    var t := Apply(c, s, AcceptFrame);
    QueueAccept(s.producer, s.net, t.net, s.sender.buffer, t.sender.buffer);
    FramesAccept(c, plan, s.net, t.net, s.sender.buffer, t.sender.buffer);
  }

  lemma QueueRelease(p: Producer, net: seq<(nat, Frame)>, b: R.Buffer<Frame>, b': R.Buffer<Frame>)
    requires QueueOk(p, net, b) && R.Ready(b) && b' == R.Release(b)
    ensures QueueOk(p, net, b')
  {
    assert QueuePlace(b.next, p, net, b);
    forall i: nat ensures QueuePlace(i, p, net, b') { assert QueuePlace(i, p, net, b); }
  }

  lemma FramesRelease(c: Config, plan: Plan, net: seq<(nat, Frame)>, b: R.Buffer<Frame>, b': R.Buffer<Frame>)
    requires FramesOk(c, plan, net, b) && R.Ready(b) && b' == R.Release(b)
    ensures FramesOk(c, plan, net, b')
    ensures b.next < |plan.frames| && b.pending[b.next] == plan.frames[b.next]
  {
  }

  lemma WireDrain(plan: Plan, taken: nat, arrived: seq<Frame>, wire: seq<Frame>, wire': seq<Frame>,
                  next: nat, next': nat)
    requires WireOk(plan, taken, arrived, wire, next) && next < |plan.frames| && next' == next + 1
    requires wire' == wire + [plan.frames[next]]
    ensures WireOk(plan, taken, arrived, wire', next')
  {
  }

  lemma FrameSent(c: Config, plan: Plan, s: State, t: State)
    requires Inv(c, plan, s) && s.sender.phase == Draining && R.Ready(s.sender.buffer)
    requires t == s.(sender := s.sender.(buffer := R.Release(s.sender.buffer)), wire := t.wire)
    requires t.wire == s.wire + [s.sender.buffer.pending[s.sender.buffer.next]]
    ensures Inv(c, plan, t)
  {
    var b := s.sender.buffer;
    QueueRelease(s.producer, t.net, b, t.sender.buffer);
    FramesRelease(c, plan, t.net, b, t.sender.buffer);
    WireDrain(plan, t.taken, t.arrived, s.wire, t.wire, b.next, t.sender.buffer.next);
  }

  lemma FramesDrained(c: Config, plan: Plan, s: State, t: State)
    requires Inv(c, plan, s) && s.sender.phase == Draining && !R.Ready(s.sender.buffer)
    requires t == s.(sender := s.sender.(phase := AfterTurn(s.paused)))
    ensures Inv(c, plan, t)
  {
  }

  lemma DrainIs(c: Config, s: State)
    requires c.chunkSize > 0 && s.sender.phase == Draining
    ensures var b := s.sender.buffer;
            Apply(c, s, DrainOne) ==
            if R.Ready(b) then s.(sender := s.sender.(buffer := R.Release(b)), wire := s.wire + [b.pending[b.next]])
            else s.(sender := s.sender.(phase := AfterTurn(s.paused)))
  {
    assert s.wire + [] == s.wire;
  }

  lemma DrainStep(c: Config, plan: Plan, s: State)
    requires Inv(c, plan, s) && Enabled(c, s, DrainOne)
    ensures Inv(c, plan, Apply(c, s, DrainOne))
  {
    DrainIs(c, s);
    if R.Ready(s.sender.buffer) {
      FrameSent(c, plan, s, Apply(c, s, DrainOne));
    } else {
      FramesDrained(c, plan, s, Apply(c, s, DrainOne));
    }
  }

  lemma RepliesAck(c: Config, inbound: seq<Reply>, inbound': seq<Reply>, acked: seq<nat>, n: nat, n': nat,
                   r: RecvPhase, s: SendPhase, s': SendPhase)
    requires RepliesOk(c, inbound, acked, n, r, s) && !Judged(s) && !Judged(s') && n < |acked| && n' == n + 1
    requires inbound' == inbound[1..]
    ensures RepliesOk(c, inbound', acked, n', r, s')
  {
    assert AckMessages(acked[n..])[1..] == AckMessages(acked[n + 1..]);
  }

  lemma NextReply(c: Config, inbound: seq<Reply>, acked: seq<nat>, n: nat, r: Receiver, s: SendPhase)
    requires RepliesOk(c, inbound, acked, n, r.phase, s) && !Judged(s) && inbound != []
    requires |acked| == r.count && (r.phase.Closed? ==> r.count == c.total) && r.count <= c.total
    requires r.phase == Broken ==> r.count < c.total
    ensures n < |acked| ==> inbound[0] == Ack(acked[n] % U32_MODULUS)
    ensures n == |acked| ==> inbound == LastWord(c, r.phase) && (r.phase.Closed? || r.phase == Broken)
    ensures n == c.total ==> n == |acked| && r.phase.Closed?
  {
    if n == |acked| {
      assert acked[n..] == [];
    }
  }

  lemma SenderAck(c: Config, s: Sender, t: Sender, paused: bool, reply: Reply)
    requires c.chunkSize > 0 && SenderOk(c, s, paused) && s.phase == Selecting && reply.Ack?
    requires t == OnReply(c, s, reply, paused)
    ensures SenderOk(c, t, paused) && t.nextToAck == s.nextToAck + 1 && t.buffer == s.buffer && !Judged(t.phase)
  {
  }

  lemma RepliesTaken(c: Config, inbound: seq<Reply>, acked: seq<nat>, n: nat, r: RecvPhase, s: SendPhase, s': SendPhase)
    requires RepliesOk(c, inbound, acked, n, r, s) && !Judged(s) && Judged(s') && n == |acked|
    requires s'.Succeeded? ==> r == Closed(true)
    requires s'.Failed? ==> r == Closed(false) || r == Broken
    requires inbound == LastWord(c, r) && |inbound| == 1
    ensures RepliesOk(c, inbound[1..], acked, n, r, s')
  {
  }

  lemma TakeInbound(replies: seq<Reply>, replies': seq<Reply>, backWire: seq<Reply>)
    requires replies != [] && replies' == replies[1..]
    ensures replies + backWire != [] && (replies + backWire)[0] == replies[0]
    ensures replies' + backWire == (replies + backWire)[1..]
  {
  }

  /** A reply taken while acks are outstanding is the next one of them. */
  lemma AckTaken(c: Config, plan: Plan, s: State, t: State)
    requires Inv(c, plan, s) && s.sender.phase == Selecting && s.replies != [] && s.sender.nextToAck < |s.acked|
    requires t == s.(replies := s.replies[1..], sender := OnReply(c, s.sender, s.replies[0], s.paused))
    ensures Inv(c, plan, t)
  {
    var inbound := s.replies + s.backWire;
    TakeInbound(s.replies, t.replies, t.backWire);
    NextReply(c, inbound, s.acked, s.sender.nextToAck, s.receiver, s.sender.phase);
    SenderAck(c, s.sender, t.sender, t.paused, s.replies[0]);
    RepliesAck(c, inbound, t.replies + t.backWire, t.acked, s.sender.nextToAck, t.sender.nextToAck,
               t.receiver.phase, s.sender.phase, t.sender.phase);
    SenderMoves(c, plan, s, t);
  }

  lemma SenderFails(c: Config, s: Sender, t: Sender, paused: bool)
    requires c.chunkSize > 0 && SenderOk(c, s, paused) && s.phase == Selecting && t == GiveUp(s)
    ensures SenderOk(c, t, paused)
  {
  }

  /** With none outstanding it is the error of a receiver that has dropped the connection. */
  lemma ErrorTaken(c: Config, plan: Plan, s: State, t: State)
    requires Inv(c, plan, s) && s.sender.phase == Selecting && s.replies != [] && s.sender.nextToAck == |s.acked|
    requires t == s.(replies := s.replies[1..], sender := OnReply(c, s.sender, s.replies[0], s.paused))
    ensures Inv(c, plan, t)
  {
    var inbound := s.replies + s.backWire;
    TakeInbound(s.replies, t.replies, t.backWire);
    NextReply(c, inbound, s.acked, s.sender.nextToAck, s.receiver, s.sender.phase);
    SenderFails(c, s.sender, t.sender, t.paused);
    RepliesTaken(c, inbound, t.acked, t.sender.nextToAck, t.receiver.phase, s.sender.phase, t.sender.phase);
    SenderMoves(c, plan, s, t);
  }

  lemma AckedStep(c: Config, plan: Plan, s: State)
    requires Inv(c, plan, s) && Enabled(c, s, TakeReply) && s.sender.phase == Selecting
    ensures Inv(c, plan, Apply(c, s, TakeReply))
  {
    var t := Apply(c, s, TakeReply);
    if s.sender.nextToAck < |s.acked| { AckTaken(c, plan, s, t); } else { ErrorTaken(c, plan, s, t); }
  }

  lemma SenderJudged(c: Config, s: Sender, t: Sender, paused: bool, reply: Reply)
    requires c.chunkSize > 0 && SenderOk(c, s, paused) && s.phase == Verifying
    requires reply == Complete(c.checksum) || reply == Error
    requires t == OnVerdict(c, s, reply)
    ensures SenderOk(c, t, paused) && t.nextToAck == s.nextToAck && t.buffer == s.buffer
    ensures t.phase == if reply.Error? then Failed else Succeeded
  {
  }

  lemma VerdictTakenStep(c: Config, plan: Plan, s: State)
    requires Inv(c, plan, s) && Enabled(c, s, TakeReply) && s.sender.phase == Verifying
    ensures Inv(c, plan, Apply(c, s, TakeReply))
  {
    var t := Apply(c, s, TakeReply);
    var inbound := s.replies + s.backWire;
    TakeInbound(s.replies, t.replies, t.backWire);
    NextReply(c, inbound, s.acked, s.sender.nextToAck, s.receiver, s.sender.phase);
    SenderJudged(c, s.sender, t.sender, t.paused, s.replies[0]);
    RepliesTaken(c, inbound, t.acked, t.sender.nextToAck, t.receiver.phase, s.sender.phase, t.sender.phase);
    SenderMoves(c, plan, s, t);
  }

  // ---- the wire and the receiver's tasks ----

  lemma CarryStep(c: Config, plan: Plan, s: State)
    requires Inv(c, plan, s) && Enabled(c, s, CarryFrame)
    ensures Inv(c, plan, Apply(c, s, CarryFrame))
  {
    var t := Apply(c, s, CarryFrame);
    WireCarry(plan, s.taken, s.arrived, t.arrived, s.wire, t.wire, s.sender.buffer.next);
    ReaderCarry(c, plan, s.taken, s.arrived, t.arrived, s.wire, t.wire, s.sender.buffer.next, s.choked, s.receiver.phase);
  }

  lemma ReaderCarry(c: Config, plan: Plan, taken: nat, arrived: seq<Frame>, arrived': seq<Frame>, wire: seq<Frame>,
                    wire': seq<Frame>, next: nat, choked: bool, phase: RecvPhase)
    requires WireOk(plan, taken, arrived, wire, next) && ReaderOk(c, plan, taken, arrived, wire, choked, phase)
    requires wire != [] && Fits(wire[0]) && arrived' == arrived + [wire[0]] && wire' == wire[1..]
    ensures ReaderOk(c, plan, taken, arrived', wire', choked, phase)
  {
    assert wire[0] == plan.frames[taken + |arrived|];
  }

  lemma ChokeStep(c: Config, plan: Plan, s: State)
    requires Inv(c, plan, s) && Enabled(c, s, Choke)
    ensures Inv(c, plan, Apply(c, s, Choke))
  {
  }

  lemma TakeErrorStep(c: Config, plan: Plan, s: State)
    requires Inv(c, plan, s) && Enabled(c, s, TakeError)
    ensures Inv(c, plan, Apply(c, s, TakeError))
  {
    var t := Apply(c, s, TakeError);
    LastWordSent(c, plan, s, t, Broken);
  }

  /** The receiver closes with its last word. */
  lemma LastWordSent(c: Config, plan: Plan, s: State, t: State, phase: RecvPhase)
    requires Inv(c, plan, s) && LastWord(c, s.receiver.phase) == [] && |LastWord(c, phase)| == 1
    requires t == s.(receiver := s.receiver.(phase := phase), backWire := s.backWire + LastWord(c, phase))
    requires ReceiverOk(c, plan, t.receiver) && (phase == Broken ==> s.choked)
    requires phase == Closed(true) ==> s.hasher.buffer.next == c.total
    ensures Inv(c, plan, t)
  {
    SendInbound(s.replies, s.backWire, t.backWire, LastWord(c, phase)[0]);
    RepliesVerdict(c, s.replies + s.backWire, t.replies + t.backWire, t.acked, t.sender.nextToAck,
                   s.receiver.phase, t.receiver.phase, t.sender.phase);
    TasksRephase(c.start, s.receiver, t.receiver, t.taken, t.acked);
    ReceiverAnswers(c, plan, s, t);
  }

  lemma WireCarry(plan: Plan, taken: nat, arrived: seq<Frame>, arrived': seq<Frame>, wire: seq<Frame>, wire': seq<Frame>,
                  next: nat)
    requires WireOk(plan, taken, arrived, wire, next) && wire != []
    requires arrived' == arrived + [wire[0]] && wire' == wire[1..]
    ensures WireOk(plan, taken, arrived', wire', next)
  {
  }

  lemma WireTake(plan: Plan, taken: nat, taken': nat, arrived: seq<Frame>, arrived': seq<Frame>, wire: seq<Frame>, next: nat)
    requires WireOk(plan, taken, arrived, wire, next) && arrived != [] && arrived' == arrived[1..] && taken' == taken + 1
    ensures taken < |plan.frames| && arrived[0] == plan.frames[taken]
    ensures WireOk(plan, taken', arrived', wire, next)
  {
  }

  lemma TasksTake(r: Receiver, q: Receiver, taken: nat, taken': nat, acked: seq<nat>, f: Frame)
    requires TasksOk(r, taken, acked) && taken' == taken + 1
    requires q == r.(decrypting := r.decrypting[taken := f])
    ensures TasksOk(q, taken', acked)
  {
    assert TaskPlace(taken, r, taken, acked);
    forall i: nat ensures TaskPlace(i, q, taken', acked) {
      assert TaskPlace(i, r, taken, acked);
      PlaceTake(i, r, q, taken, taken', acked, f);
    }
  }

  lemma PlaceTake(i: nat, r: Receiver, q: Receiver, taken: nat, taken': nat, acked: seq<nat>, f: Frame)
    requires TaskPlace(i, r, taken, acked) && taken' == taken + 1
    requires q == r.(decrypting := r.decrypting[taken := f])
    ensures TaskPlace(i, q, taken', acked)
  {
  }

  lemma ReceiverTake(c: Config, plan: Plan, r: Receiver, q: Receiver, x: nat, f: Frame)
    requires ReceiverOk(c, plan, r) && x < |plan.frames| && f == plan.frames[x]
    requires q == r.(decrypting := r.decrypting[x := f])
    ensures ReceiverOk(c, plan, q)
  {
  }

  lemma TakeStep(c: Config, plan: Plan, s: State)
    requires Inv(c, plan, s) && Enabled(c, s, TakeFrame)
    requires s.taken < |plan.frames| ==> plan.frames[s.taken].index == s.taken
    ensures Inv(c, plan, Apply(c, s, TakeFrame))
  {
    var t := Apply(c, s, TakeFrame);
    WireTake(plan, s.taken, t.taken, s.arrived, t.arrived, t.wire, t.sender.buffer.next);
    TasksTake(s.receiver, t.receiver, s.taken, t.taken, t.acked, s.arrived[0]);
    ReceiverTake(c, plan, s.receiver, t.receiver, s.taken, s.arrived[0]);
    FrameTaken(c, plan, s, t);
  }

  lemma TasksDecrypt(r: Receiver, q: Receiver, taken: nat, acked: seq<nat>, x: nat, data: Bytes)
    requires TasksOk(r, taken, acked) && x in r.decrypting
    requires q == r.(decrypting := r.decrypting - {x}, writing := r.writing[x := data])
    ensures TasksOk(q, taken, acked)
  {
    assert TaskPlace(x, r, taken, acked);
    assert (r.decrypting - {x}).Keys == r.decrypting.Keys - {x};
    forall i: nat ensures TaskPlace(i, q, taken, acked) { assert TaskPlace(i, r, taken, acked); }
  }

  lemma ReceiverDecrypt(c: Config, plan: Plan, r: Receiver, q: Receiver, x: nat)
    requires ReceiverOk(c, plan, r) && x in r.decrypting && x < |plan.data|
    requires q == r.(decrypting := r.decrypting - {x}, writing := r.writing[x := plan.data[x]])
    ensures ReceiverOk(c, plan, q)
  {
  }

  ghost predicate Opens(c: Config, plan: Plan, i: nat) {
    && i < |plan.data| && i < |plan.frames|
    && plan.frames[i].index == i && OpenChunk(c, plan.frames[i]) == Some(plan.data[i])
  }

  lemma DecryptStep(c: Config, plan: Plan, s: State, i: nat)
    requires Inv(c, plan, s) && Enabled(c, s, DecryptChunk(i)) && Opens(c, plan, i)
    ensures Inv(c, plan, Apply(c, s, DecryptChunk(i)))
  {
    var t := Apply(c, s, DecryptChunk(i));
    TasksDecrypt(s.receiver, t.receiver, t.taken, t.acked, i, plan.data[i]);
    ReceiverDecrypt(c, plan, s.receiver, t.receiver, i);
    TaskMoves(c, plan, s, t);
  }

  lemma TasksWrite(r: Receiver, q: Receiver, taken: nat, acked: seq<nat>, x: nat)
    requires TasksOk(r, taken, acked) && x in r.writing
    requires q == r.(writing := r.writing - {x}, hashing := r.hashing[x := r.writing[x]])
    ensures TasksOk(q, taken, acked)
  {
    assert TaskPlace(x, r, taken, acked);
    assert (r.writing - {x}).Keys == r.writing.Keys - {x};
    forall i: nat ensures TaskPlace(i, q, taken, acked) { assert TaskPlace(i, r, taken, acked); }
  }

  lemma FileWrite(c: Config, file: Bytes, file': Bytes, written: set<nat>, written': set<nat>, x: nat, data: Bytes)
    requires FileOk(c, file, written) && written' == written + {x}
    requires WellFormed(c) && x < c.total && data == Data(c, x)
    requires file' == WriteAt(file, Offset(c.chunkSize, x), data)
    ensures FileOk(c, file', written')
  {
    OffsetInFile(|c.source|, Clamp(c.chunkSize), x);
    if |c.source| == 0 { EmptyOffset(c, x); }
    if OffsetsMatch(c) {
      SameChunks(c, x);
      WriteTile(file, c.source, c.chunkSize, x);
    }
  }

  lemma EmptyOffset(c: Config, x: nat)
    requires WellFormed(c) && x < c.total && |c.source| == 0
    ensures Offset(c.chunkSize, x) == 0
  {
  }

  /** Where the offsets match, the chunks of the clamped size are those of the announced one. */
  lemma SameChunks(c: Config, x: nat)
    requires WellFormed(c) && OffsetsMatch(c) && x < c.total
    ensures c.total == TotalChunks(|c.source|, c.chunkSize) && Data(c, x) == Chunk(c.source, c.chunkSize, x)
  {
    if c.chunkSize > MAX_CHUNK_SIZE {
      OneChunk(|c.source|, MAX_CHUNK_SIZE);
      OneChunk(|c.source|, c.chunkSize);
    }
  }

  /** Writing the last chunk at its announced offset makes the file too long when the offsets differ. */
  lemma LastChunkTooFar(c: Config, file: Bytes)
    requires WellFormed(c) && !OffsetsMatch(c) && Reaches(c, file, c.total - 1)
    ensures |file| > |c.source|
  {
    var n, size := c.total, |c.source|;
    TotalChunksSpec(size, MAX_CHUNK_SIZE);
    OffsetInFile(size, MAX_CHUNK_SIZE, n - 1);
    assert Offset(MAX_CHUNK_SIZE, 1) == MAX_CHUNK_SIZE;
    assert Offset(c.chunkSize, n - 1) == Offset(MAX_CHUNK_SIZE, n - 1) + (n - 1) * (c.chunkSize - MAX_CHUNK_SIZE);
    MulAtLeast(n - 1, c.chunkSize - MAX_CHUNK_SIZE);
    LastChunkEnds(size, MAX_CHUNK_SIZE);
  }

  lemma OneChunk(size: nat, cs: nat)
    requires 0 < cs && size <= cs
    ensures TotalChunks(size, cs) == 1 && Offset(cs, 0) == 0
  {
    if size > 0 { DivModUnique(size + cs - 1, cs, 1, size - 1); }
  }

  lemma ReceiverWrite(c: Config, plan: Plan, r: Receiver, q: Receiver, x: nat)
    requires ReceiverOk(c, plan, r) && x in r.writing
    requires q == r.(writing := r.writing - {x}, hashing := r.hashing[x := r.writing[x]])
    ensures ReceiverOk(c, plan, q)
  {
  }

  lemma PlanFileWrite(c: Config, plan: Plan, file: Bytes, file': Bytes, written: set<nat>, written': set<nat>, x: nat)
    requires FileOk(c, file, written) && written' == written + {x}
    requires WellFormed(c) && IsPlan(c, plan) && x < |plan.data|
    requires file' == WriteAt(file, Offset(c.chunkSize, x), plan.data[x])
    ensures FileOk(c, file', written')
  {
    assert Planned(c, plan, x);
    FileWrite(c, file, file', written, written', x, plan.data[x]);
  }

  lemma WriteFile(c: Config, plan: Plan, s: State, r: Receiver, file: Bytes, reported: set<nat>, i: nat)
    requires WellFormed(c) && IsPlan(c, plan) && i in s.receiver.writing && ReceiverOk(c, plan, s.receiver)
    requires FileOk(c, s.file, s.receiver.hashing.Keys + reported)
    requires r.hashing == s.receiver.hashing[i := s.receiver.writing[i]]
    requires file == WriteAt(s.file, Offset(c.chunkSize, i), s.receiver.writing[i])
    ensures FileOk(c, file, r.hashing.Keys + reported)
  {
    assert r.hashing.Keys + reported == s.receiver.hashing.Keys + reported + {i};
    PlanFileWrite(c, plan, s.file, file, s.receiver.hashing.Keys + reported, r.hashing.Keys + reported, i);
  }

  lemma WriteStep(c: Config, plan: Plan, s: State, i: nat)
    requires WellFormed(c) && IsPlan(c, plan) && Inv(c, plan, s) && Enabled(c, s, WriteChunk(i))
    ensures Inv(c, plan, Apply(c, s, WriteChunk(i)))
  {
    var t := Apply(c, s, WriteChunk(i));
    WriteFile(c, plan, s, t.receiver, t.file, Reported(c.start, s.receiver, s.acked), i);
    TasksWrite(s.receiver, t.receiver, t.taken, t.acked, i);
    ReceiverWrite(c, plan, s.receiver, t.receiver, i);
    TaskMoves(c, plan, s, t);
  }

  lemma TasksReport(r: Receiver, q: Receiver, taken: nat, acked: seq<nat>, x: nat)
    requires TasksOk(r, taken, acked) && x in r.hashing
    requires q == r.(hashing := r.hashing - {x}, finished := r.finished + {x})
    ensures TasksOk(q, taken, acked)
  {
    assert TaskPlace(x, r, taken, acked);
    assert q.finished == r.finished + {x};
    assert (r.hashing - {x}).Keys == r.hashing.Keys - {x};
    forall i: nat ensures TaskPlace(i, q, taken, acked) { assert TaskPlace(i, r, taken, acked); }
  }

  lemma ReportedGrows(start: nat, r: Receiver, q: Receiver, taken: nat, acked: seq<nat>, x: nat)
    requires TaskPlace(x, r, taken, acked) && x in r.hashing && SkipOk(start, acked)
    requires q == r.(hashing := r.hashing - {x}, finished := r.finished + {x})
    ensures x !in Reported(start, r, acked)
    ensures Reported(start, q, acked) == Reported(start, r, acked) + {x}
    ensures q.hashing.Keys + Reported(start, q, acked) == r.hashing.Keys + Reported(start, r, acked)
  {
    assert q.hashing.Keys == r.hashing.Keys - {x};
    OneReported(r.hashing.Keys, r.finished, Members(acked), Range(0, start), x);
  }

  lemma OneReported(hashing: set<nat>, finished: set<nat>, acked: set<nat>, skipped: set<nat>, x: nat)
    requires x in hashing && x !in finished && x !in acked && skipped <= acked
    ensures x !in finished + acked - skipped
    ensures finished + {x} + acked - skipped == (finished + acked - skipped) + {x}
    ensures (hashing - {x}) + ((finished + {x}) + acked - skipped) == hashing + (finished + acked - skipped)
  {
  }

  lemma HashReport(plan: Plan, reported: set<nat>, reported': set<nat>, queue: seq<(nat, Bytes)>, queue': seq<(nat, Bytes)>,
                   h: HashThread, x: nat)
    requires HashOk(plan, reported, queue, h) && x !in reported && x < |plan.data|
    requires reported' == reported + {x} && queue' == queue + [(x, plan.data[x])]
    ensures HashOk(plan, reported', queue', h)
  {
    assert HashPlace(x, reported, queue, h.buffer);
    QueueSnoc(queue, x, plan.data[x]);
    forall i: nat ensures HashPlace(i, reported', queue', h.buffer) { assert HashPlace(i, reported, queue, h.buffer); }
  }

  lemma ReportStep(c: Config, plan: Plan, s: State, i: nat)
    requires Inv(c, plan, s) && Enabled(c, s, ReportHash(i))
    ensures Inv(c, plan, Apply(c, s, ReportHash(i)))
  {
    var t := Apply(c, s, ReportHash(i));
    TasksReport(s.receiver, t.receiver, t.taken, t.acked, i);
    assert TaskPlace(i, s.receiver, s.taken, s.acked);
    ReportedGrows(c.start, s.receiver, t.receiver, t.taken, t.acked, i);
    HashReport(plan, Reported(c.start, s.receiver, s.acked), Reported(c.start, t.receiver, t.acked), s.hashQueue, t.hashQueue, t.hasher, i);
  }

  lemma TasksAck(start: nat, r: Receiver, q: Receiver, taken: nat, acked: seq<nat>, acked': seq<nat>, x: nat)
    requires TasksOk(r, taken, acked) && x in r.finished
    requires q == r.(phase := q.phase, finished := r.finished - {x}, count := r.count + 1) && acked' == acked + [x]
    ensures TasksOk(q, taken, acked')
    ensures Reported(start, q, acked') == Reported(start, r, acked)
    ensures SkipOk(start, acked) ==> SkipOk(start, acked')
  {
    assert TaskPlace(x, r, taken, acked);
    MembersSnoc(acked, x);
    forall i: nat ensures TaskPlace(i, q, taken, acked') { PlaceAck(i, r, q, taken, acked, acked', x); }
  }

  lemma MembersSnoc(s: seq<nat>, x: nat)
    ensures Members(s + [x]) == Members(s) + {x}
  {
  }

  lemma PlaceAck(i: nat, r: Receiver, q: Receiver, taken: nat, acked: seq<nat>, acked': seq<nat>, x: nat)
    requires TaskPlace(i, r, taken, acked) && x in r.finished
    requires q == r.(phase := q.phase, finished := r.finished - {x}, count := r.count + 1)
    requires Members(acked') == Members(acked) + {x}
    ensures TaskPlace(i, q, taken, acked')
  {
  }

  lemma RepliesSend(c: Config, inbound: seq<Reply>, inbound': seq<Reply>, acked: seq<nat>, acked': seq<nat>, n: nat,
                    r: RecvPhase, r': RecvPhase, s: SendPhase, x: nat)
    requires RepliesOk(c, inbound, acked, n, r, s) && LastWord(c, r) == [] && LastWord(c, r') == []
    requires acked' == acked + [x] && inbound' == inbound + [Ack(x % U32_MODULUS)]
    ensures RepliesOk(c, inbound', acked', n, r', s)
  {
    assert AckMessages(acked'[n..]) == AckMessages(acked[n..]) + [Ack(x % U32_MODULUS)];
  }

  lemma SendInbound(replies: seq<Reply>, backWire: seq<Reply>, backWire': seq<Reply>, x: Reply)
    requires backWire' == backWire + [x]
    ensures replies + backWire' == replies + backWire + [x]
  {
  }

  lemma ReceiverAck(c: Config, plan: Plan, r: Receiver, q: Receiver, x: nat)
    requires ReceiverOk(c, plan, r) && r.phase == Receiving
    requires q == r.(phase := if r.count + 1 == c.total then AwaitingHash else Receiving,
                     finished := r.finished - {x}, count := r.count + 1)
    ensures ReceiverOk(c, plan, q)
  {
  }

  lemma AckReplies(c: Config, plan: Plan, s: State, t: State, i: nat)
    requires Inv(c, plan, s) && Enabled(c, s, AckChunk(i)) && t == Apply(c, s, AckChunk(i))
    ensures RepliesOk(c, t.replies + t.backWire, t.acked, t.sender.nextToAck, t.receiver.phase, t.sender.phase)
  {
    SendInbound(s.replies, s.backWire, t.backWire, Ack(i % U32_MODULUS));
    RepliesSend(c, s.replies + s.backWire, t.replies + t.backWire, s.acked, t.acked, t.sender.nextToAck,
                s.receiver.phase, t.receiver.phase, t.sender.phase, i);
  }

  lemma AckStep(c: Config, plan: Plan, s: State, i: nat)
    requires Inv(c, plan, s) && Enabled(c, s, AckChunk(i))
    ensures Inv(c, plan, Apply(c, s, AckChunk(i)))
  {
    var t := Apply(c, s, AckChunk(i));
    TasksAck(c.start, s.receiver, t.receiver, t.taken, s.acked, t.acked, i);
    ReceiverAck(c, plan, s.receiver, t.receiver, i);
    AckReplies(c, plan, s, t, i);
    ReceiverAnswers(c, plan, s, t);
  }

  // ---- hashing and the verdict ----

  lemma PushPlaces(reported: set<nat>, queue: seq<(nat, Bytes)>, queue': seq<(nat, Bytes)>,
                   b: R.Buffer<Bytes>, b': R.Buffer<Bytes>, out: seq<Bytes>)
    requires R.DistinctIndices(queue) && queue != [] && queue' == queue[1..]
    requires forall i: nat :: HashPlace(i, reported, queue, b)
    requires (b', out) == R.Push(b, queue[0].0, queue[0].1)
    ensures R.DistinctIndices(queue')
    ensures forall i: nat :: HashPlace(i, reported, queue', b')
  {
    var full := R.Insert(b, queue[0].0, queue[0].1);
    R.DrainSpec(full);
    QueueTail(queue);
    assert HashPlace(queue[0].0, reported, queue, b);
    forall i: nat ensures HashPlace(i, reported, queue', b') {
      assert HashPlace(i, reported, queue, b);
      if full.next <= i < b'.next {
        assert R.Entry(full, full.next + (i - full.next), out[i - full.next]);
      }
    }
  }

  ghost predicate PendingOk(plan: Plan, b: R.Buffer<Bytes>) {
    forall i :: i in b.pending ==> i < |plan.data| && b.pending[i] == plan.data[i]
  }

  /** Draining emits the data due, and keeps the rest. */
  lemma DrainsData(plan: Plan, full: R.Buffer<Bytes>, b': R.Buffer<Bytes>, out: seq<Bytes>)
    requires PendingOk(plan, full) && (b', out) == R.Drain(full)
    ensures b'.next == full.next + |out| && !R.Ready(b') && PendingOk(plan, b')
    ensures forall k: nat :: k < |out| ==> Continues(plan.data, full.next, out, k)
  {
    R.DrainSpec(full);
    forall k: nat | k < |out| ensures Continues(plan.data, full.next, out, k) {
      assert R.Entry(full, full.next + k, out[k]);
    }
  }

  lemma PushHashes(plan: Plan, b: R.Buffer<Bytes>, b': R.Buffer<Bytes>, x: nat, out: seq<Bytes>, hashed: Bytes)
    requires b.next <= |plan.data| && x < |plan.data| && hashed == Flatten(plan.data[..b.next]) && PendingOk(plan, b)
    requires (b', out) == R.Push(b, x, plan.data[x])
    ensures b.next <= b'.next <= |plan.data| && !R.Ready(b') && hashed + Flatten(out) == Flatten(plan.data[..b'.next])
    ensures PendingOk(plan, b')
  {
    DrainsData(plan, R.Insert(b, x, plan.data[x]), b', out);
    PrefixGrows(plan.data, b.next, out);
    FlattenAppend(plan.data[..b.next], out);
  }

  lemma PrefixGrows(data: seq<Bytes>, n: nat, out: seq<Bytes>)
    requires n <= |data| && forall k: nat :: k < |out| ==> Continues(data, n, out, k)
    ensures n + |out| <= |data| && data[..n] + out == data[..n + |out|]
  {
    if out != [] { assert Continues(data, n, out, |out| - 1); }
    forall k: nat | k < |out| ensures out[k] == data[n + k] { assert Continues(data, n, out, k); }
  }

  ghost predicate Continues(data: seq<Bytes>, n: nat, out: seq<Bytes>, k: nat) {
    n + k < |data| && k < |out| && out[k] == data[n + k]
  }

  lemma HashPush(plan: Plan, reported: set<nat>, queue: seq<(nat, Bytes)>, queue': seq<(nat, Bytes)>,
                 h: HashThread, g: HashThread)
    requires HashOk(plan, reported, queue, h) && queue != [] && queue' == queue[1..]
    requires var (b, out) := R.Push(h.buffer, queue[0].0, queue[0].1);
             g == HashThread(b, h.hashed + Flatten(out))
    ensures HashOk(plan, reported, queue', g) && g.buffer.next >= h.buffer.next
  {
    var (b, out) := R.Push(h.buffer, queue[0].0, queue[0].1);
    PushPlaces(reported, queue, queue', h.buffer, b, out);
    PushHashes(plan, h.buffer, b, queue[0].0, out, h.hashed);
    forall k | 0 <= k < |queue'| ensures queue'[k].0 < |plan.data| && queue'[k].1 == plan.data[queue'[k].0] {
      assert queue'[k] == queue[k + 1];
    }
  }

  lemma HashStep(c: Config, plan: Plan, s: State)
    requires Inv(c, plan, s) && Enabled(c, s, HashOne)
    ensures Inv(c, plan, Apply(c, s, HashOne))
  {
    var t := Apply(c, s, HashOne);
    HashPush(plan, Reported(c.start, s.receiver, s.acked), s.hashQueue, t.hashQueue, s.hasher, t.hasher);
  }

  /** A receiver that has every ack behind it has reported every chunk of the session. */
  lemma AllReported(c: Config, plan: Plan, s: State)
    requires Inv(c, plan, s)
    requires s.receiver.phase == AwaitingHash || s.receiver.phase.Closed?
    ensures s.taken == c.total
    ensures forall i: nat :: c.start <= i < c.total ==> i in Reported(c.start, s.receiver, s.acked)
  {
    var r := s.receiver;
    assert |r.finished| == 0 && s.taken == c.total;
    forall i: nat | c.start <= i < c.total ensures i in Reported(c.start, r, s.acked) {
      assert TaskPlace(i, r, s.taken, s.acked);
    }
  }

  /** A resumed session never reports chunk 0, so the hashing thread consumes nothing. */
  lemma NoneHashed(c: Config, plan: Plan, s: State)
    requires Inv(c, plan, s) && c.start > 0
    ensures s.hasher.buffer.next == 0
  {
    assert HashPlace(0, Reported(c.start, s.receiver, s.acked), s.hashQueue, s.hasher.buffer);
  }

  /** When the receiver waits for the hash and no task holds the hashing channel, every chunk has been hashed. */
  lemma AllHashed(c: Config, plan: Plan, s: State)
    requires Inv(c, plan, s) && c.start == 0
    requires s.receiver.phase == AwaitingHash || s.receiver.phase.Closed?
    requires s.hashQueue == [] && |s.receiver.decrypting| + |s.receiver.writing| + |s.receiver.hashing| == 0
    ensures s.hasher.buffer.next == c.total && s.hasher.hashed == Flatten(plan.data)
  {
    AllReported(c, plan, s);
    var next := s.hasher.buffer.next;
    assert HashPlace(next, Reported(c.start, s.receiver, s.acked), s.hashQueue, s.hasher.buffer);
    assert plan.data[..c.total] == plan.data;
  }

  lemma RepliesVerdict(c: Config, inbound: seq<Reply>, inbound': seq<Reply>, acked: seq<nat>, n: nat,
                       r: RecvPhase, r': RecvPhase, s: SendPhase)
    requires RepliesOk(c, inbound, acked, n, r, s) && LastWord(c, r) == [] && !Judged(s)
    requires inbound' == inbound + LastWord(c, r')
    ensures RepliesOk(c, inbound', acked, n, r', s)
  {
  }

  lemma VerdictIs(c: Config, plan: Plan, s: State)
    requires Inv(c, plan, s) && Enabled(c, s, Verdict) && c.checksum == Digest(Flatten(plan.data))
    ensures s.hasher.buffer.next == c.total && Digest(s.hasher.hashed) == c.checksum <==> c.start == 0
  {
    if c.start == 0 { AllHashed(c, plan, s); } else { NoneHashed(c, plan, s); }
  }

  lemma VerdictStep(c: Config, plan: Plan, s: State)
    requires Inv(c, plan, s) && Enabled(c, s, Verdict) && c.checksum == Digest(Flatten(plan.data))
    ensures Inv(c, plan, Apply(c, s, Verdict))
  {
    VerdictIs(c, plan, s);
    var phase := Closed(c.start == 0);
    var t := s.(receiver := s.receiver.(phase := phase), backWire := s.backWire + LastWord(c, phase));
    assert t == Apply(c, s, Verdict);
    LastWordSent(c, plan, s, t, phase);
  }

  lemma TasksRephase(start: nat, r: Receiver, q: Receiver, taken: nat, acked: seq<nat>)
    requires TasksOk(r, taken, acked) && q == r.(phase := q.phase)
    ensures TasksOk(q, taken, acked) && Reported(start, q, acked) == Reported(start, r, acked)
  {
    forall i: nat ensures TaskPlace(i, q, taken, acked) { assert TaskPlace(i, r, taken, acked); }
  }

  lemma MoveInbound(replies: seq<Reply>, replies': seq<Reply>, backWire: seq<Reply>, backWire': seq<Reply>)
    requires backWire != [] && replies' == replies + [backWire[0]] && backWire' == backWire[1..]
    ensures replies' + backWire' == replies + backWire
  {
  }

  lemma CarryReplyStep(c: Config, plan: Plan, s: State)
    requires Inv(c, plan, s) && Enabled(c, s, CarryReply)
    ensures Inv(c, plan, Apply(c, s, CarryReply))
  {
    var t := Apply(c, s, CarryReply);
    MoveInbound(s.replies, t.replies, s.backWire, t.backWire);
  }

  // ---- every step, every run ----

  lemma PlanIndex(c: Config, plan: Plan, i: nat)
    requires WellFormed(c) && IsPlan(c, plan) && i < c.total
    ensures Planned(c, plan, i) && Opens(c, plan, i)
  {
    assert Planned(c, plan, i);
  }

  lemma {:induction false} PlanConcatenates(c: Config, plan: Plan, k: nat)
    requires WellFormed(c) && IsPlan(c, plan) && k <= c.total
    ensures Flatten(plan.data[..k]) == c.source[..Min(Offset(Clamp(c.chunkSize), k), |c.source|)]
  {
    if k > 0 {
      PlanConcatenates(c, plan, k - 1);
      assert Planned(c, plan, k - 1);
      assert plan.data[..k] == plan.data[..k - 1] + [plan.data[k - 1]];
      FlattenSnoc(plan.data[..k - 1], plan.data[k - 1]);
      ChunkExtendsPrefix(c.source, Clamp(c.chunkSize), k - 1);
    }
  }

  lemma PlanIsSource(c: Config, plan: Plan)
    requires WellFormed(c) && IsPlan(c, plan)
    ensures Flatten(plan.data) == c.source
  {
    PlanConcatenates(c, plan, c.total);
    assert plan.data[..c.total] == plan.data;
    TotalChunksSpec(|c.source|, Clamp(c.chunkSize));
  }

  /** Every step of every task keeps the invariant. */
  lemma StepInv(c: Config, plan: Plan, s: State, step: Step)
    requires WellFormed(c) && IsPlan(c, plan) && Inv(c, plan, s) && Enabled(c, s, step)
    ensures Inv(c, plan, Apply(c, s, step))
  {
    if OfProducer(step) { ProducerStepInv(c, plan, s, step); }
    else if OfSender(step) { SenderStepInv(c, plan, s, step); }
    else if OfTask(step) { TaskStepInv(c, plan, s, step); }
    else { AnswerStepInv(c, plan, s, step); }
  }

  // The steps by the program part that takes them.

  predicate OfProducer(step: Step) {
    step.Spawn? || step.StopProducer? || step.JoinEncoder? || step.EncryptChunk? || step.OfferFrame?
  }

  predicate OfSender(step: Step) {
    step.PressPause? || step.AcceptFrame? || step.DrainOne? || step.TakeReply? || step.CarryReply?
  }

  predicate OfTask(step: Step) {
    step.TakeFrame? || step.DecryptChunk? || step.WriteChunk? || step.ReportHash?
  }

  lemma ProducerStepInv(c: Config, plan: Plan, s: State, step: Step)
    requires WellFormed(c) && IsPlan(c, plan) && Inv(c, plan, s) && Enabled(c, s, step) && OfProducer(step)
    ensures Inv(c, plan, Apply(c, s, step))
  {
    match step
    case Spawn => PlanIndex(c, plan, s.producer.next); SpawnStep(c, plan, s);
    case StopProducer => StopStep(c, plan, s);
    case JoinEncoder(i) => JoinStep(c, plan, s, i);
    case EncryptChunk(i) => PlanIndex(c, plan, i); EncryptStep(c, plan, s, i);
    case OfferFrame(i) => OfferStep(c, plan, s, i);
  }

  lemma SenderStepInv(c: Config, plan: Plan, s: State, step: Step)
    requires Inv(c, plan, s) && Enabled(c, s, step) && OfSender(step)
    ensures Inv(c, plan, Apply(c, s, step))
  {
    match step
    case PressPause =>
    case AcceptFrame => AcceptStep(c, plan, s);
    case DrainOne => DrainStep(c, plan, s);
    case TakeReply =>
      if s.sender.phase == Selecting { AckedStep(c, plan, s); } else { VerdictTakenStep(c, plan, s); }
    case CarryReply => CarryReplyStep(c, plan, s);
  }

  lemma TaskStepInv(c: Config, plan: Plan, s: State, step: Step)
    requires WellFormed(c) && IsPlan(c, plan) && Inv(c, plan, s) && Enabled(c, s, step) && OfTask(step)
    ensures Inv(c, plan, Apply(c, s, step))
  {
    match step
    case TakeFrame => PlanIndex(c, plan, s.taken); TakeStep(c, plan, s);
    case DecryptChunk(i) => PlanIndex(c, plan, i); DecryptStep(c, plan, s, i);
    case WriteChunk(i) => WriteStep(c, plan, s, i);
    case ReportHash(i) => ReportStep(c, plan, s, i);
  }

  lemma AnswerStepInv(c: Config, plan: Plan, s: State, step: Step)
    requires WellFormed(c) && IsPlan(c, plan) && Inv(c, plan, s) && Enabled(c, s, step)
    requires !OfProducer(step) && !OfSender(step) && !OfTask(step)
    ensures Inv(c, plan, Apply(c, s, step))
  {
    match step
    case CarryFrame => CarryStep(c, plan, s);
    case Choke => ChokeStep(c, plan, s);
    case TakeError => TakeErrorStep(c, plan, s);
    case AckChunk(i) => AckStep(c, plan, s, i);
    case HashOne => HashStep(c, plan, s);
    case Verdict => PlanIsSource(c, plan); VerdictStep(c, plan, s);
  }
}
