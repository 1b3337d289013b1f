/**
 Two things the command-line transfer does not keep, each with its run and its exact condition: the
 window of frames in flight, and the acknowledged chunks being a prefix of the file.
 */
module PipelineWindow {
  import opened Basics
  import opened Tiling
  import R = Reorder
  import Resume
  import opened Pipeline
  import opened PipelineInvariant
  import opened PipelineTheorems

  /** A run taken one step further. */
  lemma Further(c: Config, leftover: Bytes, row: Resume.Record, steps: seq<Step>, s: State, step: Step)
    returns (more: seq<Step>, t: State)
    requires Reached(c, leftover, row, steps, s) && Enabled(c, s, step)
    ensures Reached(c, leftover, row, more, t) && t == Apply(c, s, step)
  {
    more, t := steps + [step], Apply(c, s, step);
    RunSnoc(c, Init(c, leftover, row), steps, step);
  }

  lemma ThreeFurther(c: Config, leftover: Bytes, row: Resume.Record, steps: seq<Step>, s: State, x: Step, y: Step, z: Step)
    returns (more: seq<Step>, t: State)
    requires Reached(c, leftover, row, steps, s) && Enabled(c, s, x) && Enabled(c, Apply(c, s, x), y)
    requires Enabled(c, Apply(c, Apply(c, s, x), y), z)
    ensures Reached(c, leftover, row, more, t) && t == Apply(c, Apply(c, Apply(c, s, x), y), z)
  {
    more, t := Further(c, leftover, row, steps, s, x);
    more, t := Further(c, leftover, row, more, t, y);
    more, t := Further(c, leftover, row, more, t, z);
  }

  // ---- the window ----

  /** Chunk `start` is still being encrypted; the frames after it, below k, wait in the sender's table. */
  ghost predicate HoldsBack(c: Config, s: State, k: nat) {
    && c.start < k <= c.total
    && s.producer.next == k && !s.producer.stopped && !s.paused
    && s.producer.encrypting.Keys == {c.start} && s.producer.sending == map[]
    && Tasks(s.producer) < ENCRYPT_TASKS && s.net == []
    && s.sender.phase == Selecting && s.sender.buffer.next == s.sender.nextToAck == c.start
    && s.sender.buffer.pending.Keys == Range(c.start + 1, k)
  }

  lemma FirstHeldBack(c: Config, leftover: Bytes, row: Resume.Record) returns (steps: seq<Step>, s: State)
    requires WellFormed(c)
    ensures Reached(c, leftover, row, steps, s) && HoldsBack(c, s, c.start + 1)
  {
    steps, s := [], Init(c, leftover, row);
    steps, s := Further(c, leftover, row, steps, s, Spawn);
  }

  /** What taking a frame that is not the next does to the sender. */
  lemma TakenAside(c: Config, s: State, i: nat)
    requires c.chunkSize > 0 && s.net != [] && s.net[0].0 == i && s.sender.phase == Selecting
    requires InFlight(s.sender) < WINDOW && !s.paused && s.sender.buffer.next != i && !R.Ready(s.sender.buffer)
    ensures Enabled(c, s, AcceptFrame) && Enabled(c, Apply(c, s, AcceptFrame), DrainOne)
    ensures var b := R.Insert(s.sender.buffer, i, s.net[0].1);
            Apply(c, Apply(c, s, AcceptFrame), DrainOne) == s.(net := s.net[1..], sender := s.sender.(buffer := b))
  {
    DrainIs(c, Apply(c, s, AcceptFrame));
  }

  /** The next chunk gets past its own encryption. */
  lemma NextOffered(c: Config, s: State, k: nat)
    requires c.chunkSize > 0 && HoldsBack(c, s, k) && k < c.total
    ensures Enabled(c, s, Spawn) && Enabled(c, Apply(c, s, Spawn), EncryptChunk(k))
    ensures Enabled(c, Apply(c, Apply(c, s, Spawn), EncryptChunk(k)), OfferFrame(k))
    ensures var t := Apply(c, Apply(c, Apply(c, s, Spawn), EncryptChunk(k)), OfferFrame(k));
            && t == s.(producer := t.producer, net := t.net) && |t.net| == 1 && t.net[0].0 == k
            && t.producer == s.producer.(next := k + 1, encrypting := t.producer.encrypting, encoded := s.producer.encoded + {k})
            && t.producer.encrypting.Keys == {c.start} && Tasks(t.producer) <= ENCRYPT_TASKS
  {
    var t := Apply(c, Apply(c, Apply(c, s, Spawn), EncryptChunk(k)), OfferFrame(k));
    assert t.producer.encrypting == s.producer.encrypting && t.producer.sending == map[];
  }

  lemma NextTakenAside(c: Config, leftover: Bytes, row: Resume.Record, steps: seq<Step>, s: State, k: nat, t: State)
    returns (more: seq<Step>, u: State)
    requires Reached(c, leftover, row, steps, t) && HoldsBack(c, s, k) && k < c.total
    requires t == s.(producer := t.producer, net := t.net) && |t.net| == 1 && t.net[0].0 == k
    ensures Reached(c, leftover, row, more, u)
    ensures u == t.(net := [], sender := s.sender.(buffer := u.sender.buffer))
    ensures u.sender.buffer.next == c.start && u.sender.buffer.pending.Keys == Range(c.start + 1, k + 1)
  {
    TakenAside(c, t, k);
    more, u := Further(c, leftover, row, steps, t, AcceptFrame);
    more, u := Further(c, leftover, row, more, u, DrainOne);
  }

  lemma OneMoreHeldBack(c: Config, leftover: Bytes, row: Resume.Record, steps: seq<Step>, s: State, k: nat)
    returns (more: seq<Step>, t: State)
    requires Reached(c, leftover, row, steps, s) && HoldsBack(c, s, k) && k < c.total
    ensures Reached(c, leftover, row, more, t) && HoldsBack(c, t, k + 1)
  {
    NextOffered(c, s, k);
    more, t := ThreeFurther(c, leftover, row, steps, s, Spawn, EncryptChunk(k), OfferFrame(k));
    more, t := NextTakenAside(c, leftover, row, more, s, k, t);
    more, t := Joined(c, leftover, row, more, t, k);
  }

  /** When the tasks are full, one that is done makes room. */
  lemma Joined(c: Config, leftover: Bytes, row: Resume.Record, steps: seq<Step>, s: State, i: nat)
    returns (more: seq<Step>, t: State)
    requires Reached(c, leftover, row, steps, s) && i in s.producer.encoded && Tasks(s.producer) <= ENCRYPT_TASKS
    ensures Reached(c, leftover, row, more, t) && t == s.(producer := s.producer.(encoded := t.producer.encoded))
    ensures Tasks(t.producer) < ENCRYPT_TASKS
  {
    more, t := steps, s;
    if Tasks(s.producer) == ENCRYPT_TASKS {
      more, t := Further(c, leftover, row, steps, s, JoinEncoder(i));
    }
  }

  /** The sender's memory is not bounded by the window either: while the first chunk is being encrypted
      the table of early frames takes in all the others, with nothing in flight. */
  lemma BufferOverrun(c: Config, leftover: Bytes, row: Resume.Record, k: nat) returns (steps: seq<Step>, s: State)
    requires WellFormed(c) && c.start < k <= c.total
    ensures Reached(c, leftover, row, steps, s) && HoldsBack(c, s, k)
    ensures InFlight(s.sender) == 0 && |s.sender.buffer.pending| == k - c.start - 1
  {
    if k == c.start + 1 {
      steps, s := FirstHeldBack(c, leftover, row);
    } else {
      steps, s := BufferOverrun(c, leftover, row, k - 1);
      steps, s := OneMoreHeldBack(c, leftover, row, steps, s, k - 1);
    }
  }

  /** Everything from the next frame on is in the table. */
  ghost predicate Pouring(c: Config, s: State) {
    && s.sender.phase == Draining && s.sender.nextToAck == c.start
    && s.sender.buffer.next <= c.total && s.sender.buffer.pending.Keys == Range(s.sender.buffer.next, c.total)
  }

  lemma FirstOffered(c: Config, s: State)
    requires c.chunkSize > 0 && HoldsBack(c, s, c.total)
    ensures Enabled(c, s, EncryptChunk(c.start)) && Enabled(c, Apply(c, s, EncryptChunk(c.start)), OfferFrame(c.start))
    ensures var t := Apply(c, Apply(c, s, EncryptChunk(c.start)), OfferFrame(c.start));
            t == s.(producer := t.producer, net := t.net) && |t.net| == 1 && t.net[0].0 == c.start
  {
  }

  lemma FirstPours(c: Config, s: State)
    requires c.chunkSize > 0 && c.start < c.total && |s.net| == 1 && s.net[0].0 == c.start
    requires s.sender.phase == Selecting && s.sender.buffer.next == s.sender.nextToAck == c.start
    requires s.sender.buffer.pending.Keys == Range(c.start + 1, c.total)
    ensures Enabled(c, s, AcceptFrame) && Pouring(c, Apply(c, s, AcceptFrame))
  {
    var b := s.sender.buffer;
    RangeGrows(c.start, c.total);
    assert R.Insert(b, c.start, s.net[0].1).pending.Keys == b.pending.Keys + {c.start};
  }

  lemma RangeGrows(lo: nat, hi: nat)
    requires lo < hi
    ensures Range(lo, hi) == Range(lo + 1, hi) + {lo}
  {
    forall i: nat ensures i in Range(lo, hi) <==> i in Range(lo + 1, hi) + {lo} {}
  }

  lemma PourOne(c: Config, s: State)
    requires c.chunkSize > 0 && Pouring(c, s) && s.sender.buffer.next < c.total
    ensures Enabled(c, s, DrainOne) && Pouring(c, Apply(c, s, DrainOne))
    ensures Apply(c, s, DrainOne).sender.buffer.next == s.sender.buffer.next + 1
  {
    DrainIs(c, s);
    var t := Apply(c, s, DrainOne);
    assert t.sender.buffer.pending.Keys == s.sender.buffer.pending.Keys - {s.sender.buffer.next};
  }

  lemma PourAll(c: Config, leftover: Bytes, row: Resume.Record, steps: seq<Step>, s: State)
    returns (more: seq<Step>, t: State)
    requires Reached(c, leftover, row, steps, s) && Pouring(c, s)
    ensures Reached(c, leftover, row, more, t) && Pouring(c, t) && t.sender.buffer.next == c.total
    decreases c.total - s.sender.buffer.next
  {
    more, t := steps, s;
    if s.sender.buffer.next < c.total {
      PourOne(c, s);
      more, t := Further(c, leftover, row, steps, s, DrainOne);
      more, t := PourAll(c, leftover, row, more, t);
    }
  }

  /** Every session has a run that puts all its frames in flight at once: the first chunk is slow to
      encrypt, the others are taken aside meanwhile, and its arrival drains the whole table. */
  lemma WindowOverrun(c: Config, leftover: Bytes, row: Resume.Record) returns (steps: seq<Step>, s: State)
    requires WellFormed(c)
    ensures Reached(c, leftover, row, steps, s) && InFlight(s.sender) == c.total - c.start
  {
    steps, s := BufferOverrun(c, leftover, row, c.total);
    FirstOffered(c, s);
    steps, s := Further(c, leftover, row, steps, s, EncryptChunk(c.start));
    steps, s := Further(c, leftover, row, steps, s, OfferFrame(c.start));
    FirstPours(c, s);
    steps, s := Further(c, leftover, row, steps, s, AcceptFrame);
    steps, s := PourAll(c, leftover, row, steps, s);
  }

  lemma FlightWithinSession(c: Config, leftover: Bytes, row: Resume.Record, steps: seq<Step>, s: State)
    requires Reached(c, leftover, row, steps, s)
    ensures InFlight(s.sender) <= c.total - c.start
  {
    ReachedInv(c, leftover, row, steps, s);
  }

  /** The window bounds the frames in flight exactly in the sessions that have no more frames than that. */
  lemma WindowHoldsExactlyWhenSmall(c: Config, leftover: Bytes, row: Resume.Record)
    requires WellFormed(c)
    ensures (forall steps, s :: Reached(c, leftover, row, steps, s) ==> InFlight(s.sender) <= WINDOW)
            <==> c.total - c.start <= WINDOW
  {
    if c.total - c.start <= WINDOW {
      forall steps, s | Reached(c, leftover, row, steps, s) ensures InFlight(s.sender) <= WINDOW {
        FlightWithinSession(c, leftover, row, steps, s);
      }
    } else {
      var steps, s := WindowOverrun(c, leftover, row);
    }
  }

  /** Every frame the sender takes is the next to send. */
  ghost predicate InOrder(c: Config, s: State, steps: seq<Step>)
    requires c.chunkSize > 0 && IsRun(c, s, steps)
    decreases |steps|
  {
    steps == []
    || ((steps[0] == AcceptFrame ==> s.net[0].0 == s.sender.buffer.next) && InOrder(c, Apply(c, s, steps[0]), steps[1..]))
  }

  /** No early frames, and room in the window for the one in hand. */
  ghost predicate WindowOk(s: State) {
    var b := s.sender.buffer;
    && InFlight(s.sender) <= WINDOW && b.pending.Keys <= {b.next}
    && (b.pending != map[] ==> s.sender.phase == Draining && InFlight(s.sender) < WINDOW)
  }

  lemma WindowStep(c: Config, s: State, step: Step)
    requires c.chunkSize > 0 && Enabled(c, s, step) && WindowOk(s)
    requires step == AcceptFrame ==> s.net[0].0 == s.sender.buffer.next
    ensures WindowOk(Apply(c, s, step))
  {
    if step == DrainOne {
      DrainIs(c, s);
      EmptyOrNext(s.sender.buffer);
    } else if !OfSender(step) {
      OthersKeepSender(c, s, step);
    }
  }

  lemma EmptyOrNext(b: R.Buffer<Frame>)
    requires b.pending.Keys <= {b.next}
    ensures R.Ready(b) ==> R.Release(b).pending == map[]
    ensures !R.Ready(b) ==> b.pending == map[]
  {
    if R.Ready(b) {
      assert (b.pending - {b.next}).Keys == {};
    } else {
      assert b.pending.Keys == {};
    }
  }

  lemma {:induction false} WindowRun(c: Config, s: State, steps: seq<Step>)
    requires c.chunkSize > 0 && IsRun(c, s, steps) && InOrder(c, s, steps) && WindowOk(s)
    ensures WindowOk(After(c, s, steps))
    decreases |steps|
  {
    if steps != [] {
      WindowStep(c, s, steps[0]);
      WindowRun(c, Apply(c, s, steps[0]), steps[1..]);
    }
  }

  /** Where the frames reach the sender in order the window does hold: 32 in flight at most. */
  lemma WindowHoldsInOrder(c: Config, leftover: Bytes, row: Resume.Record, steps: seq<Step>, s: State)
    requires Reached(c, leftover, row, steps, s) && InOrder(c, Init(c, leftover, row), steps)
    ensures InFlight(s.sender) <= 32
  {
    WindowRun(c, Init(c, leftover, row), steps);
  }

  // ---- the bounds that do hold ----

  ghost predicate ChannelsOk(s: State) {
    |s.net| <= NET_CAPACITY && |s.arrived| <= CHUNK_CAPACITY && |s.replies| <= REPLY_CAPACITY
  }

  lemma ChannelsStep(c: Config, s: State, step: Step)
    requires c.chunkSize > 0 && Enabled(c, s, step) && ChannelsOk(s)
    ensures ChannelsOk(Apply(c, s, step))
  {
  }

  lemma {:induction false} ChannelsRun(c: Config, s: State, steps: seq<Step>)
    requires c.chunkSize > 0 && IsRun(c, s, steps) && ChannelsOk(s)
    ensures ChannelsOk(After(c, s, steps))
    decreases |steps|
  {
    if steps != [] {
      ChannelsStep(c, s, steps[0]);
      ChannelsRun(c, Apply(c, s, steps[0]), steps[1..]);
    }
  }

  /** No channel ever holds more than its capacity, and no more than eight chunks are being encrypted. */
  lemma BoundsHold(c: Config, leftover: Bytes, row: Resume.Record, steps: seq<Step>, s: State)
    requires Reached(c, leftover, row, steps, s)
    ensures |s.net| <= 16 && |s.arrived| <= 32 && |s.replies| <= 1024 && Tasks(s.producer) <= 8
  {
    ReachedInv(c, leftover, row, steps, s);
    ChannelsRun(c, Init(c, leftover, row), steps);
  }

  /** The guards, with the numbers of the code: what each task waits for, and nothing else. */
  lemma GuardsAre(c: Config, s: State, i: nat)
    ensures Enabled(c, s, Spawn) <==> s.producer.next < c.total && !s.producer.stopped && !s.paused && Tasks(s.producer) < 8
    ensures Enabled(c, s, OfferFrame(i)) <==> i in s.producer.sending && |s.net| < 16
    ensures Enabled(c, s, AcceptFrame) <==> s.sender.phase == Selecting && s.net != [] && InFlight(s.sender) < 32
    ensures Enabled(c, s, CarryFrame) <==> s.wire != [] && s.wire[0].length <= 0x400_0000 && |s.arrived| < 32
    ensures Enabled(c, s, CarryReply) <==> s.backWire != [] && |s.replies| < 1024
  {
  }

  /** Nothing but the spawning of k tasks has happened. */
  ghost predicate OnlySpawned(c: Config, p: Producer, k: nat) {
    && p.next == c.start + k && !p.stopped && p.encrypting.Keys == Range(c.start, c.start + k)
    && p.sending == map[] && p.encoded == {}
  }

  lemma SpawnedCount(c: Config, p: Producer, k: nat)
    requires OnlySpawned(c, p, k)
    ensures Tasks(p) == k
  {
    assert |p.encrypting| == |p.encrypting.Keys|;
  }

  lemma RangeSnoc(lo: nat, hi: nat)
    requires lo <= hi
    ensures Range(lo, hi + 1) == Range(lo, hi) + {hi}
  {
  }

  lemma SpawnedSnoc(c: Config, p: Producer, q: Producer, k: nat, data: Bytes)
    requires OnlySpawned(c, p, k) && q == p.(next := p.next + 1, encrypting := p.encrypting[p.next := data])
    ensures OnlySpawned(c, q, k + 1)
  {
    RangeSnoc(c.start, p.next);
    assert q.encrypting.Keys == p.encrypting.Keys + {p.next};
  }

  lemma SpawnIs(c: Config, s: State)
    requires c.chunkSize > 0 && Enabled(c, s, Spawn)
    ensures var p := s.producer;
            Apply(c, s, Spawn) == s.(producer := p.(next := p.next + 1, encrypting := p.encrypting[p.next := Data(c, p.next)]))
  {
  }

  lemma InitSpawned(c: Config, leftover: Bytes, row: Resume.Record)
    ensures OnlySpawned(c, Init(c, leftover, row).producer, 0) && !Init(c, leftover, row).paused
  {
  }

  /** And eight there are, in every session that has as many chunks to send. */
  lemma TasksAttained(c: Config, leftover: Bytes, row: Resume.Record, k: nat) returns (steps: seq<Step>, s: State)
    requires WellFormed(c) && k <= 8 && c.start + k <= c.total
    ensures Reached(c, leftover, row, steps, s) && OnlySpawned(c, s.producer, k) && !s.paused && Tasks(s.producer) == k
  {
    if k == 0 {
      steps, s := [], Init(c, leftover, row);
      InitSpawned(c, leftover, row);
    } else {
      steps, s := TasksAttained(c, leftover, row, k - 1);
      var p := s.producer;
      SpawnIs(c, s);
      steps, s := Further(c, leftover, row, steps, s, Spawn);
      SpawnedSnoc(c, p, s.producer, k - 1, Data(c, p.next));
    }
    SpawnedCount(c, s.producer, k);
  }

  // ---- what the count of acks says of the file ----

  /** The chunks that are on disk: written by a task, acknowledged, or skipped by a resumed session. */
  ghost function OnDisk(s: State): set<nat> {
    s.receiver.hashing.Keys + s.receiver.finished + Members(s.acked)
  }

  /** Every chunk the sender counts, and so the bytes it stores, is on disk. */
  ghost predicate CountIsPrefix(s: State) {
    forall i: nat :: i < s.sender.nextToAck ==> i in OnDisk(s)
  }

  /** The sender and the receiver rest; the frames below k are on the wire. */
  ghost predicate Resting(c: Config, s: State, k: nat) {
    && k <= c.total && c.start <= k <= c.start + 2
    && s.producer.next == k && !s.producer.stopped && !s.paused
    && s.producer.encrypting == map[] && s.producer.sending == map[] && |s.producer.encoded| <= k - c.start
    && s.net == [] && s.sender.phase == Selecting && s.sender.buffer == R.Buffer(k, map[])
    && s.sender.nextToAck == c.start && s.sender.bytesSent == c.offset
    && |s.wire| == k - c.start && (forall j: nat :: j < |s.wire| ==> WireFrameIs(c, s.wire, j))
    && s.arrived == [] && !s.choked && s.taken == c.start && s.acked == Skipped(c.start)
    && s.receiver == Receiver(Receiving, map[], map[], map[], {}, c.start)
    && s.backWire == [] && s.replies == []
  }

  ghost predicate WireFrameIs(c: Config, wire: seq<Frame>, j: nat) {
    j < |wire| && wire[j] == SealChunk(c, c.start + j, Data(c, c.start + j))
  }

  /** The frame of the next index goes straight to the wire. */
  lemma SentAtOnce(c: Config, s: State, f: Frame)
    requires c.chunkSize > 0 && s.sender.phase == Selecting && !s.paused && InFlight(s.sender) < WINDOW
    requires s.sender.buffer.pending == map[] && s.net == [(s.sender.buffer.next, f)]
    ensures Enabled(c, s, AcceptFrame) && Enabled(c, Apply(c, s, AcceptFrame), DrainOne)
    ensures Enabled(c, Apply(c, Apply(c, s, AcceptFrame), DrainOne), DrainOne)
    ensures Apply(c, Apply(c, Apply(c, s, AcceptFrame), DrainOne), DrainOne)
            == s.(net := [], sender := s.sender.(buffer := R.Buffer(s.sender.buffer.next + 1, map[])), wire := s.wire + [f])
  {
    var accepted := Apply(c, s, AcceptFrame);
    DrainIs(c, accepted);
    DrainIs(c, Apply(c, accepted, DrainOne));
    assert accepted.sender.buffer.pending - {s.sender.buffer.next} == map[];
  }

  /** A resting session's next chunk gets past its encryption. */
  lemma RestOffered(c: Config, s: State, k: nat)
    requires c.chunkSize > 0 && Resting(c, s, k) && k < c.total && k < c.start + 2
    ensures Enabled(c, s, Spawn) && Enabled(c, Apply(c, s, Spawn), EncryptChunk(k))
    ensures Enabled(c, Apply(c, Apply(c, s, Spawn), EncryptChunk(k)), OfferFrame(k))
    ensures Apply(c, Apply(c, Apply(c, s, Spawn), EncryptChunk(k)), OfferFrame(k))
            == s.(producer := Producer(k + 1, false, map[], map[], s.producer.encoded + {k}),
                  net := [(k, SealChunk(c, k, Data(c, k)))])
  {
    var t := Apply(c, Apply(c, Apply(c, s, Spawn), EncryptChunk(k)), OfferFrame(k));
    assert t.producer.encrypting == map[] && t.producer.sending == map[];
  }

  lemma RestAgain(c: Config, s: State, k: nat, t: State)
    requires Resting(c, s, k) && k < c.total && k < c.start + 2
    requires t == s.(producer := Producer(k + 1, false, map[], map[], s.producer.encoded + {k}),
                     sender := s.sender.(buffer := R.Buffer(k + 1, map[])),
                     wire := s.wire + [SealChunk(c, k, Data(c, k))])
    ensures Resting(c, t, k + 1)
  {
    forall j: nat | j < |t.wire| ensures WireFrameIs(c, t.wire, j) {
      if j < |s.wire| { assert WireFrameIs(c, s.wire, j); }
    }
  }

  lemma SendNext(c: Config, leftover: Bytes, row: Resume.Record, steps: seq<Step>, s: State, k: nat)
    returns (more: seq<Step>, t: State)
    requires Reached(c, leftover, row, steps, s) && Resting(c, s, k) && k < c.total && k < c.start + 2
    ensures Reached(c, leftover, row, more, t) && Resting(c, t, k + 1)
  {
    RestOffered(c, s, k);
    more, t := ThreeFurther(c, leftover, row, steps, s, Spawn, EncryptChunk(k), OfferFrame(k));
    SentAtOnce(c, t, SealChunk(c, k, Data(c, k)));
    more, t := ThreeFurther(c, leftover, row, more, t, AcceptFrame, DrainOne, DrainOne);
    RestAgain(c, s, k, t);
  }

  // The second of two frames overtakes the first among the receiver's tasks.

  lemma BothCarried(c: Config, s: State, f: Frame, g: Frame)
    requires c.chunkSize > 0 && s.wire == [f, g] && Fits(f) && Fits(g) && s.arrived == []
    ensures Enabled(c, s, CarryFrame) && Enabled(c, Apply(c, s, CarryFrame), CarryFrame)
    ensures Apply(c, Apply(c, s, CarryFrame), CarryFrame) == s.(wire := [], arrived := [f, g])
  {
  }

  lemma BothTaken(c: Config, s: State, f: Frame, g: Frame)
    requires c.chunkSize > 0 && s.arrived == [f, g] && s.receiver.phase == Receiving && s.receiver.decrypting == map[]
    ensures Enabled(c, s, TakeFrame) && Enabled(c, Apply(c, s, TakeFrame), TakeFrame)
    ensures Apply(c, Apply(c, s, TakeFrame), TakeFrame)
            == s.(arrived := [], taken := s.taken + 2, receiver := s.receiver.(decrypting := map[f.index := f][g.index := g]))
  {
  }

  lemma Opened(c: Config, i: nat)
    requires i < U32_MODULUS
    ensures var f := SealChunk(c, i, Data(c, i)); f.index == i && OpenChunk(c, f) == Some(Data(c, i))
  {
  }

  lemma TaskDecrypts(c: Config, s: State, i: nat, data: Bytes)
    requires c.chunkSize > 0 && i in s.receiver.decrypting && OpenChunk(c, s.receiver.decrypting[i]) == Some(data)
    requires s.receiver.writing == map[]
    ensures Apply(c, s, DecryptChunk(i))
            == s.(receiver := s.receiver.(decrypting := s.receiver.decrypting - {i}, writing := map[i := data]))
  {
  }

  lemma TaskReports(c: Config, s: State, i: nat, data: Bytes)
    requires c.chunkSize > 0 && s.receiver.writing == map[i := data]
    requires s.receiver.hashing == map[] && s.receiver.finished == {}
    ensures Enabled(c, s, WriteChunk(i)) && Enabled(c, Apply(c, s, WriteChunk(i)), ReportHash(i))
    ensures var t := Apply(c, Apply(c, s, WriteChunk(i)), ReportHash(i));
            && t == s.(receiver := t.receiver, file := t.file, hashQueue := t.hashQueue)
            && t.receiver == s.receiver.(writing := map[], hashing := map[], finished := {i})
  {
    var t := Apply(c, s, WriteChunk(i));
    assert t.receiver.hashing == map[i := data] && t.receiver.writing == map[];
  }

  /** The task of one frame runs to its end. */
  lemma TaskDone(c: Config, s: State, i: nat, data: Bytes)
    requires c.chunkSize > 0 && i in s.receiver.decrypting && OpenChunk(c, s.receiver.decrypting[i]) == Some(data)
    requires s.receiver.writing == map[] && s.receiver.hashing == map[] && s.receiver.finished == {}
    ensures Enabled(c, s, DecryptChunk(i)) && Enabled(c, Apply(c, s, DecryptChunk(i)), WriteChunk(i))
    ensures Enabled(c, Apply(c, Apply(c, s, DecryptChunk(i)), WriteChunk(i)), ReportHash(i))
    ensures var t := Apply(c, Apply(c, Apply(c, s, DecryptChunk(i)), WriteChunk(i)), ReportHash(i));
            && t == s.(receiver := t.receiver, file := t.file, hashQueue := t.hashQueue)
            && t.receiver == s.receiver.(decrypting := s.receiver.decrypting - {i}, finished := {i})
  {
    TaskDecrypts(c, s, i, data);
    TaskReports(c, Apply(c, s, DecryptChunk(i)), i, data);
  }

  lemma AckSeen(c: Config, s: State, i: nat)
    requires c.chunkSize > 0 && s.receiver.phase == Receiving && s.receiver.finished == {i}
    requires s.backWire == [] && s.replies == [] && s.sender.phase == Selecting
    ensures Enabled(c, s, AckChunk(i)) && Enabled(c, Apply(c, s, AckChunk(i)), CarryReply)
    ensures Enabled(c, Apply(c, Apply(c, s, AckChunk(i)), CarryReply), TakeReply)
    ensures var t := Apply(c, Apply(c, Apply(c, s, AckChunk(i)), CarryReply), TakeReply);
            && t.sender.nextToAck == s.sender.nextToAck + 1 && t.acked == s.acked + [i]
            && t.receiver.finished == {} && t.receiver.hashing == s.receiver.hashing
            && t.sender.record.transferred == t.sender.bytesSent > s.sender.bytesSent
  {
  }

  /** The second chunk is on disk and its task has ended, the first is still being decrypted. */
  ghost predicate SecondReported(c: Config, s: State) {
    && s.receiver.hashing == map[] && s.receiver.finished == {c.start + 1} && s.receiver.phase == Receiving
    && s.acked == Skipped(c.start)
    && s.sender.phase == Selecting && s.sender.nextToAck == c.start && s.sender.bytesSent == c.offset
    && s.backWire == [] && s.replies == []
  }

  lemma SecondOvertakes(c: Config, leftover: Bytes, row: Resume.Record) returns (steps: seq<Step>, s: State)
    requires WellFormed(c) && c.start + 1 < c.total && ChunkFits(c, c.start) && ChunkFits(c, c.start + 1)
    ensures Reached(c, leftover, row, steps, s) && SecondReported(c, s)
  {
    steps, s := BothAtReceiver(c, leftover, row);
    var i := c.start + 1;
    Opened(c, i);
    TaskDone(c, s, i, Data(c, i));
    steps, s := ThreeFurther(c, leftover, row, steps, s, DecryptChunk(i), WriteChunk(i), ReportHash(i));
  }

  lemma FirstNotOnDisk(c: Config, s: State)
    requires s.receiver.hashing == map[] && s.receiver.finished == {} && s.acked == Skipped(c.start) + [c.start + 1]
    ensures c.start !in OnDisk(s) && c.start + 1 in OnDisk(s)
  {
    SkippedMembers(c.start);
    MembersSnoc(Skipped(c.start), c.start + 1);
    assert c.start !in Members(s.acked) && c.start + 1 in Members(s.acked);
    assert s.receiver.hashing.Keys == {};
  }

  /** A session of two frames or more whose first two fit has a run in which the sender has counted one
      chunk and stored its bytes, while the chunk it counts is not on disk: the second one is. */
  lemma CountOvertakes(c: Config, leftover: Bytes, row: Resume.Record) returns (steps: seq<Step>, s: State)
    requires WellFormed(c) && c.start + 1 < c.total && ChunkFits(c, c.start) && ChunkFits(c, c.start + 1)
    ensures Reached(c, leftover, row, steps, s)
    ensures s.sender.nextToAck == c.start + 1 && c.start !in OnDisk(s) && c.start + 1 in OnDisk(s)
    ensures s.sender.record.transferred > c.offset
  {
    steps, s := SecondOvertakes(c, leftover, row);
    var i := c.start + 1;
    AckSeen(c, s, i);
    steps, s := ThreeFurther(c, leftover, row, steps, s, AckChunk(i), CarryReply, TakeReply);
    FirstNotOnDisk(c, s);
  }

  lemma BothAtReceiver(c: Config, leftover: Bytes, row: Resume.Record) returns (steps: seq<Step>, s: State)
    requires WellFormed(c) && c.start + 1 < c.total && ChunkFits(c, c.start) && ChunkFits(c, c.start + 1)
    ensures Reached(c, leftover, row, steps, s) && BothDecrypting(c, s)
  {
    steps, s := BothSent(c, leftover, row);
    var f, g := SealChunk(c, c.start, Data(c, c.start)), SealChunk(c, c.start + 1, Data(c, c.start + 1));
    BothCarried(c, s, f, g);
    steps, s := Further(c, leftover, row, steps, s, CarryFrame);
    steps, s := Further(c, leftover, row, steps, s, CarryFrame);
    BothTaken(c, s, f, g);
    steps, s := Further(c, leftover, row, steps, s, TakeFrame);
    steps, s := Further(c, leftover, row, steps, s, TakeFrame);
    Opened(c, c.start);
    Opened(c, c.start + 1);
  }

  lemma BothSent(c: Config, leftover: Bytes, row: Resume.Record) returns (steps: seq<Step>, s: State)
    requires WellFormed(c) && c.start + 1 < c.total
    ensures Reached(c, leftover, row, steps, s) && Resting(c, s, c.start + 2)
    ensures s.wire == [SealChunk(c, c.start, Data(c, c.start)), SealChunk(c, c.start + 1, Data(c, c.start + 1))]
  {
    steps, s := [], Init(c, leftover, row);
    steps, s := SendNext(c, leftover, row, steps, s, c.start);
    steps, s := SendNext(c, leftover, row, steps, s, c.start + 1);
    assert WireFrameIs(c, s.wire, 0) && WireFrameIs(c, s.wire, 1);
  }

  ghost predicate BothDecrypting(c: Config, s: State) {
    var i := c.start + 1;
    && i < c.total && s.receiver.decrypting.Keys == {c.start, i}
    && s.receiver.decrypting[i] == SealChunk(c, i, Data(c, i))
    && s.receiver.writing == map[] && s.receiver.hashing == map[] && s.receiver.finished == {}
    && s.receiver.phase == Receiving && s.acked == Skipped(c.start)
    && s.sender.phase == Selecting && s.sender.nextToAck == c.start && s.sender.bytesSent == c.offset
    && s.backWire == [] && s.replies == []
  }

  /** While at most one frame has become a task, an ack can only be that one's. */
  lemma OneTaskCounts(c: Config, r: Receiver, taken: nat, acked: seq<nat>, n: nat)
    requires TasksOk(r, taken, acked) && SkipOk(c.start, acked) && c.start <= n <= |acked| && taken <= c.start + 1
    ensures forall i: nat :: i < n ==> i in Members(acked)
  {
    forall i: nat | i < n ensures i in Members(acked) {
      assert i < c.start ==> i in Range(0, c.start);
      assert TaskPlace(i, r, taken, acked);
    }
  }

  lemma TakenFit(c: Config, plan: Plan, taken: nat, arrived: seq<Frame>, wire: seq<Frame>, next: nat, choked: bool,
                 phase: RecvPhase)
    requires IsPlan(c, plan) && ReaderOk(c, plan, taken, arrived, wire, choked, phase)
    requires WireOk(plan, taken, arrived, wire, next) && c.start + 1 < taken
    ensures c.start + 1 < c.total && ChunkFits(c, c.start) && ChunkFits(c, c.start + 1)
  {
    assert FitsAt(plan, c.start) && FitsAt(plan, c.start + 1);
    PlanFits(c, plan, c.start);
    PlanFits(c, plan, c.start + 1);
  }

  /** At most one frame of the session ever becomes a receiver's task. */
  predicate OneFrameOnly(c: Config) {
    c.total - c.start <= 1 || !ChunkFits(c, c.start) || !ChunkFits(c, c.start + 1)
  }

  lemma OneFramePrefix(c: Config, plan: Plan, s: State)
    requires IsPlan(c, plan) && Inv(c, plan, s) && OneFrameOnly(c)
    ensures CountIsPrefix(s)
  {
    if c.start + 1 < s.taken {
      TakenFit(c, plan, s.taken, s.arrived, s.wire, s.sender.buffer.next, s.choked, s.receiver.phase);
    } else {
      OneTaskCounts(c, s.receiver, s.taken, s.acked, s.sender.nextToAck);
    }
  }

  /** The chunks the sender counts are on disk in every reachable state exactly in the sessions that get
      at most one frame to the receiver's tasks: acks come in completion order and are only counted. */
  lemma CountIsPrefixExactlyWhenOneFrame(c: Config, leftover: Bytes, row: Resume.Record)
    requires WellFormed(c)
    ensures (forall steps, s :: Reached(c, leftover, row, steps, s) ==> CountIsPrefix(s)) <==> OneFrameOnly(c)
  {
    if OneFrameOnly(c) {
      forall steps, s | Reached(c, leftover, row, steps, s) ensures CountIsPrefix(s) {
        ReachedInv(c, leftover, row, steps, s);
        OneFramePrefix(c, PlanOf(c), s);
      }
    } else {
      var steps, s := CountOvertakes(c, leftover, row);
      assert !CountIsPrefix(s);
    }
  }
}
