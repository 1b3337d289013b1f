/**
 The command-line transfer as a step system: the producer and its encryption tasks, the bounded
 frame channel, the sender's select loop, the two wires, the receiver's tasks, its hashing thread,
 and the acknowledgements on their way back.  One step is one action of one task.
 */
module Pipeline {
  import opened Basics
  import opened Aead
  import opened Tiling
  import R = Reorder
  import Resume
  import Framing

  const WINDOW: nat := 32
  const ENCRYPT_TASKS: nat := 8
  const NET_CAPACITY: nat := 16
  const REPLY_CAPACITY: nat := 1024
  const CHUNK_CAPACITY: nat := 32
  /** Tag, chunk index, compression flag and authentication tag around the bytes of a chunk. */
  const FRAME_OVERHEAD: nat := 1 + 4 + 1 + TAG_LENGTH

  /** A chunk as it is encrypted: as read, or compressed.  Decompression undoes compression. */
  datatype Packed = Raw(data: Bytes) | Zstd(data: Bytes)

  /** `length` is that of the whole message. */
  datatype Frame = Frame(index: nat, compressed: bool, sealed: Sealed<Packed>, length: nat)

  datatype Reply = Ack(index: nat) | Complete(hash: Digest) | Error

  /** What stays fixed during a session: the source file and what the metadata announces about it, the
      stored byte count it resumes from and the chunk that makes it start at, the session key, and for
      each chunk the size it is compressed to, if it is. */
  datatype Config = Config(source: Bytes, chunkSize: nat, total: nat, checksum: Digest, offset: nat, start: nat,
                           key: Key, prefix: Bytes, shrink: seq<Option<nat>>)

  /** The chunk size is as announced; the sender's chunker works with the clamped one. */
  ghost predicate WellFormed(c: Config) {
    && MIN_CHUNK_SIZE <= c.chunkSize
    && |c.source| < U64_MODULUS
    && c.total == TotalChunks(|c.source|, Clamp(c.chunkSize)) <= U32_MODULUS
    && c.start < c.total
    && c.checksum == Digest(c.source)
    && |c.prefix| == PREFIX_LENGTH
    && |c.shrink| == c.total
  }

  /** The chunk at which both ends resume. */
  function StartChunk(total: nat, cs: nat, offset: nat): nat
    requires cs > 0
  {
    Min(offset / cs, Max(total - 1, 0))
  }

  /** Sender and receiver place every chunk at the same offset. */
  predicate OffsetsMatch(c: Config) {
    c.chunkSize <= MAX_CHUNK_SIZE || |c.source| <= MAX_CHUNK_SIZE
  }

  predicate Fits(f: Frame) {
    f.length <= Framing.MAX_PAYLOAD_SIZE
  }

  /** Every frame of the session is within the message limit. */
  ghost predicate Carries(c: Config) {
    forall i: nat :: c.start <= i < c.total ==> ChunkFits(c, i)
  }

  /** A session that can do well: it starts at chunk 0 and every frame is within the limit. */
  ghost predicate Transferable(c: Config) {
    c.start == 0 && Carries(c)
  }

  predicate ChunkFits(c: Config, i: nat) {
    Fits(SealChunk(c, i, Data(c, i)))
  }

  function Data(c: Config, i: nat): Bytes {
    Chunk(c.source, Clamp(c.chunkSize), i)
  }

  /** What an encryption task builds: the index is cut to 32 bits, the nonce uses all of it. */
  function SealChunk(c: Config, i: nat, data: Bytes): Frame {
    var small := i < |c.shrink| && c.shrink[i].Some?;
    Frame(i % U32_MODULUS, small,
          Encrypt(c.key, BuildNonce(c.prefix, i), if small then Zstd(data) else Raw(data)),
          FRAME_OVERHEAD + if small then c.shrink[i].value else |data|)
  }

  /** What a receiver task recovers, or None when decryption or decompression fails. */
  function OpenChunk(c: Config, f: Frame): Option<Bytes> {
    match Decrypt<Packed>(c.key, BuildNonce(c.prefix, f.index), f.sealed)
    case None => None
    case Some(Raw(data)) => if f.compressed then None else Some(data)
    case Some(Zstd(data)) => if f.compressed then Some(data) else None
  }

  // ---- acknowledged bytes ----

  /** What the sender adds to its byte count for the ack that follows k earlier ones. */
  function AckLength(size: nat, cs: nat, total: nat, k: nat): nat
    requires cs > 0
  {
    var actual := if k == total - 1 then size % cs else cs;
    if actual == 0 then cs else actual
  }

  // ---- state ----

  datatype Producer = Producer(next: nat, stopped: bool, encrypting: map<nat, Bytes>,
                               sending: map<nat, Frame>, encoded: set<nat>)

  datatype SendPhase = Selecting | Draining | Verifying | PausedOut | Succeeded | Failed

  datatype Sender = Sender(phase: SendPhase, buffer: R.Buffer<Frame>, nextToAck: nat,
                           bytesSent: int, record: Resume.Record)

  datatype RecvPhase = Receiving | AwaitingHash | Closed(valid: bool) | Broken

  datatype Receiver = Receiver(phase: RecvPhase, decrypting: map<nat, Frame>, writing: map<nat, Bytes>,
                               hashing: map<nat, Bytes>, finished: set<nat>, count: nat)

  datatype HashThread = HashThread(buffer: R.Buffer<Bytes>, hashed: Bytes)

  /** `choked` says that the receiver's reader has met a message over the limit and stopped; what it then
      puts on the channel comes after everything in `arrived`.  `taken` (the frames below it have been
      turned into tasks) and `acked` (indices in the order they were acknowledged) are history: no step
      reads them. */
  datatype State = State(producer: Producer, net: seq<(nat, Frame)>, sender: Sender, wire: seq<Frame>,
                         arrived: seq<Frame>, choked: bool, receiver: Receiver, file: Bytes,
                         hashQueue: seq<(nat, Bytes)>, hasher: HashThread, backWire: seq<Reply>,
                         replies: seq<Reply>, paused: bool, taken: nat, acked: seq<nat>)

  /** `set_len` on the output file: cut, or extend with zeros. */
  function SetLen(file: Bytes, n: nat): (r: Bytes)
    ensures |r| == n && forall k :: 0 <= k < n ==> r[k] == if k < |file| then file[k] else 0
  {
    if n <= |file| then file[..n] else file + Zeros(n - |file|)
  }

  /** The chunks a resumed session skips; the history counts them as acknowledged. */
  function Skipped(start: nat): (r: seq<nat>)
    ensures |r| == start
  {
    if start == 0 then [] else Skipped(start - 1) + [start - 1]
  }

  function Init(c: Config, leftover: Bytes, row: Resume.Record): State {
    State(Producer(c.start, false, map[], map[], {}), [],
          Sender(Selecting, R.Buffer(c.start, map[]), c.start, c.offset, row), [], [], false,
          Receiver(Receiving, map[], map[], map[], {}, c.start), SetLen(leftover, |c.source|),
          [], HashThread(R.Buffer(0, map[]), []), [], [], false, c.start, Skipped(c.start))
  }

  datatype Step =
    | PressPause
    | Spawn | StopProducer | JoinEncoder(i: nat)
    | EncryptChunk(i: nat) | OfferFrame(i: nat)
    | AcceptFrame | DrainOne | TakeReply
    | CarryFrame | Choke | TakeFrame | TakeError
    | DecryptChunk(i: nat) | WriteChunk(i: nat) | ReportHash(i: nat) | AckChunk(i: nat)
    | HashOne | Verdict | CarryReply

  function Tasks(p: Producer): nat {
    |p.encrypting| + |p.sending| + |p.encoded|
  }

  function InFlight(s: Sender): int {
    s.buffer.next - s.nextToAck
  }

  predicate Enabled(c: Config, s: State, step: Step) {
    var p, r := s.producer, s.receiver;
    match step
    case PressPause => !s.paused
    case Spawn => p.next < c.total && !p.stopped && Tasks(p) < ENCRYPT_TASKS && !s.paused
    case StopProducer => p.next < c.total && !p.stopped && Tasks(p) < ENCRYPT_TASKS && s.paused
    case JoinEncoder(i) => i in p.encoded && (Tasks(p) >= ENCRYPT_TASKS || p.next >= c.total || p.stopped)
    case EncryptChunk(i) => i in p.encrypting
    case OfferFrame(i) => i in p.sending && |s.net| < NET_CAPACITY
    case AcceptFrame => s.sender.phase == Selecting && InFlight(s.sender) < WINDOW && s.net != []
    case DrainOne => s.sender.phase == Draining
    case TakeReply => s.sender.phase in {Selecting, Verifying} && s.replies != []
    case CarryFrame => s.wire != [] && Fits(s.wire[0]) && |s.arrived| < CHUNK_CAPACITY
    case Choke => s.wire != [] && !Fits(s.wire[0]) && !s.choked && |s.arrived| < CHUNK_CAPACITY
    case TakeFrame => r.phase == Receiving && s.arrived != []
    case TakeError => r.phase == Receiving && s.arrived == [] && s.choked
    case DecryptChunk(i) => i in r.decrypting
    case WriteChunk(i) => i in r.writing
    case ReportHash(i) => i in r.hashing
    case AckChunk(i) => r.phase == Receiving && i in r.finished
    case HashOne => s.hashQueue != []
    case Verdict => r.phase == AwaitingHash && s.hashQueue == [] && |r.decrypting| + |r.writing| + |r.hashing| == 0
    case CarryReply => s.backWire != [] && |s.replies| < REPLY_CAPACITY
  }

  // ---- the sender's select loop ----

  function AfterTurn(paused: bool): SendPhase {
    if paused then PausedOut else Selecting
  }

  function Accept(s: Sender, index: nat, frame: Frame): Sender {
    s.(phase := Draining, buffer := R.Insert(s.buffer, index, frame))
  }

  /** One turn of the draining loop: the frame put on the wire, if the next one is there. */
  function DrainTurn(s: Sender, paused: bool): (r: (Sender, seq<Frame>))
  {
    if R.Ready(s.buffer) then
      (s.(buffer := R.Release(s.buffer)), [s.buffer.pending[s.buffer.next]])
    else
      (s.(phase := AfterTurn(paused)), [])
  }

  function GiveUp(s: Sender): Sender {
    s.(phase := Failed, record := Resume.MarkedFailed(s.record))
  }

  /** A reply taken inside the loop. */
  function OnReply(c: Config, s: Sender, reply: Reply, paused: bool): Sender
    requires c.chunkSize > 0
  {
    match reply
    case Ack(_) =>
      var sent := s.bytesSent + AckLength(|c.source|, c.chunkSize, c.total, s.nextToAck);
      s.(phase := if s.nextToAck + 1 == c.total && !paused then Verifying else AfterTurn(paused),
         nextToAck := s.nextToAck + 1, bytesSent := sent, record := Resume.Progressed(s.record, sent))
    case Complete(_) => GiveUp(s)
    case Error => GiveUp(s)
  }

  /** The reply taken once every chunk is acknowledged. */
  function OnVerdict(c: Config, s: Sender, reply: Reply): Sender {
    match reply
    case Complete(h) =>
      if h == c.checksum then s.(phase := Succeeded, record := Resume.CompletedWith(s.record, c.checksum))
      else GiveUp(s)
    case _ => GiveUp(s)
  }

  /** The receiver gives up and drops the connection, which the sender's reader reports after the acks
      before it. */
  function Break(s: State): State {
    s.(receiver := s.receiver.(phase := Broken), backWire := s.backWire + [Error])
  }

  function Apply(c: Config, s: State, step: Step): State
    requires c.chunkSize > 0 && Enabled(c, s, step)
  {
    var p, r := s.producer, s.receiver;
    match step
    case PressPause => s.(paused := true)
    case Spawn =>
      s.(producer := p.(next := p.next + 1, encrypting := p.encrypting[p.next := Data(c, p.next)]))
    case StopProducer => s.(producer := p.(stopped := true))
    case JoinEncoder(i) => s.(producer := p.(encoded := p.encoded - {i}))
    case EncryptChunk(i) =>
      s.(producer := p.(encrypting := p.encrypting - {i}, sending := p.sending[i := SealChunk(c, i, p.encrypting[i])]))
    case OfferFrame(i) =>
      s.(producer := p.(sending := p.sending - {i}, encoded := p.encoded + {i}), net := s.net + [(i, p.sending[i])])
    case AcceptFrame => s.(net := s.net[1..], sender := Accept(s.sender, s.net[0].0, s.net[0].1))
    case DrainOne =>
      var (sender, out) := DrainTurn(s.sender, s.paused);
      s.(sender := sender, wire := s.wire + out)
    case TakeReply =>
      s.(replies := s.replies[1..],
         sender := if s.sender.phase == Selecting then OnReply(c, s.sender, s.replies[0], s.paused)
                   else OnVerdict(c, s.sender, s.replies[0]))
    case CarryFrame => s.(wire := s.wire[1..], arrived := s.arrived + [s.wire[0]])
    case Choke => s.(choked := true)
    case TakeError => Break(s)
    case TakeFrame =>
      var f := s.arrived[0];
      s.(arrived := s.arrived[1..], taken := s.taken + 1,
         receiver := r.(decrypting := r.decrypting[f.index := f]))
    case DecryptChunk(i) =>
      (match OpenChunk(c, r.decrypting[i])
       case Some(data) =>
         s.(receiver := r.(decrypting := r.decrypting - {i}, writing := r.writing[i := data]))
       case None => Break(s.(receiver := r.(decrypting := r.decrypting - {i}))))
    case WriteChunk(i) =>
      s.(receiver := r.(writing := r.writing - {i}, hashing := r.hashing[i := r.writing[i]]),
         file := WriteAt(s.file, Offset(c.chunkSize, i), r.writing[i]))
    case ReportHash(i) =>
      s.(receiver := r.(hashing := r.hashing - {i}, finished := r.finished + {i}),
         hashQueue := s.hashQueue + [(i, r.hashing[i])])
    case AckChunk(i) =>
      s.(receiver := r.(phase := if r.count + 1 == c.total then AwaitingHash else Receiving,
                        finished := r.finished - {i}, count := r.count + 1),
         backWire := s.backWire + [Ack(i % U32_MODULUS)], acked := s.acked + [i])
    case HashOne =>
      var (b, out) := R.Push(s.hasher.buffer, s.hashQueue[0].0, s.hashQueue[0].1);
      s.(hashQueue := s.hashQueue[1..], hasher := HashThread(b, s.hasher.hashed + Flatten(out)))
    case Verdict =>
      var valid := s.hasher.buffer.next == c.total && Digest(s.hasher.hashed) == c.checksum;
      s.(receiver := r.(phase := Closed(valid)),
         backWire := s.backWire + [if valid then Complete(c.checksum) else Error])
    case CarryReply => s.(backWire := s.backWire[1..], replies := s.replies + [s.backWire[0]])
  }

  // ---- runs ----

  /** A run is a list of steps, each taken where it is enabled. */
  ghost predicate IsRun(c: Config, s: State, steps: seq<Step>)
    requires c.chunkSize > 0
    decreases |steps|
  {
    steps == [] || (Enabled(c, s, steps[0]) && IsRun(c, Apply(c, s, steps[0]), steps[1..]))
  }

  ghost function After(c: Config, s: State, steps: seq<Step>): State
    requires c.chunkSize > 0 && IsRun(c, s, steps)
    decreases |steps|
  {
    if steps == [] then s else After(c, Apply(c, s, steps[0]), steps[1..])
  }
}
