/** Open files, and the loops of the transfer engine over them. */
module Files {
  import opened Basics
  import opened Tiling

  /** An open file with its cursor. */
  class FileHandle {
    var content: Bytes
    var position: nat

    constructor (content: Bytes)
      ensures this.content == content && position == 0
    {
      this.content, position := content, 0;
    }

    method Seek(offset: nat)
      modifies `position
      ensures position == offset
    {
      position := offset;
    }

    /** One read: any number of the next bytes up to the limit, none only at the end. */
    method Read(limit: nat) returns (data: Bytes)
      modifies `position
      ensures |data| <= limit && (data == [] <==> limit == 0 || old(position) >= |content|)
      ensures position == old(position) + |data|
      ensures data != [] ==> position <= |content| && data == content[old(position)..position]
    {
      if limit == 0 || position >= |content| {
        data := [];
      } else {
        var n: nat :| 1 <= n <= limit && position + n <= |content|;
        data := content[position..position + n];
        position := position + n;
      }
    }

    /** `read_exact`; None when the file ends first. */
    method ReadExact(n: nat) returns (data: Option<Bytes>)
      modifies `position
      ensures data == if n == 0 then Some([])
                      else if old(position) + n <= |content| then Some(content[old(position)..old(position) + n])
                      else None
    {
      var got: Bytes := [];
      while |got| < n
        invariant |got| <= n && position == old(position) + |got|
        invariant got != [] ==> position <= |content| && got == content[old(position)..position]
        decreases n - |got|
      {
        var more := Read(n - |got|);
        if more == [] { return None; }
        got := got + more;
      }
      data := Some(got);
    }

    /** Seek and write without truncation. */
    method WriteAllAt(offset: nat, data: Bytes)
      modifies this
      ensures content == WriteAt(old(content), offset, data)
    {
      content := WriteAt(content, offset, data);
      position := offset + |data|;
    }

    /** A write to a file opened for appending. */
    method Append(data: Bytes)
      modifies this
      ensures content == old(content) + data && position == |content|
    {
      content := content + data;
      position := |content|;
    }
  }

  /** `prepare_chunk`: None stands for the read error of a file that shrank. */
  method PrepareChunk(src: FileHandle, announced: nat, fileSize: nat, i: nat) returns (data: Option<Bytes>)
    modifies src`position
    ensures fileSize <= |src.content| ==>
              data == Some(Chunk(src.content[..fileSize], Clamp(announced), i))
    ensures data == None <==> var end := ChunkEnd(fileSize, Clamp(announced), i);
                              Offset(Clamp(announced), i) < end && |src.content| < end
    ensures data.Some? ==> |data.value| == ChunkLength(fileSize, Clamp(announced), i)
    ensures data.Some? && data.value != [] ==>
              data.value == src.content[Offset(Clamp(announced), i)..ChunkEnd(fileSize, Clamp(announced), i)]
  {
    var cs := Clamp(announced);
    var length := ChunkLength(fileSize, cs, i);
    if length == 0 { return Some([]); }
    src.Seek(Offset(cs, i));
    data := src.ReadExact(length);
    if fileSize <= |src.content| {
      var lo := Offset(cs, i);
      assert src.content[..fileSize][lo..lo + length] == src.content[lo..lo + length];
    }
  }

  method ReceiveChunk(dst: FileHandle, i: nat, cs: nat, data: Bytes)
    modifies dst
    ensures dst.content == ProcessReceivedChunk(old(dst.content), i, cs, data)
  {
    dst.WriteAllAt(i * cs, data);
  }

  /** Hashes from the cursor to the end in reads of at most `limit` bytes. */
  method HashRest(file: FileHandle, limit: nat, sofar: Bytes) returns (hashed: Bytes)
    requires limit > 0 && file.position <= |file.content|
    modifies file`position
    ensures hashed == sofar + file.content[old(file.position)..]
  {
    hashed := sofar;
    while true
      invariant old(file.position) <= file.position <= |file.content|
      invariant hashed == sofar + file.content[old(file.position)..file.position]
      decreases |file.content| - file.position
    {
      var data := file.Read(limit);
      if data == [] { break; }
      hashed := hashed + data;
    }
  }

  /** Hashes the first `n` bytes, or the whole file when it is shorter, from a fresh cursor. */
  method HashPrefix(file: FileHandle, limit: nat, n: nat) returns (hashed: Bytes)
    requires limit > 0 && file.position == 0
    modifies file`position
    ensures hashed == file.content[..Min(n, |file.content|)]
  {
    hashed := [];
    while |hashed| < n
      invariant file.position == |hashed| <= n && |hashed| <= |file.content|
      invariant hashed == file.content[..|hashed|]
      decreases n - |hashed|
    {
      var data := file.Read(Min(limit, n - |hashed|));
      if data == [] { break; }
      hashed := hashed + data;
    }
  }

  method VerifyChecksum(file: FileHandle, expected: Digest) returns (ok: bool)
    requires file.position == 0
    modifies file`position
    ensures ok <==> Digest(file.content) == expected
  {
    var hashed := HashRest(file, 65536, []);
    assert file.content[0..] == file.content;
    ok := Digest(hashed) == expected;
  }

  // ---- crashes and resumes ----

  /** A transfer that writes chunks in order and commits its progress after each one.  `written` counts
      the chunks on disk in this run, `committed` is the stored byte count. */
  datatype Transfer = Transfer(file: Bytes, written: nat, committed: nat)

  /** A crash loses the run; the next one starts at the chunk the stored count falls in.  A torn write
      puts only part of a chunk on disk before the crash. */
  datatype Event = WriteNext | Commit | Crash | TornWrite(n: nat)

  function Happen(src: Bytes, cs: nat, t: Transfer, e: Event): Transfer
    requires cs > 0
  {
    var more := t.written < TotalChunks(|src|, cs);
    match e
    case WriteNext =>
      if more then
        t.(file := ProcessReceivedChunk(t.file, t.written, cs, Chunk(src, cs, t.written)), written := t.written + 1)
      else t
    case Commit => t.(committed := Offset(cs, t.written))
    case Crash => t.(written := t.committed / cs)
    case TornWrite(n) =>
      var data := Chunk(src, cs, t.written);
      Transfer(if more then WriteAt(t.file, Offset(cs, t.written), data[..Min(n, |data|)]) else t.file,
               t.committed / cs, t.committed)
  }

  function Play(src: Bytes, cs: nat, start: Transfer, events: seq<Event>): Transfer
    requires cs > 0
  {
    if events == [] then start
    else Happen(src, cs, Play(src, cs, start, events[..|events| - 1]), events[|events| - 1])
  }

  /** `done` chunks are committed. */
  ghost predicate Consistent(src: Bytes, cs: nat, initial: nat, t: Transfer, done: nat)
    requires cs > 0
  {
    && done <= t.written <= TotalChunks(|src|, cs)
    && t.committed == Offset(cs, done)
    && initial <= |t.file| <= Max(initial, |src|)
    && Covered(t.file, src, cs, t.written)
  }

  lemma OffsetQuotient(cs: nat, k: nat)
    requires cs > 0
    ensures Offset(cs, k) / cs == k
  {
    DivModUnique(Offset(cs, k), cs, k, 0);
  }

  lemma ConsistentStep(src: Bytes, cs: nat, initial: nat, t: Transfer, done: nat, e: Event)
    requires cs > 0 && Consistent(src, cs, initial, t, done)
    ensures Consistent(src, cs, initial, Happen(src, cs, t, e), if e.Commit? then t.written else done)
  {
    OffsetQuotient(cs, done);
    if t.written < TotalChunks(|src|, cs) {
      match e
      case WriteNext => WriteTile(t.file, src, cs, t.written);
      case TornWrite(n) => WriteTorn(t.file, src, cs, t.written, Min(n, |Chunk(src, cs, t.written)|));
      case _ =>
    }
  }

  lemma {:induction false} CrashesConsistent(src: Bytes, cs: nat, leftover: Bytes, events: seq<Event>)
    returns (done: nat)
    requires cs > 0
    ensures Consistent(src, cs, |leftover|, Play(src, cs, Transfer(leftover, 0, 0), events), done)
  {
    if events == [] {
      done := 0;
      assert Offset(cs, 0) == 0;
    } else {
      var n := |events| - 1;
      var t := Play(src, cs, Transfer(leftover, 0, 0), events[..n]);
      done := CrashesConsistent(src, cs, leftover, events[..n]);
      ConsistentStep(src, cs, |leftover|, t, done, events[n]);
      if events[n].Commit? { done := t.written; }
    }
  }

  lemma CoveredBytes(file: Bytes, src: Bytes, cs: nat, k: nat)
    requires cs > 0 && Covered(file, src, cs, k)
    ensures AgreesBelow(file, src, Offset(cs, k))
  {
    forall b: nat | b < Offset(cs, k) && b < |src| ensures ByteAgrees(file, src, b) {
      ByteInChunk(|src|, cs, b);
      if b / cs >= k { OffsetMono(cs, k, b / cs); }
      assert HasTile(file, src, cs, b / cs);
    }
  }

  /** Every source byte below the count is on disk. */
  ghost predicate AgreesBelow(file: Bytes, src: Bytes, count: nat) {
    forall b: nat :: b < count && b < |src| ==> ByteAgrees(file, src, b)
  }

  ghost predicate ByteAgrees(file: Bytes, src: Bytes, b: nat) {
    b < |file| && b < |src| && file[b] == src[b]
  }

  /** Any number of crashes and resumes, wherever they fall between a chunk's write and its commit, or
      inside a write: every byte below the committed count agrees with the source, and a run that gets
      past the last chunk leaves the file equal to it exactly when the file was not longer to begin with. */
  lemma CrashesAreHarmless(src: Bytes, cs: nat, leftover: Bytes, events: seq<Event>)
    requires cs > 0
    ensures var t := Play(src, cs, Transfer(leftover, 0, 0), events);
            && AgreesBelow(t.file, src, t.committed)
            && (t.written == TotalChunks(|src|, cs) ==> (t.file == src <==> |leftover| <= |src|))
  {
    var t := Play(src, cs, Transfer(leftover, 0, 0), events);
    var done := CrashesConsistent(src, cs, leftover, events);
    CoveredBytes(t.file, src, cs, done);
    if t.written == TotalChunks(|src|, cs) && |leftover| <= |src| {
      CoveredFile(t.file, src, cs);
    }
  }

  // ---- runs that finish ----

  ghost predicate OnlyForward(events: seq<Event>) {
    forall k :: 0 <= k < |events| ==> events[k] == WriteNext || events[k] == Commit
  }

  function Writes(events: seq<Event>): nat {
    if events == [] then 0 else Writes(events[..|events| - 1]) + if events[|events| - 1] == WriteNext then 1 else 0
  }

  /** An undisturbed run writes one chunk an event, up to the last. */
  lemma {:induction false} ForwardRun(src: Bytes, cs: nat, t: Transfer, more: seq<Event>)
    requires cs > 0 && OnlyForward(more) && t.written <= TotalChunks(|src|, cs)
    ensures Play(src, cs, t, more).written == Min(t.written + Writes(more), TotalChunks(|src|, cs))
  {
    if more != [] {
      var n := |more| - 1;
      assert more[n] == WriteNext || more[n] == Commit;
      ForwardRun(src, cs, t, more[..n]);
    }
  }

  lemma {:induction false} ConsistentRun(src: Bytes, cs: nat, initial: nat, t: Transfer, done: nat, more: seq<Event>)
    returns (done': nat)
    requires cs > 0 && Consistent(src, cs, initial, t, done)
    ensures Consistent(src, cs, initial, Play(src, cs, t, more), done')
  {
    if more == [] {
      done' := done;
    } else {
      var n := |more| - 1;
      var u := Play(src, cs, t, more[..n]);
      done' := ConsistentRun(src, cs, initial, t, done, more[..n]);
      ConsistentStep(src, cs, initial, u, done', more[n]);
      if more[n].Commit? { done' := u.written; }
    }
  }

  lemma ConsistentEnd(src: Bytes, cs: nat, leftover: Bytes, u: Transfer, done: nat)
    requires cs > 0 && Consistent(src, cs, |leftover|, u, done) && u.written == TotalChunks(|src|, cs)
    ensures u.file == src <==> |leftover| <= |src|
  {
    if |leftover| <= |src| { CoveredFile(u.file, src, cs); }
  }

  /** The last run: after any crashes, writing the chunks that are left, with commits wherever they fall,
      gets past the last one, and the file is then the source exactly when it was not longer to begin
      with. */
  lemma LastRunFinishes(src: Bytes, cs: nat, leftover: Bytes, events: seq<Event>, more: seq<Event>)
    requires cs > 0 && OnlyForward(more)
    requires Writes(more) >= TotalChunks(|src|, cs) - Play(src, cs, Transfer(leftover, 0, 0), events).written
    ensures var u := Play(src, cs, Play(src, cs, Transfer(leftover, 0, 0), events), more);
            u.written == TotalChunks(|src|, cs) && (u.file == src <==> |leftover| <= |src|)
  {
    var t := Play(src, cs, Transfer(leftover, 0, 0), events);
    var done := CrashesConsistent(src, cs, leftover, events);
    LastRunFrom(src, cs, leftover, t, done, more);
  }

  lemma LastRunFrom(src: Bytes, cs: nat, leftover: Bytes, t: Transfer, done: nat, more: seq<Event>)
    requires cs > 0 && OnlyForward(more) && Consistent(src, cs, |leftover|, t, done)
    requires Writes(more) >= TotalChunks(|src|, cs) - t.written
    ensures var u := Play(src, cs, t, more);
            u.written == TotalChunks(|src|, cs) && (u.file == src <==> |leftover| <= |src|)
  {
    ForwardRun(src, cs, t, more);
    var done' := ConsistentRun(src, cs, |leftover|, t, done, more);
    ConsistentEnd(src, cs, leftover, Play(src, cs, t, more), done');
  }

  /** A commit is worth having: a crash right after it loses nothing, and a crash without one goes back
      exactly to the chunk last committed. */
  lemma CommitSurvives(src: Bytes, cs: nat, leftover: Bytes, events: seq<Event>, more: seq<Event>)
    requires cs > 0 && Commit !in more && (forall k :: 0 <= k < |more| ==> more[k] == WriteNext)
    ensures var t := Play(src, cs, Transfer(leftover, 0, 0), events);
            Happen(src, cs, Play(src, cs, Happen(src, cs, t, Commit), more), Crash).written == t.written
  {
    var t := Play(src, cs, Transfer(leftover, 0, 0), events);
    var done := CrashesConsistent(src, cs, leftover, events);
    OffsetQuotient(cs, t.written);
    CommittedStays(src, cs, Happen(src, cs, t, Commit), more);
  }

  lemma {:induction false} CommittedStays(src: Bytes, cs: nat, t: Transfer, more: seq<Event>)
    requires cs > 0 && forall k :: 0 <= k < |more| ==> more[k] == WriteNext
    ensures Play(src, cs, t, more).committed == t.committed
  {
    if more != [] { CommittedStays(src, cs, t, more[..|more| - 1]); }
  }

  /** A torn write leaves the first bytes of its chunk on disk and sends the run back to the committed one. */
  lemma TornWriteLeaves(src: Bytes, cs: nat, leftover: Bytes, events: seq<Event>, n: nat, b: nat)
    requires cs > 0
    requires var t := Play(src, cs, Transfer(leftover, 0, 0), events);
             t.written < TotalChunks(|src|, cs) && b < n && b < ChunkLength(|src|, cs, t.written)
    ensures var t := Play(src, cs, Transfer(leftover, 0, 0), events);
            ByteAgrees(Happen(src, cs, t, TornWrite(n)).file, src, Offset(cs, t.written) + b)
  {
    var t := Play(src, cs, Transfer(leftover, 0, 0), events);
    TornByte(t.file, src, cs, t.written, n, b);
  }

  lemma TornByte(file: Bytes, src: Bytes, cs: nat, i: nat, n: nat, b: nat)
    requires b < n && b < ChunkLength(|src|, cs, i)
    ensures var data := Chunk(src, cs, i);
            ByteAgrees(WriteAt(file, Offset(cs, i), data[..Min(n, |data|)]), src, Offset(cs, i) + b)
  {
    var off, data := Offset(cs, i), Chunk(src, cs, i);
    var torn := WriteAt(file, off, data[..Min(n, |data|)]);
    assert torn[off + b] == WrittenByte(file, off, data[..Min(n, |data|)], off + b);
  }
}
