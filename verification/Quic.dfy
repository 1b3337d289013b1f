/**
 The QUIC path: a receiver that resumes by hashing an aligned prefix and appending, and a sender that
 hashes the whole file while it streams the rest.  Neither end compares hashes or sizes.
 */
module Quic {
  import opened Basics
  import opened Files

  const STREAM_CHUNK_SIZE: nat := 4 * 1024 * 1024
  const HASH_BUFFER: nat := 1024 * 1024

  /** Whether the receiver appends, and the offset it asks for. */
  function ResumeAt(existing: Option<Bytes>, force: bool): (bool, nat) {
    if force || existing == None then (false, 0)
    else (true, |existing.value| / STREAM_CHUNK_SIZE * STREAM_CHUNK_SIZE)
  }

  /** What a sender asked to start at `offset` puts on the stream. */
  function Sent(source: Bytes, offset: nat): Bytes {
    source[Min(offset, |source|)..]
  }

  /** The sender's reader task: the stream carries the file from the offset on, and the hash is the whole
      file's, however the reads fall and wherever the offset is. */
  method ReadFile(file: FileHandle, start: nat) returns (chunks: seq<Bytes>, hash: Digest)
    requires file.position == 0
    modifies file`position
    ensures Flatten(chunks) == Sent(file.content, start)
    ensures hash == Digest(file.content)
  {
    var size := |file.content|;
    var hashed := HashPrefix(file, STREAM_CHUNK_SIZE, start);
    file.Seek(start);
    chunks := [];
    while true
      invariant start <= file.position && (file.position <= size || chunks == [])
      invariant Flatten(chunks) == file.content[Min(start, size)..Min(file.position, size)]
      invariant hashed == file.content[..Min(file.position, size)]
      decreases size - file.position
    {
      var chunk := file.Read(STREAM_CHUNK_SIZE);
      if chunk == [] { break; }
      hashed := hashed + chunk;
      FlattenSnoc(chunks, chunk);
      chunks := chunks + [chunk];
    }
    hash := Digest(hashed);
  }

  /** The receive loop: whatever pieces the stream arrives in go to the writer in order.  A cancel that is
      seen before turn `cancelAt` ends it with only a prefix passed on. */
  method ReceiveStream(stream: FileHandle, cancelAt: Option<nat>) returns (chunks: seq<Bytes>, cancelled: bool)
    requires stream.position == 0
    modifies stream`position
    ensures Flatten(chunks) <= stream.content && (!cancelled ==> Flatten(chunks) == stream.content)
    ensures cancelled ==> cancelAt == Some(|chunks|)
    ensures !cancelled && cancelAt.Some? ==> |chunks| < cancelAt.value
  {
    chunks := [];
    while true
      invariant stream.position <= |stream.content|
      invariant Flatten(chunks) == stream.content[..stream.position]
      invariant cancelAt.Some? ==> |chunks| <= cancelAt.value
      decreases |stream.content| - stream.position
    {
      if cancelAt == Some(|chunks|) { return chunks, true; }
      var chunk := stream.Read(STREAM_CHUNK_SIZE);
      if chunk == [] { return chunks, false; }
      FlattenSnoc(chunks, chunk);
      chunks := chunks + [chunk];
    }
  }

  /** The writer task on the file it appends to, or on a new empty one when it does not resume. */
  method WriteStream(disk: FileHandle, isResume: bool, resumeOffset: nat, chunks: seq<Bytes>)
    returns (reported: Digest)
    requires disk.position == 0 && resumeOffset <= |disk.content|
    requires !isResume ==> disk.content == [] && resumeOffset == 0
    modifies disk
    ensures disk.content == old(disk.content) + Flatten(chunks)
    ensures reported == Digest(old(disk.content)[..resumeOffset] + Flatten(chunks))
  {
    var hashed: Bytes := [];
    if isResume { hashed := HashPrefix(disk, HASH_BUFFER, resumeOffset); }
    ghost var prefix := hashed;
    var i := 0;
    while i < |chunks|
      invariant 0 <= i <= |chunks|
      invariant hashed == prefix + Flatten(chunks[..i])
      invariant disk.content == old(disk.content) + Flatten(chunks[..i])
    {
      FlattenSnoc(chunks[..i], chunks[i]);
      assert chunks[..i + 1] == chunks[..i] + [chunks[i]];
      hashed := hashed + chunks[i];
      disk.Append(chunks[i]);
      i := i + 1;
    }
    assert chunks[..i] == chunks;
    reported := Digest(hashed);
  }

  /** What an undisturbed transfer leaves on disk and what its receiver reports. */
  datatype Outcome = Outcome(disk: Bytes, reported: Digest, sender: Digest)

  function Transfer(source: Bytes, existing: Option<Bytes>, force: bool): Outcome {
    var (isResume, offset) := ResumeAt(existing, force);
    var base := if isResume then existing.value else [];
    Outcome(base + Sent(source, offset), Digest(base[..offset] + Sent(source, offset)), Digest(source))
  }

  /** Both ends together: the outcome does not depend on how reads and stream are fragmented. */
  method RunTransfer(source: FileHandle, existing: Option<Bytes>, force: bool) returns (outcome: Outcome)
    requires source.position == 0
    modifies source`position
    ensures outcome == Transfer(source.content, existing, force)
  {
    var (isResume, offset) := ResumeAt(existing, force);
    var disk := new FileHandle(if isResume then existing.value else []);
    var sent, senderHash := ReadFile(source, offset);
    var stream := new FileHandle(Flatten(sent));
    var chunks, cancelled := ReceiveStream(stream, None);
    var reported := WriteStream(disk, isResume, offset, chunks);
    outcome := Outcome(disk.content, reported, senderHash);
  }

  predicate Aligned(existing: Option<Bytes>, force: bool) {
    force || existing == None || |existing.value| % STREAM_CHUNK_SIZE == 0
  }

  /** The part the receiver keeps is the source's. */
  predicate KeepsSource(source: Bytes, existing: Option<Bytes>, force: bool) {
    var offset := ResumeAt(existing, force).1;
    offset == 0 || (offset <= |source| && existing.value[..offset] == source[..offset])
  }

  /** The reported hash is that of the file on disk exactly when nothing is appended to an unaligned
      file; it is the sender's exactly when the kept prefix is the source's; and the file is the source
      exactly when both hold.  So an unaligned prefix of the source ends with equal hashes at both ends
      and a wrong file. */
  lemma HashAgreement(source: Bytes, existing: Option<Bytes>, force: bool)
    ensures var o := Transfer(source, existing, force);
            && (o.reported == Digest(o.disk) <==> Aligned(existing, force))
            && (o.reported == o.sender <==> KeepsSource(source, existing, force))
            && (o.disk == source <==> Aligned(existing, force) && KeepsSource(source, existing, force))
  {
  }
}
