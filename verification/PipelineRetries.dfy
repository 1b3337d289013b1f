/** Sessions one after another: what the stored row makes the next command do, and how it comes out. */
module PipelineRetries {
  import opened Basics
  import opened Tiling
  import Resume
  import opened Pipeline
  import opened PipelineInvariant
  import opened PipelineTheorems

  /** The rows a send command looks for before it starts afresh. */
  predicate Resumable(row: Resume.Record) {
    row.status != Resume.Completed && row.status != Resume.Failed
  }

  /** `next` is a session for the same file and chunk size, with the row it works on, begun when `row` is
      what the table holds of the transfer. */
  predicate Follows(c: Config, row: Resume.Record, next: Config, nextRow: Resume.Record)
    requires next.chunkSize > 0
  {
    && next.source == c.source && next.chunkSize == c.chunkSize && next.total == c.total
    && next.start == StartChunk(next.total, next.chunkSize, next.offset)
    && if Resumable(row) then nextRow == row && next.offset == Max(row.transferred, 0)
       else nextRow == Resume.Created(row.peer, row.path, |c.source|) && next.offset == 0
  }

  /** A session nobody pauses, run until nothing can happen any more. */
  ghost predicate Undisturbed(c: Config, leftover: Bytes, row: Resume.Record, steps: seq<Step>, s: State) {
    Reached(c, leftover, row, steps, s) && PressPause !in steps && Stuck(c, s)
  }

  lemma StartsAtZero(total: nat, cs: nat, offset: nat)
    requires cs > 0 && total > 0
    ensures StartChunk(total, cs, offset) == 0 <==> offset < cs || total == 1
  {
    if offset < cs { DivModUnique(offset, cs, 0, offset); }
    if offset >= cs { assert offset / cs >= 1 by { AtLeastOne(offset, cs); } }
  }

  lemma AtLeastOne(offset: nat, cs: nat)
    requires 0 < cs <= offset
    ensures offset / cs >= 1
  {
    var q, r := offset / cs, offset % cs;
    assert offset == q * cs + r;
    assert q == 0 ==> q * cs == 0;
  }

  /** Whatever the table held and whatever was on disk: an undisturbed session settles its row, so the next
      one starts afresh, and of two undisturbed sessions the second succeeds whenever its frames fit. */
  lemma TwoSessionsSuffice(c: Config, leftover: Bytes, row: Resume.Record, steps: seq<Step>, s: State,
                           d: Config, leftover': Bytes, row': Resume.Record, steps': seq<Step>, t: State)
    requires Undisturbed(c, leftover, row, steps, s)
    requires Undisturbed(d, leftover', row', steps', t) && Follows(c, s.sender.record, d, row')
    ensures s.sender.phase == if Transferable(c) then Succeeded else Failed
    ensures t.sender.phase == if Carries(d) then Succeeded else Failed
    ensures Carries(d) ==> t.sender.record.status == Resume.Completed && (t.file == c.source <==> OffsetsMatch(c))
  {
    TransferSucceeds(c, leftover, row, steps, s);
    StartsAtZero(d.total, d.chunkSize, 0);
    TransferSucceeds(d, leftover', row', steps', t);
  }

  // ---- after a session that was paused, or cut off at any moment ----

  lemma OpenRowStep(c: Config, s: State, step: Step)
    requires c.chunkSize > 0 && Enabled(c, s, step) && !Judged(Apply(c, s, step).sender.phase)
    ensures !Judged(s.sender.phase) && (Resumable(s.sender.record) ==> Resumable(Apply(c, s, step).sender.record))
  {
    if !OfSender(step) { OthersKeepSender(c, s, step); }
  }

  /** The row stays resumable until the sender has the receiver's last word. */
  lemma {:induction false} RowStaysOpen(c: Config, s: State, steps: seq<Step>)
    requires c.chunkSize > 0 && IsRun(c, s, steps) && !Judged(After(c, s, steps).sender.phase)
    requires Resumable(s.sender.record)
    ensures !Judged(s.sender.phase) && Resumable(After(c, s, steps).sender.record)
    decreases |steps|
  {
    if steps != [] {
      var t := Apply(c, s, steps[0]);
      if Judged(t.sender.phase) {
        JudgedStays(c, t, steps[1..]);
      } else {
        OpenRowStep(c, s, steps[0]);
        RowStaysOpen(c, t, steps[1..]);
      }
    }
  }

  lemma {:induction false} JudgedStays(c: Config, s: State, steps: seq<Step>)
    requires c.chunkSize > 0 && IsRun(c, s, steps) && Judged(s.sender.phase)
    ensures Judged(After(c, s, steps).sender.phase)
    decreases |steps|
  {
    if steps != [] { JudgedStays(c, Apply(c, s, steps[0]), steps[1..]); }
  }

  /** Bytes stored after some acks are less than a chunk only when there were none, or one chunk in all. */
  lemma StoredIsAChunk(c: Config, s: State)
    requires WellFormed(c) && c.start == 0 && c.offset == 0 && Numbers(c, s.sender) && s.sender.phase != Succeeded
    requires s.sender.bytesSent == Acknowledged(c, s.sender.nextToAck)
    ensures s.sender.record.transferred >= 0
    ensures s.sender.record.transferred < c.chunkSize || c.total == 1 <==> s.sender.nextToAck == 0 || c.total == 1
  {
    var cs, n := c.chunkSize, s.sender.nextToAck;
    AcknowledgedBytes(c, n);
    assert Offset(cs, 0) == 0 && Offset(cs, 1) == cs;
    if n > 0 { OffsetMono(cs, 0, n - 1); }
    if n > 1 { OffsetMono(cs, 1, n - 1); }
    if 0 < n < c.total { OffsetMono(cs, 1, n); }
  }

  /** A fresh session that is left at any moment before the receiver's last word reached the sender, by
      Ctrl-C or by a crash, leaves a row from which the next command starts at chunk 0 exactly when no ack
      had been counted, or the file is one chunk. */
  lemma LeftSessionResumes(c: Config, leftover: Bytes, peer: string, path: string, steps: seq<Step>, s: State,
                           d: Config, row': Resume.Record)
    requires Reached(c, leftover, Resume.Created(peer, path, |c.source|), steps, s) && !Judged(s.sender.phase)
    requires c.start == 0 && c.offset == 0 && WellFormed(d) && Follows(c, s.sender.record, d, row')
    ensures row' == s.sender.record
    ensures d.start == 0 <==> s.sender.nextToAck == 0 || c.total == 1
  {
    var row := Resume.Created(peer, path, |c.source|);
    RowStaysOpen(c, Init(c, leftover, row), steps);
    RowOfRun(c, leftover, row, steps, s);
    ReachedInv(c, leftover, row, steps, s);
    StoredIsAChunk(c, s);
    StartsAtZero(d.total, d.chunkSize, d.offset);
  }

  /** And so the next session, undisturbed, succeeds exactly when that is so and its frames fit; otherwise
      its row is marked failed, and the one after it starts afresh and succeeds when its frames fit. */
  lemma RetriesAfterPause(c: Config, leftover: Bytes, peer: string, path: string, steps: seq<Step>, s: State,
                          d: Config, leftover': Bytes, row': Resume.Record, steps': seq<Step>, t: State,
                          e: Config, leftover'': Bytes, row'': Resume.Record, steps'': seq<Step>, u: State)
    requires Reached(c, leftover, Resume.Created(peer, path, |c.source|), steps, s) && !Judged(s.sender.phase)
    requires c.start == 0 && c.offset == 0
    requires Undisturbed(d, leftover', row', steps', t) && Follows(c, s.sender.record, d, row')
    requires Undisturbed(e, leftover'', row'', steps'', u) && Follows(d, t.sender.record, e, row'')
    ensures var resumesWell := (s.sender.nextToAck == 0 || c.total == 1) && Carries(d);
            && t.sender.phase == (if resumesWell then Succeeded else Failed)
            && (!resumesWell ==> t.sender.record.status == Resume.Failed)
    ensures u.sender.phase == if Carries(e) then Succeeded else Failed
    ensures Carries(e) ==> (u.file == c.source <==> OffsetsMatch(c))
  {
    LeftSessionResumes(c, leftover, peer, path, steps, s, d, row');
    TransferSucceeds(d, leftover', row', steps', t);
    TwoSessionsSuffice(d, leftover', row', steps', t, e, leftover'', row'', steps'', u);
  }
}
