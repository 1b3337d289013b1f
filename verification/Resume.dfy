/** The transfer table of the resume manager: one row per transfer, each statement atomic. */
module Resume {
  import opened Basics

  datatype Status = Pending | InProgress | Paused | Completed | Failed

  datatype Record = Record(peer: string, path: string, fileSize: int, transferred: int,
                           checksum: Option<Digest>, status: Status)

  type Table = map<string, Record>

  function Created(peer: string, path: string, fileSize: int): Record {
    Record(peer, path, fileSize, 0, None, Pending)
  }

  function Progressed(r: Record, bytes: int): Record {
    r.(transferred := bytes, status := InProgress)
  }

  function CompletedWith(r: Record, checksum: Digest): Record {
    r.(transferred := r.fileSize, checksum := Some(checksum), status := Completed)
  }

  function MarkedFailed(r: Record): Record {
    r.(status := Failed)
  }

  // ---- the stored text of a status ----

  function StatusText(s: Status): string {
    match s
    case Pending => "pending"
    case InProgress => "in_progress"
    case Paused => "paused"
    case Completed => "completed"
    case Failed => "failed"
  }

  function ParseStatus(text: string): Option<Status> {
    if text == "pending" then Some(Pending)
    else if text == "in_progress" then Some(InProgress)
    else if text == "paused" then Some(Paused)
    else if text == "completed" then Some(Completed)
    else if text == "failed" then Some(Failed)
    else None
  }

  /** Every status reads back as itself, and a text that reads as a status is that status's own. */
  lemma StatusRoundTrip(s: Status, text: string)
    ensures ParseStatus(StatusText(s)) == Some(s)
    ensures ParseStatus(text) == Some(s) <==> text == StatusText(s)
  {
    assert |StatusText(Pending)| == 7 && |StatusText(InProgress)| == 11 && |StatusText(Paused)| == 6;
    assert |StatusText(Completed)| == 9 && |StatusText(Failed)| == 6 && "paused"[0] != "failed"[0];
  }

  /** A row as it is stored. */
  datatype Row = Row(peer: string, path: string, fileSize: int, transferred: int, checksum: Option<Digest>, status: string)

  /** What a query makes of a row; a text that is no status counts as failed. */
  function ReadRow(r: Row): Record {
    var status := match ParseStatus(r.status) case Some(s) => s case None => Failed;
    Record(r.peer, r.path, r.fileSize, r.transferred, r.checksum, status)
  }

  class TransferResumeManager {
    var rows: map<string, Row>

    constructor ()
      ensures View() == map[]
    {
      rows := map[];
    }

    /** The table as queries see it. */
    ghost function View(): Table
      reads this
    {
      map id | id in rows :: ReadRow(rows[id])
    }

    /** An UPDATE whose WHERE clause selects by id changes that row or none. */
    method Update(id: string, row: Row)
      modifies this
      ensures View() == if id in old(View()) then old(View())[id := ReadRow(row)] else old(View())
    {
      if id in rows { rows := rows[id := row]; }
    }

    /** `id` is the freshly generated identifier; the primary key rejects a repeated one. */
    method CreateTransfer(id: string, peer: string, path: string, fileSize: int) returns (ok: bool)
      modifies this
      ensures ok <==> id !in old(View())
      ensures View() == if ok then old(View())[id := Created(peer, path, fileSize)] else old(View())
      ensures ok ==> View()[id] == Record(peer, path, fileSize, 0, None, Pending)
    {
      ok := id !in rows;
      StatusRoundTrip(Pending, "pending");
      if ok { rows := rows[id := Row(peer, path, fileSize, 0, None, "pending")]; }
    }

    method UpdateProgress(id: string, bytes: int)
      modifies this
      ensures View() == if id in old(View()) then old(View())[id := Progressed(old(View())[id], bytes)] else old(View())
      ensures id in old(View()) ==> View()[id] == old(View())[id].(transferred := bytes, status := InProgress)
    {
      StatusRoundTrip(InProgress, "in_progress");
      if id in rows { Update(id, rows[id].(transferred := bytes, status := "in_progress")); }
    }

    method CompleteTransfer(id: string, checksum: Digest)
      modifies this
      ensures View() == if id in old(View()) then old(View())[id := CompletedWith(old(View())[id], checksum)] else old(View())
      ensures id in old(View()) ==> var was := old(View())[id];
                View()[id] == was.(transferred := was.fileSize, checksum := Some(checksum), status := Completed)
    {
      StatusRoundTrip(Completed, "completed");
      var fileSize := if id in rows then rows[id].fileSize else 0;
      if id in rows {
        Update(id, rows[id].(transferred := fileSize, checksum := Some(checksum), status := "completed"));
      }
    }

    method FailTransfer(id: string)
      modifies this
      ensures View() == if id in old(View()) then old(View())[id := MarkedFailed(old(View())[id])] else old(View())
      ensures id in old(View()) ==> View()[id] == old(View())[id].(status := Failed)
    {
      StatusRoundTrip(Failed, "failed");
      if id in rows { Update(id, rows[id].(status := "failed")); }
    }

    /** A row whose status text is none of the five is returned as failed. */
    method GetTransfer(id: string) returns (row: Option<Record>)
      ensures row.Some? <==> id in View()
      ensures row.Some? ==> row.value == View()[id]
      ensures row.Some? ==> forall s :: row.value.status == s && s != Failed ==> rows[id].status == StatusText(s)
    {
      if id !in rows { return None; }
      var stored := rows[id];
      var status := ParseStatus(stored.status);
      forall s ensures ParseStatus(stored.status) == Some(s) ==> stored.status == StatusText(s) {
        StatusRoundTrip(s, stored.status);
      }
      var shown := if status.Some? then status.value else Failed;
      row := Some(Record(stored.peer, stored.path, stored.fileSize, stored.transferred, stored.checksum, shown));
    }
  }
}
