/** Chunked file transfer, both directions, both ends. Reads may be short, and every read, write, send and
    receive may fail. */
module Transfer {
  import opened Wrappers
  import opened Jobs
  import opened History
  import L = OutputLog
  import M = Manager

  type Bytes = seq<L.byte>

  const DEFAULT_CHUNK_SIZE: nat := 32 * 1024

  const UPLOAD_BUFFER: nat := 32 * 1024

  // ---------------------------------------------------------------- files and streams

  datatype ReadStatus = More | AtEnd | ReadError

  /** A file that does not change while it is read. */
  class Reader {
    const content: Bytes
    var position: nat
    var failed: bool

    constructor (content: Bytes)
      ensures this.content == content && position == 0 && !failed
    {
      this.content, position, failed := content, 0, false;
    }

    /** Any number of the bytes that come next, at least one before the end is reached; the end may be
        reported with the last bytes or on its own. */
    method Read(size: nat) returns (data: Bytes, status: ReadStatus)
      requires position <= |content| && size > 0
      modifies this
      ensures old(position) <= position <= |content|
      ensures data == content[old(position)..position] && |data| <= size
      ensures status == More ==> data != []
      ensures status == AtEnd ==> position == |content|
      ensures failed == (old(failed) || status == ReadError)
    {
      assert position < |content| ==> 1 <= size && position + 1 <= |content|;
      var n: nat :| n <= size && position + n <= |content| && (n > 0 || position == |content|);
      data := content[position..position + n];
      position := position + n;
      if * {
        status, failed := ReadError, true;
      } else if position == |content| && n == 0 {
        status := AtEnd;
      } else if position == |content| {
        if * { status := AtEnd; } else { status := More; }
      } else {
        status := More;
      }
    }
  }

  /** The sending side of a message stream. */
  class Stream<T> {
    var sent: seq<T>
    var failed: bool

    constructor ()
      ensures sent == [] && !failed
    {
      sent, failed := [], false;
    }

    method Send(message: T) returns (ok: bool)
      modifies this
      ensures sent == if ok then old(sent) + [message] else old(sent)
      ensures failed == (old(failed) || !ok)
    {
      if * {
        failed := true;
        return false;
      }
      sent := sent + [message];
      return true;
    }
  }

  /** A file being written; `None` when there is no such file. */
  class Writer {
    const writable: bool
    var content: Option<Bytes>
    var failed: bool

    constructor (content: Option<Bytes>, writable: bool)
      ensures this.content == content && this.writable == writable && !failed
    {
      this.content, this.writable, failed := content, writable, false;
    }

    /** Creates or truncates the file if it can be written, or refuses to when it must not exist yet but does. */
    method Open(exclusive: bool) returns (ok: bool)
      modifies this
      ensures ok <==> writable && !(exclusive && old(content).Some?)
      ensures ok ==> content == Some([])
      ensures !ok ==> content == old(content)
      ensures failed == (old(failed) || !ok)
    {
      if exclusive && content.Some? {
        failed := true;
        return false;
      }
      if !writable {
        failed := true;
        return false;
      }
      content := Some([]);
      return true;
    }

    method Write(data: Bytes) returns (ok: bool)
      requires content.Some?
      modifies this
      ensures content.Some?
      ensures ok ==> content == Some(old(content).value + data)
      ensures failed == (old(failed) || !ok)
    {
      var n: nat :| n <= |data|;
      content := Some(content.value + data[..n]);
      ok := n == |data|;
      if ok {
        assert data[..n] == data;
      } else {
        failed := true;
      }
    }
  }

  // ---------------------------------------------------------------- the transfer's row

  ghost predicate Transferring(w: World, owner: string, id: string, kind: Kind, progress: int, total: Option<int>) {
    id in w.db.jobs && var row := w.db.jobs[id];
    && row.owner == owner && row.kind == kind && row.state == Running && row.progress == progress && row.total == total
  }

  /** The row of a transfer that is over: canceled when the peer went away in the middle, exited otherwise,
      also after a local failure; without an error exactly if everything was transferred. */
  ghost predicate Ended(w: World, owner: string, id: string, kind: Kind, canceled: bool, complete: bool,
                        progress: int, total: Option<int>) {
    id in w.db.jobs && var row := w.db.jobs[id];
    && row.owner == owner && row.kind == kind && row.state == (if canceled then Canceled else Exited)
    && row.progress == progress && row.total == total && row.exitCode == None && (row.error == "" <==> complete)
  }

  lemma TransferStarted(w: World, owner: string, id: string, kind: Kind, at: int, total: Option<int>)
    requires owner != "" && id !in w.db.jobs
    ensures Transferring(Step(w, StartTransfer(owner, id, kind, at, total)), owner, id, kind, 0, total)
  {
  }

  lemma TransferProgressed(w: World, owner: string, id: string, kind: Kind, before: int, bytes: int,
                           total: Option<int>)
    requires Transferring(w, owner, id, kind, before, total)
    ensures Transferring(Step(w, Progress(id, bytes, total)), owner, id, kind, bytes, total)
  {
  }

  lemma TransferEnded(w: World, owner: string, id: string, kind: Kind, at: int, canceled: bool, message: string,
                      progress: int, total: Option<int>)
    requires Transferring(w, owner, id, kind, progress, total)
    ensures Ended(Step(w, CompleteTransfer(owner, id, at, canceled, message)), owner, id, kind, canceled,
                  message == "", progress, total)
  {
  }

  // ---------------------------------------------------------------- download, server side

  datatype FileChunk = FileChunk(data: Bytes, offset: nat, eof: bool, transferId: string)

  function DataOf(frames: seq<FileChunk>): Bytes {
    if frames == [] then [] else DataOf(frames[..|frames| - 1]) + frames[|frames| - 1].data
  }

  /** Data frames that carry exactly `content[..n]`, in pieces that abut and fit the chunk size. */
  ghost predicate SentSoFar(frames: seq<FileChunk>, content: Bytes, n: nat, id: string, chunkSize: nat) {
    && n <= |content| && DataOf(frames) == content[..n]
    && (forall i :: 0 <= i < |frames| ==>
          && !frames[i].eof && frames[i].transferId == id
          && 0 < |frames[i].data| <= chunkSize
          && frames[i].offset == |DataOf(frames[..i])|)
  }

  /** A whole download: the data frames for all of the content, then one end frame at its length. */
  ghost predicate IsDownload(frames: seq<FileChunk>, content: Bytes, id: string, chunkSize: nat) {
    && |frames| > 0
    && SentSoFar(frames[..|frames| - 1], content, |content|, id, chunkSize)
    && frames[|frames| - 1] == FileChunk([], |content|, true, id)
  }

  lemma SendOne(frames: seq<FileChunk>, content: Bytes, n: nat, id: string, chunkSize: nat, data: Bytes)
    requires SentSoFar(frames, content, n, id, chunkSize)
    requires 0 < |data| <= chunkSize && n + |data| <= |content| && data == content[n..n + |data|]
    ensures SentSoFar(frames + [FileChunk(data, n, false, id)], content, n + |data|, id, chunkSize)
  {
    var more := frames + [FileChunk(data, n, false, id)];
    assert more[..|frames|] == frames;
    forall i | 0 <= i < |more| ensures more[i].offset == |DataOf(more[..i])| {
      if i < |frames| {
        assert more[..i] == frames[..i];
      }
    }
  }

  datatype Outcome =
    | Done
    | BadPath        // empty, or a directory
    | NoSuchFile
    | StatFailed
    | Refused        // no transfer was started
    | OpenFailed
    | SendFailed     // a data frame could not be sent
    | EndLost        // everything was sent but the end frame
    | ReadFailed
    | WriteFailed
    | ReceiveFailed

  /** The outcomes of transfers that were started. */
  const STARTED := {Done, OpenFailed, SendFailed, EndLost, ReadFailed, WriteFailed, ReceiveFailed}

  function ChunkSize(requested: nat): nat {
    if requested == 0 then DEFAULT_CHUNK_SIZE else requested
  }

  method BeginTransfer(m: M.Manager, owner: string, id: string, kind: Kind, at: int, total: Option<int>)
    returns (ok: bool)
    requires m.Valid() && id !in m.store.jobs
    modifies m, m.store
    ensures m.Valid() && ok == (owner != "")
    ensures ok ==> Transferring(m.WorldOf(), owner, id, kind, 0, total)
    ensures !ok ==> m.WorldOf() == old(m.WorldOf())
  {
    if owner != "" {
      TransferStarted(m.WorldOf(), owner, id, kind, at, total);
    }
    var refusal := m.StartTransfer(owner, id, kind, at, total);
    ok := refusal.None?;
  }

  method RecordProgress(m: M.Manager, ghost owner: string, id: string, ghost kind: Kind, ghost before: int, bytes: int,
                        total: Option<int>)
    requires m.Valid() && Transferring(m.WorldOf(), owner, id, kind, before, total)
    modifies m.store
    ensures m.Valid() && Transferring(m.WorldOf(), owner, id, kind, bytes, total)
  {
    TransferProgressed(m.WorldOf(), owner, id, kind, before, bytes, total);
    var _ := m.UpdateTransferProgress(id, bytes, total);
  }

  /** Ends the transfer, with nothing in between: the row is running and the caller's, so it cannot fail. */
  method EndTransfer(m: M.Manager, owner: string, id: string, at: int, canceled: bool, message: string,
                     ghost kind: Kind, ghost progress: int, ghost total: Option<int>)
    requires m.Valid() && Transferring(m.WorldOf(), owner, id, kind, progress, total)
    modifies m.store
    ensures m.Valid() && Ended(m.WorldOf(), owner, id, kind, canceled, message == "", progress, total)
  {
    TransferEnded(m.WorldOf(), owner, id, kind, at, canceled, message, progress, total);
    var refusal := m.CompleteTransfer(owner, id, at, canceled, message);
    assert refusal.None?;
  }

  /** Passes one piece on and records the progress. */
  method ForwardPiece(m: M.Manager, owner: string, id: string, stream: Stream<FileChunk>, content: Bytes,
                      offset: nat, data: Bytes, ghost chunkSize: nat) returns (ok: bool)
    requires m.Valid() && Transferring(m.WorldOf(), owner, id, Kind.Download, offset, Some(|content|))
    requires SentSoFar(stream.sent, content, offset, id, chunkSize)
    requires 0 < |data| <= chunkSize && offset + |data| <= |content| && data == content[offset..offset + |data|]
    modifies m.store, stream
    ensures m.Valid() && stream.failed == (old(stream.failed) || !ok)
    ensures ok ==> SentSoFar(stream.sent, content, offset + |data|, id, chunkSize)
                   && Transferring(m.WorldOf(), owner, id, Kind.Download, offset + |data|, Some(|content|))
    ensures !ok ==> SentSoFar(stream.sent, content, offset, id, chunkSize)
                    && Transferring(m.WorldOf(), owner, id, Kind.Download, offset, Some(|content|))
  {
    ok := stream.Send(FileChunk(data, offset, false, id));
    if ok {
      SendOne(old(stream.sent), content, offset, id, chunkSize, data);
      RecordProgress(m, owner, id, Kind.Download, offset, offset + |data|, Some(|content|));
    }
  }

  method SendPieces(m: M.Manager, owner: string, id: string, file: Reader, stream: Stream<FileChunk>, chunkSize: nat)
    returns (outcome: Outcome, offset: nat)
    requires m.Valid() && Transferring(m.WorldOf(), owner, id, Kind.Download, 0, Some(|file.content|))
    requires file.position == 0 && stream.sent == [] && chunkSize > 0 && !file.failed && !stream.failed
    modifies m.store, file, stream
    ensures m.Valid() && outcome in {Done, SendFailed, ReadFailed}
    ensures SentSoFar(stream.sent, file.content, offset, id, chunkSize)
    ensures Transferring(m.WorldOf(), owner, id, Kind.Download, offset, Some(|file.content|))
    ensures outcome == Done ==> offset == |file.content|
    ensures outcome == SendFailed <==> stream.failed
    ensures outcome == ReadFailed ==> file.failed
    ensures outcome == Done ==> !file.failed
  {
    offset := 0;
    while true
      invariant m.Valid() && Transferring(m.WorldOf(), owner, id, Kind.Download, offset, Some(|file.content|))
      invariant file.position == offset <= |file.content|
      invariant SentSoFar(stream.sent, file.content, offset, id, chunkSize)
      invariant !file.failed && !stream.failed
      decreases |file.content| - file.position
    {
      var data, status := file.Read(chunkSize);
      if data != [] {
        var ok := ForwardPiece(m, owner, id, stream, file.content, offset, data, chunkSize);
        if !ok {
          return SendFailed, offset;
        }
        offset := offset + |data|;
      }
      if status == AtEnd {
        return Done, offset;
      }
      if status == ReadError {
        return ReadFailed, offset;
      }
    }
  }

  /** What the server finds at a path. */
  datatype Found = Missing | Unreadable | Directory | File

  /** What a download starts for. */
  predicate IsFile(path: string, found: Found) {
    path != "" && found == File
  }

  /** The server's side of a download: nothing is recorded for a path that is not a file. */
  method DownloadFile(m: M.Manager, owner: string, id: string, at: int, path: string, found: Found, requested: nat,
                      canOpen: bool, file: Reader, stream: Stream<FileChunk>) returns (outcome: Outcome, sent: nat)
    requires m.Valid() && id !in m.store.jobs
    requires file.position == 0 && stream.sent == [] && !file.failed && !stream.failed
    modifies m, m.store, file, stream
    ensures m.Valid()
    ensures outcome == BadPath <==> path == "" || found == Directory
    ensures outcome == NoSuchFile <==> path != "" && found == Missing
    ensures outcome == StatFailed <==> path != "" && found == Unreadable
    ensures outcome == Refused <==> IsFile(path, found) && owner == ""
    ensures outcome !in STARTED ==> m.WorldOf() == old(m.WorldOf()) && stream.sent == []
    ensures outcome !in {WriteFailed, ReceiveFailed}
    ensures outcome in STARTED ==>
              Ended(m.WorldOf(), owner, id, Kind.Download, outcome == SendFailed, outcome in {Done, EndLost}, sent,
                    Some(|file.content|))
    ensures outcome == OpenFailed <==> IsFile(path, found) && owner != "" && !canOpen
    ensures outcome in {SendFailed, EndLost} <==> stream.failed
    ensures outcome == ReadFailed ==> file.failed
    ensures outcome in {Done, EndLost} ==> !file.failed && sent == |file.content|
    ensures var chunkSize := if requested == 0 then 32768 else requested;
            if outcome == Done then IsDownload(stream.sent, file.content, id, chunkSize)
            else SentSoFar(stream.sent, file.content, sent, id, chunkSize)
  {
    if path == "" {
      return BadPath, 0;
    }
    match found
    case Missing => return NoSuchFile, 0;
    case Unreadable => return StatFailed, 0;
    case Directory => return BadPath, 0;
    case File =>
      outcome, sent := SendDownload(m, owner, id, at, requested, canOpen, file, stream);
  }

  /** The download of a file that was found; `canOpen` tells whether it could be opened. */
  method SendDownload(m: M.Manager, owner: string, id: string, at: int, requested: nat, canOpen: bool,
                      file: Reader, stream: Stream<FileChunk>) returns (outcome: Outcome, sent: nat)
    requires m.Valid() && id !in m.store.jobs
    requires file.position == 0 && stream.sent == [] && !file.failed && !stream.failed
    modifies m, m.store, file, stream
    ensures m.Valid()
    ensures outcome == Refused <==> owner == ""
    ensures outcome == OpenFailed <==> owner != "" && !canOpen
    ensures outcome in {SendFailed, EndLost} <==> stream.failed
    ensures outcome == ReadFailed ==> file.failed
    ensures outcome in {Done, EndLost} ==> !file.failed
    ensures outcome == Refused ==> m.WorldOf() == old(m.WorldOf())
    ensures outcome != Refused ==>
              Ended(m.WorldOf(), owner, id, Kind.Download, outcome == SendFailed, outcome in {Done, EndLost}, sent,
                    Some(|file.content|))
    ensures outcome == Done ==> IsDownload(stream.sent, file.content, id, ChunkSize(requested))
    ensures outcome != Done ==> SentSoFar(stream.sent, file.content, sent, id, ChunkSize(requested))
    ensures outcome in {Done, EndLost} ==> sent == |file.content|
    ensures outcome in {Done, Refused, OpenFailed, SendFailed, EndLost, ReadFailed}
    ensures outcome == Refused ==> stream.sent == []
  {
    ghost var total := Some(|file.content|);
    var began := BeginTransfer(m, owner, id, Kind.Download, at, Some(|file.content|));
    if !began {
      return Refused, 0;
    }
    if !canOpen {
      EndTransfer(m, owner, id, at, false, "cannot open", Kind.Download, 0, total);
      return OpenFailed, 0;
    }
    outcome, sent := SendWhole(m, owner, id, at, ChunkSize(requested), file, stream);
  }

  /** All pieces, the transfer's end, and the end frame. */
  method SendWhole(m: M.Manager, owner: string, id: string, at: int, chunkSize: nat, file: Reader,
                   stream: Stream<FileChunk>) returns (outcome: Outcome, sent: nat)
    requires m.Valid() && Transferring(m.WorldOf(), owner, id, Kind.Download, 0, Some(|file.content|))
    requires file.position == 0 && stream.sent == [] && !file.failed && !stream.failed && chunkSize > 0
    modifies m.store, file, stream
    ensures m.Valid() && outcome in {Done, SendFailed, EndLost, ReadFailed}
    ensures Ended(m.WorldOf(), owner, id, Kind.Download, outcome == SendFailed, outcome in {Done, EndLost}, sent,
                  Some(|file.content|))
    ensures outcome in {SendFailed, EndLost} <==> stream.failed
    ensures outcome == ReadFailed ==> file.failed
    ensures outcome in {Done, EndLost} ==> !file.failed && sent == |file.content|
    ensures if outcome == Done then IsDownload(stream.sent, file.content, id, chunkSize)
            else SentSoFar(stream.sent, file.content, sent, id, chunkSize)
  {
    outcome, sent := SendPieces(m, owner, id, file, stream, chunkSize);
    var message := if outcome == Done then "" else "interrupted";
    EndTransfer(m, owner, id, at, outcome == SendFailed, message, Kind.Download, sent, Some(|file.content|));
    if outcome == Done {
      var ok := SendEnd(stream, file.content, sent, id, chunkSize);
      if !ok {
        outcome := EndLost;
      }
    }
  }

  method SendEnd(stream: Stream<FileChunk>, ghost content: Bytes, sent: nat, id: string, ghost chunkSize: nat)
    returns (ok: bool)
    requires sent == |content| && SentSoFar(stream.sent, content, sent, id, chunkSize)
    modifies stream
    ensures stream.failed == (old(stream.failed) || !ok)
    ensures if ok then IsDownload(stream.sent, content, id, chunkSize) else stream.sent == old(stream.sent)
  {
    ok := stream.Send(FileChunk([], sent, true, id));
    if ok {
      assert stream.sent[..|stream.sent| - 1] == old(stream.sent);
    }
  }

  // ---------------------------------------------------------------- download, client side

  datatype DownloadResult = DownloadResult(bytesWritten: nat, transferId: string)

  /** The frames a client looks at: up to the first end frame. */
  function UpToEnd(frames: seq<FileChunk>): seq<FileChunk> {
    if frames == [] then []
    else if frames[0].eof then [frames[0]]
    else [frames[0]] + UpToEnd(frames[1..])
  }

  function LastId(frames: seq<FileChunk>): string {
    if frames == [] then ""
    else if frames[|frames| - 1].transferId != "" then frames[|frames| - 1].transferId
    else LastId(frames[..|frames| - 1])
  }

  lemma {:induction false} UpToEndIs(frames: seq<FileChunk>, n: nat)
    requires n <= |frames| && forall i :: 0 <= i < n ==> !frames[i].eof
    ensures n == |frames| ==> UpToEnd(frames) == frames
    ensures n < |frames| && frames[n].eof ==> UpToEnd(frames) == frames[..n + 1]
    decreases n
  {
    if n > 0 {
      UpToEndIs(frames[1..], n - 1);
      assert frames == [frames[0]] + frames[1..];
    }
  }

  /** Writes the data of every frame to a fresh file until the end frame, or until the stream ends, in
      error if `broken`. */
  method ReceiveFileStream(file: Writer, frames: seq<FileChunk>, broken: bool) returns (result: Option<DownloadResult>)
    requires !file.failed
    modifies file
    ensures result.None? <==> file.failed || (broken && forall i :: 0 <= i < |frames| ==> !frames[i].eof)
    ensures result.Some? ==>
              && file.content == Some(DataOf(UpToEnd(frames)))
              && result.value == DownloadResult(|DataOf(UpToEnd(frames))|, LastId(UpToEnd(frames)))
  {
    var canOpen := file.Open(false);
    if !canOpen {
      return None;
    }
    var written, transferId, n := 0, "", 0;
    while n < |frames|
      invariant 0 <= n <= |frames| && forall i :: 0 <= i < n ==> !frames[i].eof
      invariant !file.failed
      invariant file.content == Some(DataOf(frames[..n]))
      invariant written == |DataOf(frames[..n])| && transferId == LastId(frames[..n])
    {
      var chunk := frames[n];
      assert frames[..n + 1][..n] == frames[..n];
      assert chunk.data == [] ==> DataOf(frames[..n]) + chunk.data == DataOf(frames[..n]);
      if chunk.transferId != "" {
        transferId := chunk.transferId;
      }
      if |chunk.data| > 0 {
        var ok := file.Write(chunk.data);
        if !ok {
          return None;
        }
        written := written + |chunk.data|;
      }
      if chunk.eof {
        UpToEndIs(frames, n);
        return Some(DownloadResult(written, transferId));
      }
      n := n + 1;
    }
    if broken {
      return None;
    }
    UpToEndIs(frames, n);
    assert frames[..n] == frames;
    return Some(DownloadResult(written, transferId));
  }

  /** A whole download, received without error, is the file; the end offset, the bytes written and the
      length agree; nothing sent after it matters. */
  lemma {:induction false} DownloadArrives(frames: seq<FileChunk>, content: Bytes, id: string, chunkSize: nat,
                                           rest: seq<FileChunk>)
    requires IsDownload(frames, content, id, chunkSize)
    ensures UpToEnd(frames + rest) == frames && UpToEnd(frames) == frames
    ensures DataOf(frames) == content && frames[|frames| - 1].offset == |content|
    ensures LastId(frames) == id
  {
    var last := |frames| - 1;
    assert frames[..last] + [frames[last]] == frames;
    assert DataOf(frames[..last]) == content[..|content|] == content;
    UpToEndIs(frames, last);
    UpToEndIs(frames + rest, last);
    assert (frames + rest)[..last + 1] == frames;
    LastIdOfPieces(frames[..last], id);
  }

  lemma {:induction false} LastIdOfPieces(frames: seq<FileChunk>, id: string)
    requires forall i :: 0 <= i < |frames| ==> frames[i].transferId == id
    ensures LastId(frames) == if frames == [] then "" else id
  {
    if frames != [] {
      LastIdOfPieces(frames[..|frames| - 1], id);
    }
  }

  /** File transfer is the identity: when both ends report success the local file is the remote one, and
      the bytes counted by the client and the progress persisted by the server are its length. */
  method Download(m: M.Manager, owner: string, id: string, at: int, path: string, found: Found, requested: nat,
                  canOpen: bool, remote: Reader, local: Writer)
    returns (outcome: Outcome, result: Option<DownloadResult>)
    requires m.Valid() && id !in m.store.jobs
    requires remote.position == 0 && !remote.failed && !local.failed
    modifies m, m.store, remote, local
    ensures m.Valid()
    ensures outcome == Done && result.Some? ==>
              && local.content == Some(remote.content)
              && result.value == DownloadResult(|remote.content|, id)
              && Ended(m.WorldOf(), owner, id, Kind.Download, false, true, |remote.content|, Some(|remote.content|))
    ensures result.Some? <==> outcome == Done && !local.failed
    ensures outcome == Done ==> owner != "" && canOpen && !remote.failed && path != "" && found == File
    ensures path != "" && found == File && owner != "" && canOpen && !remote.failed ==>
              outcome in {Done, SendFailed, EndLost}
  {
    var stream := new Stream<FileChunk>();
    var sent;
    outcome, sent := DownloadFile(m, owner, id, at, path, found, requested, canOpen, remote, stream);
    ghost var done := outcome == Done;
    if done {
      DownloadArrives(stream.sent, remote.content, id, ChunkSize(requested), []);
    } else {
      assert forall i :: 0 <= i < |stream.sent| ==> !stream.sent[i].eof;
    }
    result := ReceiveFileStream(local, stream.sent, outcome != Done);
  }

  // ---------------------------------------------------------------- upload

  function Whole(chunks: seq<Bytes>): Bytes {
    if chunks == [] then [] else Whole(chunks[..|chunks| - 1]) + chunks[|chunks| - 1]
  }

  /** The client's side of an upload, past the metadata frame. */
  method SendFile(file: Reader, stream: Stream<Bytes>) returns (ok: bool)
    requires file.position == 0 && stream.sent == [] && !file.failed && !stream.failed
    modifies file, stream
    ensures ok <==> !file.failed && !stream.failed
    ensures Whole(stream.sent) <= file.content
    ensures ok ==> Whole(stream.sent) == file.content
    ensures forall i :: 0 <= i < |stream.sent| ==> 0 < |stream.sent[i]| <= UPLOAD_BUFFER
  {
    ghost var n := 0;
    while true
      invariant n <= |file.content| && n == file.position && !file.failed && !stream.failed
      invariant Whole(stream.sent) == file.content[..n]
      invariant forall i :: 0 <= i < |stream.sent| ==> 0 < |stream.sent[i]| <= UPLOAD_BUFFER
      decreases |file.content| - file.position
    {
      var data, status := file.Read(UPLOAD_BUFFER);
      if data != [] {
        ghost var before := stream.sent;
        ok := stream.Send(data);
        if !ok {
          return false;
        }
        assert stream.sent[..|stream.sent| - 1] == before;
        n := n + |data|;
      }
      if status == AtEnd {
        return true;
      }
      if status == ReadError {
        return false;
      }
    }
  }

  /** Writes the chunks as they come, skipping empty ones, and records the progress after each. */
  method WriteChunks(m: M.Manager, owner: string, id: string, file: Writer, chunks: seq<Bytes>)
    returns (ok: bool, written: nat, hashed: Bytes)
    requires m.Valid() && Transferring(m.WorldOf(), owner, id, Kind.Upload, 0, None)
    requires file.content == Some([]) && !file.failed
    modifies m.store, file
    ensures ok <==> !file.failed
    ensures m.Valid() && Transferring(m.WorldOf(), owner, id, Kind.Upload, written, None)
    ensures ok ==> file.content == Some(Whole(chunks)) && written == |Whole(chunks)| && hashed == Whole(chunks)
  {
    written, hashed := 0, [];
    var n := 0;
    while n < |chunks|
      invariant 0 <= n <= |chunks| && !file.failed
      invariant m.Valid() && Transferring(m.WorldOf(), owner, id, Kind.Upload, written, None)
      invariant file.content == Some(hashed) && hashed == Whole(chunks[..n]) && written == |hashed|
    {
      var chunk := chunks[n];
      assert chunks[..n + 1][..n] == chunks[..n];
      n := n + 1;
      if |chunk| == 0 {
        assert Whole(chunks[..n - 1]) + chunk == Whole(chunks[..n - 1]);
        continue;
      }
      ok := file.Write(chunk);
      if !ok {
        return;
      }
      RecordProgress(m, owner, id, Kind.Upload, written, written + |chunk|, None);
      written, hashed := written + |chunk|, hashed + chunk;
    }
    assert chunks[..n] == chunks;
    ok := true;
  }

  /** The answer to a completed upload; the digest is of the bytes fed to the hash. */
  datatype Receipt = Receipt(written: nat, hashed: Bytes)

  /** The server's side of an upload; the stream ends after `chunks`, in error if `broken`. */
  method UploadFile(m: M.Manager, owner: string, id: string, at: int, overwrite: Option<bool>, file: Writer,
                    chunks: seq<Bytes>, broken: bool) returns (outcome: Outcome, receipt: Receipt)
    requires m.Valid() && id !in m.store.jobs && !file.failed
    modifies m, m.store, file
    ensures m.Valid()
    ensures outcome == Refused <==> owner == ""
    ensures outcome in {OpenFailed, WriteFailed} <==> file.failed
    ensures outcome == ReceiveFailed <==> owner != "" && !file.failed && broken
    ensures outcome in {Done, Refused, OpenFailed, WriteFailed, ReceiveFailed}
    ensures outcome in {Refused, OpenFailed} ==> file.content == old(file.content)
    ensures outcome != Refused ==>
              Ended(m.WorldOf(), owner, id, Kind.Upload, outcome == ReceiveFailed, outcome == Done, receipt.written,
                    None)
    ensures outcome == OpenFailed <==>
              owner != "" && (!file.writable || (overwrite == Some(false) && old(file.content).Some?))
    ensures outcome in {Done, ReceiveFailed} ==>
              file.content == Some(Whole(chunks)) && receipt == Receipt(|Whole(chunks)|, Whole(chunks))
    ensures outcome == Done ==> !broken
  {
    var began := BeginTransfer(m, owner, id, Kind.Upload, at, None);
    receipt := Receipt(0, []);
    if !began {
      return Refused, receipt;
    }
    var canOpen := file.Open(overwrite == Some(false));
    if !canOpen {
      EndTransfer(m, owner, id, at, false, "cannot open", Kind.Upload, 0, None);
      return OpenFailed, receipt;
    }
    var ok, written, hashed := WriteChunks(m, owner, id, file, chunks);
    receipt := Receipt(written, hashed);
    if !ok {
      EndTransfer(m, owner, id, at, false, "cannot write", Kind.Upload, written, None);
      return WriteFailed, receipt;
    }
    if broken {
      EndTransfer(m, owner, id, at, true, "stream broke", Kind.Upload, written, None);
      return ReceiveFailed, receipt;
    }
    EndTransfer(m, owner, id, at, false, "", Kind.Upload, written, None);
    return Done, receipt;
  }

  /** Upload likewise: a completed upload is the client's file, and an upload the client gave up is never
      reported as complete. */
  method Upload(m: M.Manager, owner: string, id: string, at: int, overwrite: Option<bool>,
                local: Reader, remote: Writer) returns (outcome: Outcome, receipt: Receipt)
    requires m.Valid() && id !in m.store.jobs && local.position == 0 && !local.failed && !remote.failed
    modifies m, m.store, local, remote
    ensures m.Valid()
    ensures outcome == Done ==>
              && remote.content == Some(local.content) && receipt == Receipt(|local.content|, local.content)
              && Ended(m.WorldOf(), owner, id, Kind.Upload, false, true, |local.content|, None)
    ensures outcome == Done ==> owner != "" && !local.failed && !remote.failed
    ensures owner != "" && !remote.failed ==> outcome in {Done, ReceiveFailed}
  {
    var stream := new Stream<Bytes>();
    var ok := SendFile(local, stream);
    outcome, receipt := UploadFile(m, owner, id, at, overwrite, remote, stream.sent, !ok);
  }
}
