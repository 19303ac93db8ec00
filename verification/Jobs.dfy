/** The rows of the history database, as values. */
module Jobs {
  import opened Wrappers
  import opened OutputLog

  datatype JobState = Running | Exited | Canceled | FailedToStart

  datatype Kind = Command | Shell | Upload | Download | ArchiveDownload

  /** One row of `jobs`. Times are numbers; descriptive columns that no modelled operation reads are left out. */
  datatype Job = Job(
    id: string, owner: string, kind: Kind, state: JobState, pid: int,
    startedAt: int, endedAt: Option<int>, exitCode: Option<int>, signal: string, error: string,
    outputSize: nat, nextSequence: nat,
    progress: int, total: Option<int>)

  /** One row of `job_output`. */
  datatype Row = Row(job: string, record: Record)

  /** The two tables; output rows are listed in insertion order. */
  datatype Db = Db(jobs: map<string, Job>, output: seq<Row>)

  datatype StoreError = NotFound | Conflict

  const EMPTY := Db(map[], [])

  /** The output rows of one job, in insertion order. */
  function RowsOf(output: seq<Row>, id: string): seq<Record> {
    if output == [] then []
    else
      var last := output[|output| - 1];
      RowsOf(output[..|output| - 1], id) + if last.job == id then [last.record] else []
  }

  /** The table without the rows of some jobs. */
  function Without(output: seq<Row>, removed: set<string>): seq<Row> {
    if output == [] then []
    else
      var last := output[|output| - 1];
      Without(output[..|output| - 1], removed) + if last.job in removed then [] else [last]
  }

  /** A job's rows are consecutive and abut, up to its counters. */
  ghost predicate RowsMatch(job: Job, rows: seq<Record>) {
    IsRun(rows, job.nextSequence, job.outputSize)
  }

  /** Every job's rows match its counters, and no output row lacks its job. */
  ghost predicate Consistent(db: Db) {
    && (forall id :: id in db.jobs ==> db.jobs[id].id == id && RowsMatch(db.jobs[id], RowsOf(db.output, id)))
    && (forall id :: id !in db.jobs ==> RowsOf(db.output, id) == [])
  }

  // ---------------------------------------------------------------- the statements of the store

  function CreateJob(db: Db, job: Job): Result<Db, StoreError> {
    if job.id in db.jobs then Err(Conflict)
    else Ok(db.(jobs := db.jobs[job.id := job.(nextSequence := 0)]))
  }

  function UpdateJobProcess(db: Db, id: string, pid: int): Result<Db, StoreError> {
    if id !in db.jobs then Err(NotFound) else Ok(db.(jobs := db.jobs[id := db.jobs[id].(pid := pid)]))
  }

  function CompleteJob(db: Db, id: string, state: JobState, endedAt: int, exitCode: Option<int>,
                       signal: string, error: string): Result<Db, StoreError>
  {
    if id !in db.jobs then Err(NotFound)
    else Ok(db.(jobs := db.jobs[id := db.jobs[id].(
                state := state, endedAt := Some(endedAt), exitCode := exitCode, signal := signal, error := error)]))
  }

  function UpdateTransferProgress(db: Db, id: string, progress: int, total: Option<int>): Result<Db, StoreError> {
    if id !in db.jobs then Err(NotFound)
    else
      var job := db.jobs[id];
      Ok(db.(jobs := db.jobs[id := job.(progress := progress, total := if total.Some? then total else job.total)]))
  }

  /** The record the store makes of the next append. */
  function NextRecord(job: Job, source: Source, data: seq<byte>): Record {
    Record(job.nextSequence + 1, job.outputSize, source, data)
  }

  /** The counters after an append. */
  function Bumped(job: Job, data: seq<byte>): Job {
    job.(outputSize := job.outputSize + |data|, nextSequence := job.nextSequence + 1)
  }

  function AppendOutput(db: Db, id: string, source: Source, data: seq<byte>): Result<Db, StoreError> {
    if id !in db.jobs then Err(NotFound)
    else
      Ok(Db(db.jobs[id := Bumped(db.jobs[id], data)],
            db.output + [Row(id, NextRecord(db.jobs[id], source, data))]))
  }

  function DeleteOutput(db: Db, id: string): Db {
    db.(output := Without(db.output, {id}))
  }

  /** Deleting job rows deletes their output rows with them. */
  function Purge(db: Db, removed: set<string>): Db {
    Db(db.jobs - removed, Without(db.output, removed))
  }

  function DeleteJob(db: Db, id: string): Result<Db, StoreError> {
    if id !in db.jobs then Err(NotFound) else Ok(Purge(db, {id}))
  }

  /** The tables after a statement whose failure changes nothing. */
  function Or(r: Result<Db, StoreError>, db: Db): Db {
    if r.Ok? then r.value else db
  }

  // ---------------------------------------------------------------- rows of one job

  lemma RowsOfAppend(output: seq<Row>, row: Row, id: string)
    ensures RowsOf(output + [row], id) == RowsOf(output, id) + if row.job == id then [row.record] else []
  {
    assert (output + [row])[..|output|] == output;
  }

  lemma {:induction false} RowsOfWithout(output: seq<Row>, removed: set<string>, id: string)
    ensures RowsOf(Without(output, removed), id) == if id in removed then [] else RowsOf(output, id)
  {
    if output != [] {
      var init, last := output[..|output| - 1], output[|output| - 1];
      RowsOfWithout(init, removed, id);
      if last.job !in removed {
        RowsOfAppend(Without(init, removed), last, id);
      } else {
        assert Without(output, removed) == Without(init, removed);
      }
    }
  }

  lemma WithoutAppend(output: seq<Row>, row: Row, removed: set<string>)
    ensures Without(output + [row], removed) == Without(output, removed) + if row.job in removed then [] else [row]
  {
    assert (output + [row])[..|output|] == output;
  }

  lemma {:induction false} WithoutTwice(output: seq<Row>, a: set<string>, b: set<string>)
    ensures Without(Without(output, a), b) == Without(output, a + b)
  {
    if output != [] {
      var init, last := output[..|output| - 1], output[|output| - 1];
      WithoutTwice(init, a, b);
      if last.job !in a {
        WithoutAppend(Without(init, a), last, b);
      } else {
        assert Without(output, a) == Without(init, a);
        assert Without(output, a + b) == Without(init, a + b);
      }
    }
  }

  lemma {:induction false} WithoutNone(output: seq<Row>)
    ensures Without(output, {}) == output
  {
    if output != [] {
      WithoutNone(output[..|output| - 1]);
    }
  }

  // ---------------------------------------------------------------- every statement keeps the tables consistent

  lemma CreateJobKeepsConsistent(db: Db, job: Job)
    requires Consistent(db)
    ensures CreateJob(db, job).Ok? ==> Consistent(CreateJob(db, job).value)
  {
  }

  /** Updating columns other than the id and the counters. */
  lemma UpdateKeepsConsistent(db: Db, id: string, job: Job)
    requires Consistent(db) && id in db.jobs && job.id == id
    requires job.outputSize == db.jobs[id].outputSize && job.nextSequence == db.jobs[id].nextSequence
    ensures Consistent(db.(jobs := db.jobs[id := job]))
  {
  }

  lemma AppendAddsOneRecord(db: Db, id: string, source: Source, data: seq<byte>, other: string)
    requires id in db.jobs
    ensures RowsOf(AppendOutput(db, id, source, data).value.output, other) ==
            RowsOf(db.output, other) + if other == id then [NextRecord(db.jobs[id], source, data)] else []
  {
    RowsOfAppend(db.output, Row(id, NextRecord(db.jobs[id], source, data)), other);
  }

  lemma NextRecordMatches(job: Job, rows: seq<Record>, source: Source, data: seq<byte>)
    requires RowsMatch(job, rows)
    ensures RowsMatch(Bumped(job, data),
                      rows + [NextRecord(job, source, data)])
  {
    RunAppend(rows, job.nextSequence, job.outputSize, source, data);
  }

  lemma {:induction false} AppendKeepsConsistent(db: Db, id: string, source: Source, data: seq<byte>)
    requires Consistent(db) && id in db.jobs
    ensures Consistent(AppendOutput(db, id, source, data).value)
  {
    var after := AppendOutput(db, id, source, data).value;
    forall other | other in after.jobs
      ensures after.jobs[other].id == other && RowsMatch(after.jobs[other], RowsOf(after.output, other))
    {
      AppendAddsOneRecord(db, id, source, data, other);
      NextRecordMatches(db.jobs[id], RowsOf(db.output, id), source, data);
      assert other != id ==> RowsOf(after.output, other) == RowsOf(db.output, other);
    }
    forall other | other !in after.jobs ensures RowsOf(after.output, other) == [] {
      AppendAddsOneRecord(db, id, source, data, other);
    }
  }

  lemma RemovalKeepsConsistent(db: Db, removed: set<string>)
    requires Consistent(db)
    ensures Consistent(Purge(db, removed))
    ensures Consistent(db.(output := Without(db.output, removed)))
  {
    forall id ensures RowsOf(Without(db.output, removed), id) == if id in removed then [] else RowsOf(db.output, id) {
      RowsOfWithout(db.output, removed, id);
    }
  }

  // ---------------------------------------------------------------- ORDER BY offset_bytes

  /** A result of `SELECT ... ORDER BY offset_bytes`: the selected rows, sorted; ties in any order. */
  ghost predicate IsOrderingOf(result: seq<Record>, selected: seq<Record>) {
    && multiset(result) == multiset(selected)
    && forall i, j :: 0 <= i < j < |result| ==> result[i].offset <= result[j].offset
  }

  /** No row but the last is empty. */
  ghost predicate OnlyLastMayBeEmpty(rows: seq<Record>) {
    forall i :: 0 <= i < |rows| - 1 ==> |rows[i].data| > 0
  }

  lemma RunIsOrdered(rows: seq<Record>, lastSequence: nat, size: nat)
    requires IsRun(rows, lastSequence, size)
    ensures IsOrderingOf(rows, rows)
  {
    forall i, j | 0 <= i < j < |rows| ensures rows[i].offset <= rows[j].offset {
      RunOffsetsGrow(rows, lastSequence, size, i, j);
    }
  }

  lemma HeadsAgree(a: seq<Record>, b: seq<Record>)
    requires forall i, j :: 0 <= i < j < |a| ==> a[i].offset < a[j].offset
    requires IsOrderingOf(b, a) && a != []
    ensures b != [] && a[0] == b[0]
  {
    assert a[0] in multiset(b);
    assert b[0] in multiset(a);
    var i :| 0 <= i < |a| && a[i] == b[0];
    var j :| 0 <= j < |b| && b[j] == a[0];
  }

  lemma TailOf(a: seq<Record>)
    requires a != []
    ensures multiset(a[1..]) == multiset(a) - multiset{a[0]}
  {
    assert a == [a[0]] + a[1..];
  }

  lemma {:induction false} StrictOrderIsUnique(a: seq<Record>, b: seq<Record>)
    requires forall i, j :: 0 <= i < j < |a| ==> a[i].offset < a[j].offset
    requires IsOrderingOf(b, a)
    ensures a == b
    decreases |a|
  {
    if a != [] {
      HeadsAgree(a, b);
      TailOf(a);
      TailOf(b);
      StrictOrderIsUnique(a[1..], b[1..]);
      assert a == [a[0]] + a[1..] && b == [b[0]] + b[1..];
    } else {
      assert |multiset(b)| == 0;
    }
  }

  /** Two neighbours at the same offset may come back the other way round. */
  lemma TiesMayBeSwapped(rows: seq<Record>, lastSequence: nat, size: nat, i: nat)
    requires IsRun(rows, lastSequence, size) && i < |rows| - 1 && |rows[i].data| == 0
    ensures exists result :: IsOrderingOf(result, rows) && result != rows
  {
    RunIsOrdered(rows, lastSequence, size);
    var swapped := rows[i := rows[i + 1]][i + 1 := rows[i]];
    assert swapped[i] != rows[i];
    assert IsOrderingOf(swapped, rows);
  }

  /** Ordering by offset is ordering by sequence, whatever the database does with ties, if and only if
      no row but the last is empty. */
  lemma OffsetOrderIsSequenceOrderIff(rows: seq<Record>, lastSequence: nat, size: nat)
    requires IsRun(rows, lastSequence, size)
    ensures (forall result :: IsOrderingOf(result, rows) ==> result == rows) <==> OnlyLastMayBeEmpty(rows)
  {
    if OnlyLastMayBeEmpty(rows) {
      forall i, j | 0 <= i < j < |rows| ensures rows[i].offset < rows[j].offset {
        RunOffsetsGrow(rows, lastSequence, size, i, j);
      }
      forall result | IsOrderingOf(result, rows) ensures result == rows {
        StrictOrderIsUnique(rows, result);
      }
    } else {
      var i :| 0 <= i < |rows| - 1 && |rows[i].data| == 0;
      TiesMayBeSwapped(rows, lastSequence, size, i);
    }
  }
}
