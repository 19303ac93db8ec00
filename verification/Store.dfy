/** The history store: two tables changed in place, one statement or transaction at a time. */
module Store {
  import opened Wrappers
  import opened OutputLog
  import opened Jobs

  class Store {
    var jobs: map<string, Job>
    var output: seq<Row>

    function Tables(): Db
      reads this
    {
      Db(jobs, output)
    }

    constructor ()
      ensures Tables() == EMPTY && Consistent(Tables())
    {
      jobs, output := map[], [];
    }

    method Create(job: Job) returns (ok: bool)
      requires Consistent(Tables())
      modifies this
      ensures ok <==> CreateJob(old(Tables()), job).Ok?
      ensures Tables() == if ok then CreateJob(old(Tables()), job).value else old(Tables())
      ensures ok ==> job.id in jobs && jobs[job.id] == job.(nextSequence := 0)
      ensures Consistent(Tables())
    {
      ok := job.id !in jobs;
      if ok {
        CreateJobKeepsConsistent(Tables(), job);
        jobs := jobs[job.id := job.(nextSequence := 0)];
      }
    }

    /** `UPDATE jobs SET ... WHERE id = ?`: not found when no row is affected. */
    method Update(id: string, row: Job) returns (found: bool)
      requires Consistent(Tables())
      requires id in jobs ==> row.id == id && row.outputSize == jobs[id].outputSize
                              && row.nextSequence == jobs[id].nextSequence
      modifies this`jobs
      ensures found <==> id in old(jobs)
      ensures jobs == if found then old(jobs)[id := row] else old(jobs)
      ensures Consistent(Tables())
    {
      found := id in jobs;
      if found {
        UpdateKeepsConsistent(Tables(), id, row);
        jobs := jobs[id := row];
      }
    }

    /** Marks a job as finished. */
    method Complete(id: string, state: JobState, endedAt: int, exitCode: Option<int>, signal: string, error: string)
      returns (found: bool)
      requires Consistent(Tables())
      modifies this`jobs
      ensures found <==> id in old(jobs)
      ensures Tables() == Or(CompleteJob(old(Tables()), id, state, endedAt, exitCode, signal, error), old(Tables()))
      ensures found ==>
                && jobs.Keys == old(jobs).Keys && output == old(output)
                && jobs[id].state == state && jobs[id].endedAt == Some(endedAt) && jobs[id].exitCode == exitCode
                && jobs[id].signal == signal && jobs[id].error == error
      ensures Consistent(Tables())
    {
      found := false;
      if id in jobs {
        found := Update(id, jobs[id].(state := state, endedAt := Some(endedAt), exitCode := exitCode,
                                      signal := signal, error := error));
      }
    }

    /** One transaction: read the counters, insert the record, advance the counters. */
    method Append(id: string, source: Source, data: seq<byte>)
      returns (r: Result<Record, StoreError>)
      requires Consistent(Tables())
      modifies this
      ensures r.Ok? <==> id in old(jobs)
      ensures r.Ok? ==> jobs == old(jobs)[id := Bumped(old(jobs)[id], data)]
                        && output == old(output) + [Row(id, r.value)]
      ensures r.Err? ==> Tables() == old(Tables())
      ensures r.Err? ==> r.error == NotFound
      ensures r.Ok? ==> r.value == NextRecord(old(jobs)[id], source, data)
      ensures Consistent(Tables())
    {
      if id !in jobs {
        return Err(NotFound);
      }
      AppendKeepsConsistent(Tables(), id, source, data);
      var record := Insert(id, source, data);
      return Ok(record);
    }

    /** The statements of that transaction. */
    method Insert(id: string, source: Source, data: seq<byte>) returns (record: Record)
      requires id in jobs
      modifies this
      ensures record == NextRecord(old(jobs[id]), source, data)
      ensures jobs == old(jobs)[id := Bumped(old(jobs[id]), data)] && output == old(output) + [Row(id, record)]
      ensures Tables() == AppendOutput(old(Tables()), id, source, data).value
    {
      var sequence, offset := jobs[id].nextSequence + 1, jobs[id].outputSize;
      record := Record(sequence, offset, source, data);
      output := output + [Row(id, record)];
      jobs := jobs[id := jobs[id].(outputSize := jobs[id].outputSize + |data|, nextSequence := sequence)];
    }

    /** `SELECT ... WHERE job_id = ? AND offset_bytes >= ?`, walking the table. */
    method Select(id: string, from: int) returns (rows: seq<Record>)
      ensures rows == FromOffset(RowsOf(output, id), from)
    {
      rows := [];
      var n := 0;
      while n < |output|
        invariant 0 <= n <= |output|
        invariant rows == FromOffset(RowsOf(output[..n], id), from)
      {
        assert output[..n + 1] == output[..n] + [output[n]];
        RowsOfAppend(output[..n], output[n], id);
        if output[n].job != id {
          assert RowsOf(output[..n + 1], id) == RowsOf(output[..n], id);
        } else {
          FromOffsetSnoc(RowsOf(output[..n], id), output[n].record, from);
          if output[n].record.offset >= from {
            rows := rows + [output[n].record];
          }
        }
        n := n + 1;
      }
      assert output[..n] == output;
    }

    /** Replays to a receiver that accepts at most `limit` records. The database may break ties between
        equal offsets either way; when no record but the last is empty there are none, and the receiver
        gets the records at or past the offset in append order, up to where it stopped. */
    method StreamOutput(id: string, offset: int, limit: nat) returns (sent: seq<Record>, complete: bool)
      requires Consistent(Tables())
      ensures exists all :: IsOrderingOf(all, FromOffset(RowsOf(output, id), Max0(offset)))
                            && sent == all[..Least(limit, |all|)]
                            && (complete <==> |all| <= limit)
      ensures OnlyLastMayBeEmpty(RowsOf(output, id)) ==>
                var all := FromOffset(RowsOf(output, id), Max0(offset));
                sent == all[..Least(limit, |all|)] && (complete <==> |all| <= limit)
    {
      var from := offset;
      if from < 0 {
        from := 0;
      }
      var rows := Select(id, from);
      SelectionIsOrdered(Tables(), id, from);
      sent, complete := SendRows(rows, limit);
    }

    static method SendRows(rows: seq<Record>, limit: nat) returns (sent: seq<Record>, complete: bool)
      ensures sent == rows[..Least(limit, |rows|)] && (complete <==> |rows| <= limit)
    {
      sent := [];
      var n := 0;
      complete := true;
      while n < |rows|
        invariant 0 <= n <= |rows| && n <= limit
        invariant sent == rows[..n]
      {
        if n == limit {
          complete := false;
          return;
        }
        sent := sent + [rows[n]];
        n := n + 1;
      }
    }

    method RemoveOutput(id: string)
      requires Consistent(Tables())
      modifies this`output
      ensures Tables() == DeleteOutput(old(Tables()), id) && Consistent(Tables())
      ensures RowsOf(output, id) == []
    {
      RowsOfWithout(output, {id}, id);
      RemovalKeepsConsistent(Tables(), {id});
      output := Without(output, {id});
    }

    method Remove(id: string) returns (found: bool)
      requires Consistent(Tables())
      modifies this
      ensures found <==> id in old(jobs)
      ensures Tables() == if found then Purge(old(Tables()), {id}) else old(Tables())
      ensures Consistent(Tables())
    {
      found := id in jobs;
      if found {
        RemovalKeepsConsistent(Tables(), {id});
        jobs := jobs - {id};
        output := Without(output, {id}); // the foreign key cascades
      }
    }

    /** The owner's rows, newest start first; each exactly once. */
    method List(owner: string, runningOnly: bool) returns (rows: seq<Job>)
      requires Consistent(Tables())
      ensures IsListing(rows, jobs, WantedIds(jobs, owner, runningOnly), {})
      ensures forall id :: id in jobs ==>
                (jobs[id] in rows <==> jobs[id].owner == owner && (runningOnly ==> jobs[id].state == Running))
    {
      rows := [];
      var wanted := WantedIds(jobs, owner, runningOnly);
      var left := wanted;
      while left != {}
        invariant left <= wanted
        invariant IsListing(rows, jobs, wanted, left)
        decreases |left|
      {
        LatestExists(jobs, left);
        var id :| id in left && forall other :: other in left ==> jobs[other].startedAt <= jobs[id].startedAt;
        ListLatest(rows, jobs, wanted, left, id);
        rows := rows + [jobs[id]];
        left := left - {id};
      }
      ListingHasExactly(rows, jobs, wanted);
    }
  }

  /** What one append means for the job: one more record, directly after the ones it had. */
  lemma {:induction false} AppendEffect(db: Db, id: string, source: Source, data: seq<byte>)
    requires Consistent(db) && id in db.jobs
    ensures var after := AppendOutput(db, id, source, data).value;
            && Consistent(after)
            && RowsOf(after.output, id) == RowsOf(db.output, id) + [NextRecord(db.jobs[id], source, data)]
            && after.jobs[id].outputSize == End(NextRecord(db.jobs[id], source, data))
  {
    AppendKeepsConsistent(db, id, source, data);
    AppendAddsOneRecord(db, id, source, data, id);
  }

  function Max0(n: int): nat { if n < 0 then 0 else n }

  function Least(a: nat, b: nat): nat { if a < b then a else b }

  lemma FromOffsetSnoc(rows: seq<Record>, r: Record, from: int)
    ensures FromOffset(rows + [r], from) == FromOffset(rows, from) + if r.offset >= from then [r] else []
  {
    assert (rows + [r])[..|rows|] == rows;
  }

  /** The selected rows stand in offset order already, and it is the only order unless there are ties. */
  lemma SelectionIsOrdered(db: Db, id: string, from: int)
    requires Consistent(db)
    ensures IsOrderingOf(FromOffset(RowsOf(db.output, id), from), FromOffset(RowsOf(db.output, id), from))
  {
    var rows := RowsOf(db.output, id);
    if id in db.jobs {
      var job := db.jobs[id];
      assert RowsMatch(job, rows);
      FromOffsetIsSuffix(rows, job.nextSequence, job.outputSize, from);
      RunSuffix(rows, job.nextSequence, job.outputSize, Skipped(rows, from));
      RunIsOrdered(FromOffset(rows, from), job.nextSequence, job.outputSize);
    }
  }

  // ---------------------------------------------------------------- listing in start order

  function WantedIds(jobs: map<string, Job>, owner: string, runningOnly: bool): set<string> {
    set id | id in jobs && jobs[id].owner == owner && (runningOnly ==> jobs[id].state == Running)
  }

  /** `rows` lists the wanted jobs that are not `left`, each once, newest first, all at least as new as
      those left. */
  ghost predicate IsListing(rows: seq<Job>, jobs: map<string, Job>, wanted: set<string>, left: set<string>) {
    && wanted <= jobs.Keys && left <= wanted
    && (forall i, j :: 0 <= i < j < |rows| ==> rows[i].startedAt >= rows[j].startedAt && rows[i].id != rows[j].id)
    && (forall i :: 0 <= i < |rows| ==> rows[i].id in wanted - left && rows[i] == jobs[rows[i].id])
    && (forall id :: id in wanted && id !in left ==> jobs[id] in rows)
    && (forall i, id :: 0 <= i < |rows| && id in left ==> rows[i].startedAt >= jobs[id].startedAt)
  }

  lemma {:induction false} LatestExists(jobs: map<string, Job>, left: set<string>)
    requires left != {} && left <= jobs.Keys
    ensures exists id :: id in left && forall other :: other in left ==> jobs[other].startedAt <= jobs[id].startedAt
    decreases |left|
  {
    var id :| id in left;
    if left != {id} {
      LatestExists(jobs, left - {id});
      var best :| best in left - {id} &&
                  forall other :: other in left - {id} ==> jobs[other].startedAt <= jobs[best].startedAt;
      var latest := if jobs[id].startedAt >= jobs[best].startedAt then id else best;
      assert forall other :: other in left ==> other == id || other in left - {id};
      assert latest in left && forall other :: other in left ==> jobs[other].startedAt <= jobs[latest].startedAt;
    }
  }

  lemma ListLatest(rows: seq<Job>, jobs: map<string, Job>, wanted: set<string>, left: set<string>, id: string)
    requires IsListing(rows, jobs, wanted, left)
    requires id in left && jobs[id].id == id
    requires forall other :: other in left ==> jobs[other].startedAt <= jobs[id].startedAt
    ensures IsListing(rows + [jobs[id]], jobs, wanted, left - {id})
  {
    var more := rows + [jobs[id]];
    assert more[|rows|] == jobs[id];
    forall other | other in wanted && other !in left - {id} ensures jobs[other] in more {
      assert other == id || jobs[other] in rows;
    }
  }

  lemma ListingHasExactly(rows: seq<Job>, jobs: map<string, Job>, wanted: set<string>)
    requires IsListing(rows, jobs, wanted, {})
    requires forall id :: id in jobs ==> jobs[id].id == id
    ensures forall id :: id in jobs ==> (jobs[id] in rows <==> id in wanted)
  {
  }
}
