/** The execution manager over the store: the map of live executions it updates in place, and the
    checks each operation makes before it touches anything. */
module Manager {
  import opened Wrappers
  import L = OutputLog
  import opened Jobs
  import opened History
  import S = Store

  /** The error each operation answers with, given the state it finds. */
  function Refusal(w: World, op: Op): Option<ManagerError> {
    match op
    case Start(owner, id, _, _, outcome) =>
      if owner == "" then Some(ErrOwnerRequired)
      else if id in w.db.jobs then Some(ErrStore)
      else if outcome.ProcessFailed? then Some(ErrStart)
      else if outcome.PidNotStored? then Some(ErrStore)
      else None
    case StartTransfer(owner, id, _, _, _) =>
      if owner == "" then Some(ErrOwnerRequired) else if id in w.db.jobs then Some(ErrStore) else None
    case Cancel(owner, id, terminated) =>
      if CheckLive(w, owner, id).Some? then CheckLive(w, owner, id)
      else if !terminated then Some(ErrTerminate)
      else None
    case Delete(owner, id) =>
      if Check(w, owner, id).Some? then Check(w, owner, id)
      else if w.db.jobs[id].state == Running then Some(ErrRunning)
      else None
    case CompleteTransfer(owner, id, _, _, _) => Check(w, owner, id)
    case Read(owner, id, _) => Check(w, owner, id)
    case Progress(id, _, _) => if id in w.db.jobs then None else Some(ErrNotFound)
    case _ => None
  }

  class Manager {
    const store: S.Store
    var executions: map<string, Live>

    function WorldOf(): World
      reads this, store
    {
      World(store.Tables(), executions)
    }

    ghost predicate Valid()
      reads this, store
    {
      Agree(WorldOf())
    }

    constructor ()
      ensures Valid() && WorldOf() == NO_WORLD && fresh(store)
    {
      store := new S.Store();
      executions := map[];
    }

    method GetOwned(id: string, owner: string) returns (r: Result<Live, ManagerError>)
      ensures r.Err? <==> CheckLive(WorldOf(), owner, id).Some?
      ensures r.Err? ==> Some(r.error) == CheckLive(WorldOf(), owner, id)
      ensures r == Err(ErrForbidden) <==> id in store.jobs && store.jobs[id].owner != owner
      ensures r == Err(ErrNotFound) <==>
                id !in store.jobs || (store.jobs[id].owner == owner && id !in executions)
      ensures r.Ok? ==> id in executions && r.value == executions[id]
    {
      if id !in store.jobs {
        return Err(ErrNotFound);
      }
      if store.jobs[id].owner != owner {
        return Err(ErrForbidden);
      }
      if id in executions {
        return Ok(executions[id]);
      }
      return Err(ErrNotFound);
    }

    /** Creates the row, starts the process, and goes live only if both that and storing the pid worked. */
    method Start(owner: string, id: string, kind: Kind, at: int, outcome: StartOutcome)
      returns (refusal: Option<ManagerError>)
      requires Valid()
      modifies this, store
      ensures Valid()
      ensures WorldOf() == Step(old(WorldOf()), Op.Start(owner, id, kind, at, outcome))
      ensures refusal == Refusal(old(WorldOf()), Op.Start(owner, id, kind, at, outcome))
    {
      StepKeepsAgree(WorldOf(), Op.Start(owner, id, kind, at, outcome));
      if owner == "" {
        return Some(ErrOwnerRequired);
      }
      var created := store.Create(NewJob(id, owner, kind, at, None));
      if !created {
        return Some(ErrStore);
      }
      match outcome
      case ProcessFailed(message) =>
        var _ := store.Complete(id, FailedToStart, at, Some(-1), "", message);
        return Some(ErrStart);
      case PidNotStored =>
        return Some(ErrStore);
      case Started(pid) =>
        var _ := store.Update(id, store.jobs[id].(pid := pid));
        executions := executions[id := Live(owner, false, false)];
        return None;
    }

    /** Sets the flag, then asks the process to end, which may fail. */
    method Cancel(owner: string, id: string, terminated: bool) returns (refusal: Option<ManagerError>)
      requires Valid()
      modifies this`executions
      ensures Valid()
      ensures WorldOf() == Step(old(WorldOf()), Op.Cancel(owner, id, terminated))
      ensures refusal == Refusal(old(WorldOf()), Op.Cancel(owner, id, terminated))
    {
      StepKeepsAgree(WorldOf(), Op.Cancel(owner, id, terminated));
      var e := GetOwned(id, owner);
      if e.Err? {
        return Some(e.error);
      }
      executions := executions[id := e.value.(cancelRequested := true)];
      if !terminated {
        return Some(ErrTerminate);
      }
      return None;
    }

    /** The one waiter of an execution: a failed wait that reports code zero counts as code -1. */
    method WaitForExit(id: string, at: int, code: int, waitFailed: bool, signal: string)
      requires Valid()
      modifies this, store
      ensures Valid()
      ensures WorldOf() == Step(old(WorldOf()), Op.Exit(id, at, ExitCode(code, waitFailed), signal))
      ensures id in old(executions) && !old(executions)[id].exited ==>
                && id in store.jobs
                && ExitStored(store.jobs[id], if old(executions)[id].cancelRequested then Canceled else Exited,
                              at, code, waitFailed, signal)
    {
      StepKeepsAgree(WorldOf(), Op.Exit(id, at, ExitCode(code, waitFailed), signal));
      if id !in executions || executions[id].exited {
        return;
      }
      var exitCode := code;
      if waitFailed && code == 0 {
        exitCode := -1;
      }
      var state := Exited;
      if executions[id].cancelRequested {
        state := Canceled;
      }
      executions := executions[id := executions[id].(exited := true)];
      var _ := store.Complete(id, state, at, Some(exitCode), signal, "");
    }

    /** Deletes a row with its output, then forgets the execution. */
    method RemoveRow(id: string) returns (found: bool)
      requires Consistent(store.Tables())
      modifies this, store
      ensures found <==> id in old(store.jobs)
      ensures found ==> WorldOf() == World(Purge(old(store.Tables()), {id}), old(executions) - {id})
      ensures !found ==> WorldOf() == old(WorldOf())
      ensures Consistent(store.Tables())
    {
      found := store.Remove(id);
      if found {
        executions := executions - {id};
      }
    }

    method Delete(owner: string, id: string) returns (refusal: Option<ManagerError>)
      requires Valid()
      modifies this, store
      ensures Valid()
      ensures WorldOf() == Step(old(WorldOf()), Op.Delete(owner, id))
      ensures refusal == Refusal(old(WorldOf()), Op.Delete(owner, id))
    {
      StepKeepsAgree(WorldOf(), Op.Delete(owner, id));
      if id !in store.jobs {
        return Some(ErrNotFound);
      }
      if store.jobs[id].owner != owner {
        return Some(ErrForbidden);
      }
      if store.jobs[id].state == Running {
        return Some(ErrRunning);
      }
      var _ := RemoveRow(id);
      return None;
    }

    /** One row of the listing: skipped if it runs, deleted otherwise. */
    method ClearRow(row: Job, ghost before: World, ghost removed: set<string>) returns (deleted: bool, skipped: bool)
      requires Consistent(before.db) && WorldOf() == Purged(before, removed)
      requires row.id in before.db.jobs && row.id !in removed
      modifies this, store
      ensures skipped == (row.state == Running) && deleted == !skipped
      ensures WorldOf() == Purged(before, if skipped then removed else removed + {row.id})
    {
      if row.state == Running {
        return false, true;
      }
      RemovalKeepsConsistent(before.db, removed);
      PurgeOneMore(before, removed, row.id);
      deleted := RemoveRow(row.id);
      skipped := false;
    }

    /** The same for row `n` of the listing, with the books of the rows before it carried on. */
    method ClearNth(rows: seq<Job>, n: nat, ghost before: World) returns (deleted: nat, skipped: nat)
      requires n < |rows| && ListsOnce(rows, before.db.jobs) && Consistent(before.db)
      requires WorldOf() == Purged(before, Marked(rows[..n], false))
      modifies this, store
      ensures WorldOf() == Purged(before, Marked(rows[..n + 1], false))
      ensures |Marked(rows[..n + 1], false)| == |Marked(rows[..n], false)| + deleted
      ensures |Marked(rows[..n + 1], true)| == |Marked(rows[..n], true)| + skipped
    {
      MarkOneMore(rows, n, before.db.jobs);
      var gone, stays := ClearRow(rows[n], before, Marked(rows[..n], false));
      deleted, skipped := if gone then 1 else 0, if stays then 1 else 0;
    }

    /** Walks the listing, skips running rows, deletes the others one at a time. */
    method ClearRows(rows: seq<Job>, ghost before: World) returns (deleted: nat, skipped: nat)
      requires Consistent(before.db) && WorldOf() == before
      requires ListsOnce(rows, before.db.jobs)
      modifies this, store
      ensures WorldOf() == Purged(before, Marked(rows, false))
      ensures deleted == |Marked(rows, false)| && skipped == |Marked(rows, true)|
    {
      PurgeNothing(before);
      deleted, skipped := 0, 0;
      var n := 0;
      while n < |rows|
        invariant 0 <= n <= |rows|
        invariant WorldOf() == Purged(before, Marked(rows[..n], false))
        invariant deleted == |Marked(rows[..n], false)| && skipped == |Marked(rows[..n], true)|
      {
        var gone, stays := ClearNth(rows, n, before);
        deleted, skipped, n := deleted + gone, skipped + stays, n + 1;
      }
      assert rows[..n] == rows;
    }

    method ClearHistory(owner: string) returns (deleted: nat, skipped: nat)
      requires Valid()
      modifies this, store
      ensures Valid()
      ensures WorldOf() == Step(old(WorldOf()), Op.ClearHistory(owner))
      ensures deleted == |FinishedOf(old(store.Tables()), owner)|
      ensures skipped == |RunningOf(old(store.Tables()), owner)|
    {
      ghost var before := WorldOf();
      var rows := ListOwned(owner);
      deleted, skipped := ClearRows(rows, before);
      ClearIsPurge(before, owner);
      ClearedAgree(before, FinishedOf(before.db, owner));
    }

    method ListOwned(owner: string) returns (rows: seq<Job>)
      requires Consistent(store.Tables())
      ensures ListsOnce(rows, store.jobs)
      ensures Marked(rows, false) == FinishedOf(store.Tables(), owner)
      ensures Marked(rows, true) == RunningOf(store.Tables(), owner)
    {
      rows := store.List(owner, false);
      ListedIds(rows, store.Tables(), owner);
    }

    method StartTransfer(owner: string, id: string, kind: Kind, at: int, total: Option<int>)
      returns (refusal: Option<ManagerError>)
      requires Valid()
      modifies this, store
      ensures Valid()
      ensures WorldOf() == Step(old(WorldOf()), Op.StartTransfer(owner, id, kind, at, total))
      ensures refusal == Refusal(old(WorldOf()), Op.StartTransfer(owner, id, kind, at, total))
      ensures executions == old(executions)
    {
      StepKeepsAgree(WorldOf(), Op.StartTransfer(owner, id, kind, at, total));
      if owner == "" {
        return Some(ErrOwnerRequired);
      }
      var created := store.Create(NewJob(id, owner, kind, at, total));
      if !created {
        return Some(ErrStore);
      }
      var _ := store.Append(id, L.System, Text("transfer started\n"));
      return None;
    }

    method UpdateTransferProgress(id: string, bytes: int, total: Option<int>) returns (refusal: Option<ManagerError>)
      requires Valid()
      modifies store
      ensures Valid()
      ensures WorldOf() == Step(old(WorldOf()), Op.Progress(id, bytes, total))
      ensures refusal == Refusal(old(WorldOf()), Op.Progress(id, bytes, total))
    {
      StepKeepsAgree(WorldOf(), Op.Progress(id, bytes, total));
      if id !in store.jobs {
        return Some(ErrNotFound);
      }
      var row := store.jobs[id];
      var _ := store.Update(id, row.(progress := bytes, total := if total.Some? then total else row.total));
      return None;
    }

    method CompleteTransfer(owner: string, id: string, at: int, canceled: bool, message: string)
      returns (refusal: Option<ManagerError>)
      requires Valid()
      modifies store
      ensures Valid()
      ensures WorldOf() == Step(old(WorldOf()), Op.CompleteTransfer(owner, id, at, canceled, message))
      ensures refusal == Refusal(old(WorldOf()), Op.CompleteTransfer(owner, id, at, canceled, message))
    {
      StepKeepsAgree(WorldOf(), Op.CompleteTransfer(owner, id, at, canceled, message));
      if id !in store.jobs {
        return Some(ErrNotFound);
      }
      if store.jobs[id].owner != owner {
        return Some(ErrForbidden);
      }
      var state := Exited;
      if canceled {
        state := Canceled;
      }
      var _ := store.Complete(id, state, at, None, "", message);
      if message == "" {
        var _ := store.Append(id, L.System, Text("transfer completed\n"));
      } else {
        var _ := store.Append(id, L.System, Text("transfer failed: " + message + "\n"));
      }
      return None;
    }

    /** Replays to a receiver that takes at most `limit` records, and afterwards discards the output of a
        finished job if asked to and if everything was sent. */
    method StreamOutput(owner: string, id: string, offset: int, limit: nat, discard: bool)
      returns (sent: seq<L.Record>, complete: bool, refusal: Option<ManagerError>)
      requires Valid()
      modifies store`output
      ensures Valid()
      ensures refusal == Refusal(old(WorldOf()), Op.Read(owner, id, discard))
      ensures refusal.Some? ==> sent == []
      ensures refusal.None? ==>
                var all := L.FromOffset(RowsOf(old(store.output), id), S.Max0(offset));
                sent == all[..S.Least(limit, |all|)] && (complete <==> |all| <= limit)
      ensures WorldOf() == Step(old(WorldOf()), Op.Read(owner, id, discard && complete))
      ensures if refusal.None? && complete && discard && store.jobs[id].state != Running
              then RowsOf(store.output, id) == [] else store.output == old(store.output)
    {
      sent, complete := [], false;
      if id !in store.jobs {
        return sent, complete, Some(ErrNotFound);
      }
      var row := store.jobs[id];
      if row.owner != owner {
        return sent, complete, Some(ErrForbidden);
      }
      NoEmptyRowsBreakTies(store.Tables(), id);
      sent, complete := store.StreamOutput(id, offset, limit);
      StepKeepsAgree(WorldOf(), Op.Read(owner, id, discard && complete));
      if complete && discard && row.state != Running {
        RowsOfWithout(store.output, {id}, id);
        store.RemoveOutput(id);
      }
      return sent, complete, None;
    }
  }

  lemma NoEmptyRowsBreakTies(db: Db, id: string)
    requires NoEmptyRows(db)
    ensures OnlyLastMayBeEmpty(RowsOf(db.output, id))
  {
    assert L.NoEmptyRecord(RowsOf(db.output, id));
  }

  // ---------------------------------------------------------------- refusals

  /** Whether a caller may touch a row depends on the row alone, and a caller who may not changes nothing:
      a missing row is not found, another owner's row is forbidden, a running row is not deleted. */
  lemma {:induction false} RefusedChangesNothing(w: World, op: Op)
    requires Refusal(w, op).Some? && Refusal(w, op).value in {ErrNotFound, ErrForbidden, ErrRunning, ErrOwnerRequired}
    ensures Step(w, op) == w
  {
  }

  predicate NamesRow(op: Op) {
    op.Cancel? || op.Delete? || op.CompleteTransfer? || op.Read?
  }

  /** When each error is the answer, exactly: a caller learns that a row is another's or that there is none,
      and beyond that only of the rows it owns. */
  lemma RefusedExactlyIf(w: World, op: Op)
    ensures var refusal := Refusal(w, op);
            && (refusal == Some(ErrForbidden) <==>
                  NamesRow(op) && op.id in w.db.jobs && w.db.jobs[op.id].owner != op.owner)
            && (refusal == Some(ErrNotFound) <==>
                  || ((NamesRow(op) || op.Progress?) && op.id !in w.db.jobs)
                  || (op.Cancel? && Owns(w, op.owner, op.id) && op.id !in w.live))
            && (refusal == Some(ErrRunning) <==>
                  op.Delete? && Owns(w, op.owner, op.id) && w.db.jobs[op.id].state == Running)
            && (refusal == Some(ErrTerminate) <==>
                  op.Cancel? && Owns(w, op.owner, op.id) && op.id in w.live && !op.terminated)
            && (refusal == Some(ErrOwnerRequired) <==> (op.Start? || op.StartTransfer?) && op.owner == "")
            && (refusal == Some(ErrStart) <==>
                  op.Start? && op.owner != "" && op.id !in w.db.jobs && op.outcome.ProcessFailed?)
            && (refusal == Some(ErrStore) <==>
                  && (op.Start? || op.StartTransfer?) && op.owner != ""
                  && (op.id in w.db.jobs || (op.Start? && op.outcome.PidNotStored?)))
            && refusal != Some(ErrAlreadyAttached)
  {
  }

  /** Deleting is refused, or the row, its output and its live execution are gone and deleting again
      answers that there is no such row. */
  lemma {:induction false} DeleteOnce(w: World, owner: string, id: string)
    requires Refusal(w, Op.Delete(owner, id)).None?
    ensures var r := Step(w, Op.Delete(owner, id));
            && id !in r.db.jobs && id !in r.live && RowsOf(r.db.output, id) == []
            && Refusal(r, Op.Delete(owner, id)) == Some(ErrNotFound) && Step(r, Op.Delete(owner, id)) == r
  {
    RowsOfWithout(w.db.output, {id}, id);
  }

  /** A process that failed to start leaves a finished row with exit code -1; only a started process whose
      pid was stored leaves a live execution; one whose pid was not stored keeps running without one. */
  lemma {:induction false} StartOutcomes(w: World, owner: string, id: string, kind: Kind, at: int,
                                         outcome: StartOutcome)
    requires Agree(w) && owner != "" && id !in w.db.jobs
    ensures var r := Step(w, Op.Start(owner, id, kind, at, outcome));
            && id in r.db.jobs && r.db.jobs[id].owner == owner && RowsOf(r.db.output, id) == []
            && (id in r.live <==> outcome.Started?)
            && (id in r.live <==> Refusal(w, Op.Start(owner, id, kind, at, outcome)).None?)
            && (r.db.jobs[id].state == Running <==> !outcome.ProcessFailed?)
            && (outcome.ProcessFailed? ==> r.db.jobs[id].exitCode == Some(-1) && r.db.jobs[id].endedAt == Some(at))
            && (outcome.Started? ==> r.db.jobs[id].pid == outcome.pid && !r.live[id].cancelRequested)
  {
  }

  /** Discarding a job's output does not restart its numbering: the next record follows the last one
      discarded, in sequence and in offset. */
  lemma {:induction false} DiscardDoesNotRestart(w: World, owner: string, id: string, source: L.Source,
                                                 data: seq<L.byte>)
    requires Agree(w) && Refusal(w, Op.Read(owner, id, true)).None? && w.db.jobs[id].state != Running && data != []
    ensures var discarded := Step(w, Op.Read(owner, id, true));
            var r := Step(discarded, Output(id, source, data));
            && RowsOf(discarded.db.output, id) == []
            && RowsOf(r.db.output, id) == [NextRecord(w.db.jobs[id], source, data)]
            && (forall record :: record in RowsOf(w.db.output, id) ==>
                  record.sequence < RowsOf(r.db.output, id)[0].sequence
                  && L.End(record) <= RowsOf(r.db.output, id)[0].offset)
  {
    DiscardThenAppend(w, owner, id, source, data);
    assert RowsMatch(w.db.jobs[id], RowsOf(w.db.output, id));
    RecordsPrecede(w.db.jobs[id], RowsOf(w.db.output, id));
  }

  lemma DiscardThenAppend(w: World, owner: string, id: string, source: L.Source, data: seq<L.byte>)
    requires Refusal(w, Op.Read(owner, id, true)).None? && w.db.jobs[id].state != Running && data != []
    ensures var discarded := Step(w, Op.Read(owner, id, true));
            && RowsOf(discarded.db.output, id) == []
            && RowsOf(Step(discarded, Output(id, source, data)).db.output, id) ==
               [NextRecord(w.db.jobs[id], source, data)]
  {
    var discarded := w.(db := DeleteOutput(w.db, id));
    assert Step(w, Op.Read(owner, id, true)) == discarded;
    RowsAfterDiscard(w.db, id, source, data);
    assert Step(discarded, Output(id, source, data)).db == AppendOutput(discarded.db, id, source, data).value;
  }

  lemma RowsAfterDiscard(db: Db, id: string, source: L.Source, data: seq<L.byte>)
    requires id in db.jobs
    ensures RowsOf(DeleteOutput(db, id).output, id) == []
    ensures RowsOf(AppendOutput(DeleteOutput(db, id), id, source, data).value.output, id) ==
            [NextRecord(db.jobs[id], source, data)]
  {
    RowsOfWithout(db.output, {id}, id);
    AppendAddsOneRecord(DeleteOutput(db, id), id, source, data, id);
  }

  lemma RecordsPrecede(job: Job, rows: seq<L.Record>)
    requires RowsMatch(job, rows)
    ensures forall record :: record in rows ==> record.sequence <= job.nextSequence && L.End(record) <= job.outputSize
  {
    forall i | 0 <= i < |rows| ensures rows[i].sequence <= job.nextSequence && L.End(rows[i]) <= job.outputSize {
      if i < |rows| - 1 {
        L.RunOffsetsGrow(rows, job.nextSequence, job.outputSize, i, |rows| - 1);
      }
    }
  }

  /** Cancelling changes no table. The exit that follows writes canceled, and one that came before, under
      the invariant on exits, is not rewritten. */
  lemma {:induction false} CancelPersistsNothing(w: World, owner: string, id: string, terminated: bool,
                                                 at: int, code: int, signal: string)
    requires Agree(w) && ExitsAgree(w) && CheckLive(w, owner, id).None?
    ensures var canceled := Step(w, Op.Cancel(owner, id, terminated));
            var r := Step(canceled, Op.Exit(id, at, code, signal));
            && canceled.db == w.db
            && (w.db.jobs[id].state == Running ==>
                  r.db.jobs[id].state == Canceled && r.db.jobs[id].exitCode == Some(code))
            && (w.db.jobs[id].state != Running ==> r.db == w.db)
  {
  }

  // ---------------------------------------------------------------- clearing one row at a time

  function Purged(w: World, removed: set<string>): World {
    World(Purge(w.db, removed), w.live - removed)
  }

  ghost predicate ListsOnce(rows: seq<Job>, jobs: map<string, Job>) {
    && (forall i, j :: 0 <= i < j < |rows| ==> rows[i].id != rows[j].id)
    && (forall i :: 0 <= i < |rows| ==> rows[i].id in jobs)
  }

  /** The ids of the rows that run, or of those that do not. */
  function Marked(rows: seq<Job>, running: bool): set<string> {
    if rows == [] then {}
    else
      var last := rows[|rows| - 1];
      Marked(rows[..|rows| - 1], running) + if (last.state == Running) == running then {last.id} else {}
  }

  lemma PurgeNothing(w: World)
    ensures Purged(w, {}) == w
  {
    WithoutNone(w.db.output);
    assert w.db.jobs - {} == w.db.jobs;
    assert w.live - {} == w.live;
  }

  lemma PurgeOneMore(w: World, removed: set<string>, id: string)
    ensures Purged(w, removed + {id}) ==
            World(Purge(Purged(w, removed).db, {id}), Purged(w, removed).live - {id})
  {
    WithoutTwice(w.db.output, removed, {id});
    assert w.db.jobs - (removed + {id}) == w.db.jobs - removed - {id};
    assert w.live - (removed + {id}) == w.live - removed - {id};
  }

  lemma {:induction false} MarkedMeans(rows: seq<Job>, running: bool, id: string)
    ensures id in Marked(rows, running) <==>
            exists i :: 0 <= i < |rows| && rows[i].id == id && (rows[i].state == Running) == running
  {
    if rows != [] {
      var init, last := rows[..|rows| - 1], rows[|rows| - 1];
      MarkedMeans(init, running, id);
      if id in Marked(init, running) {
        var i :| 0 <= i < |init| && init[i].id == id && (init[i].state == Running) == running;
        assert rows[i] == init[i];
      } else if exists i :: 0 <= i < |rows| && rows[i].id == id && (rows[i].state == Running) == running {
        var i :| 0 <= i < |rows| && rows[i].id == id && (rows[i].state == Running) == running;
        assert i < |init| ==> init[i] == rows[i];
      }
    }
  }

  /** The next row's id is new, so each count goes up by one exactly when its set grows. */
  lemma MarkOneMore(rows: seq<Job>, n: nat, jobs: map<string, Job>)
    requires n < |rows| && ListsOnce(rows, jobs)
    ensures rows[n].id in jobs
    ensures rows[n].id !in Marked(rows[..n], true) && rows[n].id !in Marked(rows[..n], false)
    ensures rows[n].state == Running ==> Marked(rows[..n + 1], false) == Marked(rows[..n], false)
                                         && Marked(rows[..n + 1], true) == Marked(rows[..n], true) + {rows[n].id}
    ensures rows[n].state != Running ==> Marked(rows[..n + 1], true) == Marked(rows[..n], true)
                                         && Marked(rows[..n + 1], false) == Marked(rows[..n], false) + {rows[n].id}
  {
    MarkedMeans(rows[..n], true, rows[n].id);
    MarkedMeans(rows[..n], false, rows[n].id);
    assert rows[..n + 1][..n] == rows[..n];
  }

  /** The rows deleted are the owner's finished ones and the rows skipped its running ones. */
  lemma ListedIds(rows: seq<Job>, db: Db, owner: string)
    requires S.IsListing(rows, db.jobs, S.WantedIds(db.jobs, owner, false), {})
    requires forall id :: id in db.jobs ==> db.jobs[id].id == id
    ensures Marked(rows, false) == FinishedOf(db, owner) && Marked(rows, true) == RunningOf(db, owner)
    ensures ListsOnce(rows, db.jobs)
  {
    forall id, running
      ensures id in Marked(rows, running) <==> id in if running then RunningOf(db, owner) else FinishedOf(db, owner)
    {
      MarkedMeans(rows, running, id);
      if id in S.WantedIds(db.jobs, owner, false) {
        assert db.jobs[id] in rows;
      }
    }
  }

  lemma ClearIsPurge(w: World, owner: string)
    ensures Step(w, Op.ClearHistory(owner)) == Purged(w, FinishedOf(w.db, owner))
  {
  }

  lemma ClearedAgree(w: World, removed: set<string>)
    requires Agree(w)
    ensures Agree(Purged(w, removed))
  {
    RemovalKeepsConsistent(w.db, removed);
    RemovalKeepsNoEmpty(w.db, removed);
  }

  /** Deleted plus skipped is the number of rows the owner has. */
  lemma {:induction false} ClearCountsEveryRow(db: Db, owner: string)
    ensures |FinishedOf(db, owner)| + |RunningOf(db, owner)| == |S.WantedIds(db.jobs, owner, false)|
  {
    assert FinishedOf(db, owner) + RunningOf(db, owner) == S.WantedIds(db.jobs, owner, false);
    assert FinishedOf(db, owner) !! RunningOf(db, owner);
  }
}
