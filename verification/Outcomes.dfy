/** What each of the manager's operations writes, column by column, and what it leaves alone. */
module Outcomes {
  import opened Wrappers
  import L = OutputLog
  import opened Jobs
  import opened History

  ghost predicate IsRunning(w: World, id: string) {
    id in w.db.jobs && w.db.jobs[id].state == Running
  }

  // ---------------------------------------------------------------- a running job's output only grows

  lemma OwnStepGrowsOutput(w: World, op: Op, id: string)
    requires IsRunning(w, id) && !op.ClearHistory? && op.id == id
    ensures RowsOf(w.db.output, id) <= RowsOf(Step(w, op).db.output, id)
  {
    match op
    case Output(_, source, data) =>
      if data != [] {
        AppendAddsOneRecord(w.db, id, source, data, id);
      }
    case CompleteTransfer(owner, _, at, canceled, message) =>
      if Check(w, owner, id).None? {
        var done := CompleteJob(w.db, id, if canceled then Canceled else Exited, at, None, "", message).value;
        AppendAddsOneRecord(done, id, L.System, Text(TransferText(message)), id);
      }
    case Start(_, _, _, _, _) | Exit(_, _, _, _) | Cancel(_, _, _) =>
    case Delete(_, _) | StartTransfer(_, _, _, _, _) | Progress(_, _, _) | Read(_, _, _) =>
  }

  /** Whatever the operation, and whoever calls it, a running job keeps all its output, in place: not even
      its owner's read takes anything from it. */
  lemma {:induction false} RunningKeepsOutput(w: World, op: Op, id: string)
    requires IsRunning(w, id)
    ensures RowsOf(w.db.output, id) <= RowsOf(Step(w, op).db.output, id)
  {
    if op.ClearHistory? {
      RowsOfWithout(w.db.output, FinishedOf(w.db, op.owner), id);
    } else if op.id == id {
      OwnStepGrowsOutput(w, op, id);
    } else {
      StepIsLocal(w, op);
    }
  }

  /** Over whole runs: for as long as a job runs, and until the operation that finishes it, its output only
      grows. */
  lemma {:induction false} OutputGrowsWhileRunning(w: World, ops: seq<Op>, id: string)
    requires forall i :: 0 <= i < |ops| ==> IsRunning(Play(w, ops[..i]), id)
    ensures RowsOf(w.db.output, id) <= RowsOf(Play(w, ops).db.output, id)
    decreases |ops|
  {
    if ops != [] {
      var init := ops[..|ops| - 1];
      forall i | 0 <= i < |init| ensures IsRunning(Play(w, init[..i]), id) {
        assert init[..i] == ops[..i];
      }
      OutputGrowsWhileRunning(w, init, id);
      RunningKeepsOutput(Play(w, init), ops[|ops| - 1], id);
    }
  }

  // ---------------------------------------------------------------- starting and ending an execution

  /** A fresh row: nothing appended, nothing finished, no process yet. */
  ghost predicate IsFresh(row: Job, id: string, owner: string, kind: Kind, at: int, total: Option<int>) {
    && row.id == id && row.owner == owner && row.kind == kind && row.startedAt == at && row.total == total
    && row.endedAt == None && row.exitCode == None && row.signal == "" && row.error == "" && row.progress == 0
  }

  /** Starting never touches a row that is there already, and otherwise leaves a row that tells what became
      of the process: running with its pid, running without one, or failed with the message. */
  lemma StartWrites(w: World, owner: string, id: string, kind: Kind, at: int, outcome: StartOutcome)
    ensures var r := Step(w, Start(owner, id, kind, at, outcome));
            && (owner == "" || id in w.db.jobs ==> r == w)
            && (owner != "" && id !in w.db.jobs ==>
                  && r.db.output == w.db.output && id in r.db.jobs
                  && var row := r.db.jobs[id];
                  match outcome
                  case Started(pid) =>
                    && IsFresh(row, id, owner, kind, at, None) && row.state == Running && row.pid == pid
                    && id in r.live && r.live[id] == Live(owner, false, false)
                  case PidNotStored =>
                    IsFresh(row, id, owner, kind, at, None) && row.state == Running && r.live == w.live
                  case ProcessFailed(message) =>
                    && row.state == FailedToStart && row.error == message && row.exitCode == Some(-1)
                    && row.endedAt == Some(at) && row.signal == "" && r.live == w.live)
  {
  }

  /** The waiter runs once. It stores canceled exactly if cancelling was asked for, the exit code of the
      process, except that a failed wait is never stored as code zero, and leaves the rest of the row. */
  lemma ExitWrites(w: World, id: string, at: int, code: int, waitFailed: bool, signal: string)
    requires LiveAgrees(w.db, w.live)
    ensures var r := Step(w, Exit(id, at, ExitCode(code, waitFailed), signal));
            if id !in w.live || w.live[id].exited then r == w
            else
              && id in w.db.jobs && id in r.db.jobs && r.db.output == w.db.output
              && var row, was := r.db.jobs[id], w.db.jobs[id];
              && ExitStored(row, if w.live[id].cancelRequested then Canceled else Exited, at, code, waitFailed, signal)
              && row.id == was.id && row.owner == was.owner && row.kind == was.kind && row.pid == was.pid
              && row.startedAt == was.startedAt && row.outputSize == was.outputSize
              && row.nextSequence == was.nextSequence
              && r.live[id].exited && r.live[id].cancelRequested == w.live[id].cancelRequested
  {
  }

  // ---------------------------------------------------------------- transfers

  lemma TextSpells(s: string)
    ensures |Text(s)| == |s|
    ensures forall i :: 0 <= i < |s| && s[i] < '\U{80}' ==> Text(s)[i] as int == s[i] as int
  {
  }

  /** A transfer's row starts out running, with one record of the daemon's own. */
  lemma StartTransferWrites(w: World, owner: string, id: string, kind: Kind, at: int, total: Option<int>)
    requires Consistent(w.db)
    ensures var r := Step(w, StartTransfer(owner, id, kind, at, total));
            && r.live == w.live
            && (owner == "" || id in w.db.jobs ==> r == w)
            && (owner != "" && id !in w.db.jobs ==>
                  && id in r.db.jobs && IsFresh(r.db.jobs[id], id, owner, kind, at, total)
                  && r.db.jobs[id].state == Running
                  && RowsOf(r.db.output, id) == [L.Record(1, 0, L.System, Text("transfer started\n"))])
  {
    if owner != "" && id !in w.db.jobs {
      var created := CreateJob(w.db, NewJob(id, owner, kind, at, total)).value;
      AppendAddsOneRecord(created, id, L.System, Text("transfer started\n"), id);
    }
  }

  /** Progress is that of the row named; its total is replaced only by a total. */
  lemma ProgressWrites(w: World, id: string, bytes: int, total: Option<int>)
    ensures var r := Step(w, Progress(id, bytes, total));
            && r.live == w.live && r.db.output == w.db.output
            && (id !in w.db.jobs ==> r == w)
            && (id in w.db.jobs ==>
                  && id in r.db.jobs && r.db.jobs[id].progress == bytes
                  && (total.Some? ==> r.db.jobs[id].total == total)
                  && (total.None? ==> r.db.jobs[id].total == w.db.jobs[id].total)
                  && r.db.jobs[id].state == w.db.jobs[id].state)
  {
  }

  /** Completing stores the state and the message and appends the record that says how it went; the
      progress stays as it was. */
  lemma CompleteTransferWrites(w: World, owner: string, id: string, at: int, canceled: bool, message: string)
    requires Check(w, owner, id).None?
    ensures var r := Step(w, CompleteTransfer(owner, id, at, canceled, message));
            && r.live == w.live && id in r.db.jobs
            && var row, was := r.db.jobs[id], w.db.jobs[id];
            && row.state == (if canceled then Canceled else Exited)
            && row.endedAt == Some(at) && row.exitCode == None && row.signal == "" && row.error == message
            && row.owner == was.owner && row.kind == was.kind && row.progress == was.progress && row.total == was.total
            && var closing := if message == "" then "transfer completed\n" else "transfer failed: " + message + "\n";
            RowsOf(r.db.output, id) ==
            RowsOf(w.db.output, id) + [L.Record(was.nextSequence + 1, was.outputSize, L.System, Text(closing))]
  {
    var done := CompleteJob(w.db, id, if canceled then Canceled else Exited, at, None, "", message).value;
    AppendAddsOneRecord(done, id, L.System, Text(TransferText(message)), id);
  }
}
