/** Two operations of several statements as they run, with any operations of anybody between the statements:
    completing a transfer, and a read that discards what it sent. */
module Interleaved {
  import opened Wrappers
  import L = OutputLog
  import opened Jobs
  import opened History
  import M = Manager
  import S = Store

  /** Ids are not issued twice. */
  ghost predicate NoneCreates(ops: seq<Op>, id: string) {
    forall i :: 0 <= i < |ops| ==> !Creates(ops[i], id)
  }

  // ---------------------------------------------------------------- when a row goes

  /** Its owner deletes it or clears the history. */
  ghost predicate AnyRemoves(ops: seq<Op>, owner: string, id: string) {
    Op.Delete(owner, id) in ops || Op.ClearHistory(owner) in ops
  }

  ghost predicate FinishedRow(w: World, owner: string, id: string) {
    id in w.db.jobs && w.db.jobs[id].owner == owner && w.db.jobs[id].state != Running
  }

  lemma StepRemovesIff(w: World, op: Op, owner: string, id: string)
    requires FinishedRow(w, owner, id)
    ensures id in Step(w, op).db.jobs ==> FinishedRow(Step(w, op), owner, id)
    ensures id !in Step(w, op).db.jobs <==> op == Op.Delete(owner, id) || op == Op.ClearHistory(owner)
  {
    StepKeepsRunningRows(w, op, id);
  }

  /** Over whole runs: a finished row goes exactly if its owner deletes it or clears the history. Nothing
      another owner does, and nothing the daemon does by itself, removes it. */
  lemma {:induction false} FinishedRowGoesIff(w: World, ops: seq<Op>, owner: string, id: string)
    requires FinishedRow(w, owner, id) && NoneCreates(ops, id)
    ensures id !in Play(w, ops).db.jobs <==> AnyRemoves(ops, owner, id)
    ensures id in Play(w, ops).db.jobs ==> FinishedRow(Play(w, ops), owner, id)
    decreases |ops|
  {
    if ops != [] {
      var init, last := ops[..|ops| - 1], ops[|ops| - 1];
      FinishedRowGoesIff(w, init, owner, id);
      assert ops == init + [last];
      if id in Play(w, init).db.jobs {
        StepRemovesIff(Play(w, init), last, owner, id);
      } else {
        AbsentStaysAbsent(Play(w, init), last, id);
      }
    }
  }

  ghost predicate Finishes(op: Op, id: string) {
    (op.Exit? || op.CompleteTransfer?) && op.id == id
  }

  ghost predicate NoneFinishes(ops: seq<Op>, id: string) {
    forall i :: 0 <= i < |ops| ==> !Finishes(ops[i], id)
  }

  ghost predicate RunningRow(w: World, owner: string, id: string) {
    id in w.db.jobs && w.db.jobs[id].owner == owner && w.db.jobs[id].state == Running
  }

  lemma StepKeepsRunning(w: World, op: Op, owner: string, id: string)
    requires RunningRow(w, owner, id) && !Creates(op, id) && !Finishes(op, id)
    ensures RunningRow(Step(w, op), owner, id)
  {
    StepKeepsRunningRows(w, op, id);
  }

  lemma {:induction false} RunKeepsRunning(w: World, ops: seq<Op>, owner: string, id: string)
    requires RunningRow(w, owner, id) && NoneCreates(ops, id) && NoneFinishes(ops, id)
    ensures RunningRow(Play(w, ops), owner, id)
    decreases |ops|
  {
    if ops != [] {
      RunKeepsRunning(w, ops[..|ops| - 1], owner, id);
      StepKeepsRunning(Play(w, ops[..|ops| - 1]), ops[|ops| - 1], owner, id);
    }
  }

  // ---------------------------------------------------------------- completing a transfer

  function RowDone(w: World, id: string, at: int, canceled: bool, message: string): World {
    w.(db := Or(CompleteJob(w.db, id, if canceled then Canceled else Exited, at, None, "", message), w.db))
  }

  function ClosingRecord(w: World, id: string, message: string): World {
    w.(db := Or(AppendOutput(w.db, id, L.System, Text(TransferText(message))), w.db))
  }

  datatype Completion = Completion(world: World, refusal: Option<ManagerError>)

  /** Completing a transfer: check the row, `first`, complete it, `second`, read it back, `third`, and append
      the closing record. */
  function CompleteInParts(w: World, owner: string, id: string, at: int, canceled: bool, message: string,
                           first: seq<Op>, second: seq<Op>, third: seq<Op>): Completion
  {
    if Check(w, owner, id).Some? then Completion(w, Check(w, owner, id))
    else
      var found := Play(w, first);
      if id !in found.db.jobs then Completion(found, Some(ErrNotFound))
      else
        var done := Play(RowDone(found, id, at, canceled, message), second);
        if id !in done.db.jobs then Completion(done, Some(ErrNotFound))
        else Completion(ClosingRecord(Play(done, third), id, message), None)
  }

  /** With nothing in between this is the one step of `History`, with the answer of `Manager`. */
  lemma {:induction false} CompleteAlone(w: World, owner: string, id: string, at: int, canceled: bool,
                                         message: string)
    ensures var op := Op.CompleteTransfer(owner, id, at, canceled, message);
            CompleteInParts(w, owner, id, at, canceled, message, [], [], []) ==
            Completion(Step(w, op), M.Refusal(w, op))
  {
  }

  /** Completing a running transfer always finishes its row, and yet answers not found exactly if the owner
      deleted the row or cleared the history before it was read back; a later removal only loses the
      closing record. */
  lemma {:induction false} CompletionAnswersNotFoundIff(w: World, owner: string, id: string, at: int, canceled: bool,
                                                        message: string, first: seq<Op>, second: seq<Op>,
                                                        third: seq<Op>)
    requires RunningRow(w, owner, id) && NoneFinishes(first, id)
    requires NoneCreates(first, id) && NoneCreates(second, id) && NoneCreates(third, id)
    ensures FinishedRow(RowDone(Play(w, first), id, at, canceled, message), owner, id)
    ensures var r := CompleteInParts(w, owner, id, at, canceled, message, first, second, third);
            && r.refusal == (if AnyRemoves(second, owner, id) then Some(ErrNotFound) else None)
            && (id in r.world.db.jobs <==> !AnyRemoves(second, owner, id) && !AnyRemoves(third, owner, id))
  {
    RunKeepsRunning(w, first, owner, id);
    var done := RowDone(Play(w, first), id, at, canceled, message);
    FinishedRowGoesIff(done, second, owner, id);
    if !AnyRemoves(second, owner, id) {
      FinishedRowGoesIff(Play(done, second), third, owner, id);
    }
  }

  // ---------------------------------------------------------------- a read that discards

  /** The operation adds a record to job `id`, which is `owner`'s. */
  ghost predicate Appends(op: Op, owner: string, id: string) {
    || (op.Output? && op.id == id && op.data != [])
    || (op.CompleteTransfer? && op.id == id && op.owner == owner)
  }

  ghost predicate AnyAppends(ops: seq<Op>, owner: string, id: string) {
    exists i :: 0 <= i < |ops| && Appends(ops[i], owner, id)
  }

  /** How one operation can change the rows and the sequence counter of a job that it does not remove. */
  ghost predicate RowsMove(w: World, w': World, id: string, appends: bool)
    requires id in w.db.jobs && id in w'.db.jobs
  {
    && w'.db.jobs[id].owner == w.db.jobs[id].owner
    && if appends then w'.db.jobs[id].nextSequence > w.db.jobs[id].nextSequence
       else
         && w'.db.jobs[id].nextSequence == w.db.jobs[id].nextSequence
         && (RowsOf(w'.db.output, id) == RowsOf(w.db.output, id) || RowsOf(w'.db.output, id) == [])
  }

  lemma OwnStepMovesRows(w: World, op: Op, id: string)
    requires id in w.db.jobs && id in Step(w, op).db.jobs && !Creates(op, id)
    requires !op.ClearHistory? && op.id == id
    ensures RowsMove(w, Step(w, op), id, Appends(op, w.db.jobs[id].owner, id))
  {
    if op.Read? {
      RowsOfWithout(w.db.output, {id}, id);
    }
  }

  lemma StepMovesRows(w: World, op: Op, id: string)
    requires id in w.db.jobs && id in Step(w, op).db.jobs && !Creates(op, id)
    ensures RowsMove(w, Step(w, op), id, Appends(op, w.db.jobs[id].owner, id))
  {
    if op.ClearHistory? {
      RowsOfWithout(w.db.output, FinishedOf(w.db, op.owner), id);
    } else if op.id == id {
      OwnStepMovesRows(w, op, id);
    } else {
      StepIsLocal(w, op);
    }
  }

  lemma AnyAppendsSnoc(ops: seq<Op>, owner: string, id: string)
    requires ops != []
    ensures AnyAppends(ops, owner, id) <==>
            AnyAppends(ops[..|ops| - 1], owner, id) || Appends(ops[|ops| - 1], owner, id)
  {
    var init := ops[..|ops| - 1];
    if AnyAppends(init, owner, id) {
      var i :| 0 <= i < |init| && Appends(init[i], owner, id);
      assert Appends(ops[i], owner, id);
    }
    if AnyAppends(ops, owner, id) && !Appends(ops[|ops| - 1], owner, id) {
      var i :| 0 <= i < |ops| && Appends(ops[i], owner, id);
      assert Appends(init[i], owner, id);
    }
  }

  lemma {:induction false} RunMovesRows(w: World, ops: seq<Op>, id: string)
    requires id in w.db.jobs && id in Play(w, ops).db.jobs && NoneCreates(ops, id)
    ensures RowsMove(w, Play(w, ops), id, AnyAppends(ops, w.db.jobs[id].owner, id))
    decreases |ops|
  {
    if ops != [] {
      var init, last := ops[..|ops| - 1], ops[|ops| - 1];
      AnyAppendsSnoc(ops, w.db.jobs[id].owner, id);
      if id !in Play(w, init).db.jobs {
        AbsentStaysAbsent(Play(w, init), last, id);
        assert false;
      }
      RunMovesRows(w, init, id);
      StepMovesRows(Play(w, init), last, id);
    }
  }

  /** What a discard after `ops` deletes was all sent by the query before them. */
  ghost predicate DiscardsOnlySent(w: World, ops: seq<Op>, id: string, offset: int) {
    forall r :: r in RowsOf(Play(w, ops).db.output, id) ==> r in L.FromOffset(RowsOf(w.db.output, id), S.Max0(offset))
  }

  ghost predicate NoneBefore(rows: seq<L.Record>, offset: int) {
    forall r :: r in rows ==> r.offset >= offset
  }

  /** A discarding read sends what its query selects and then deletes what is there. It deletes nothing that
      it did not send exactly if nothing is left to delete, or no record lay before the offset asked for
      and none was appended in between. */
  lemma {:induction false} DiscardsOnlySentIff(w: World, ops: seq<Op>, id: string, offset: int)
    requires Agree(w) && id in w.db.jobs && NoneCreates(ops, id)
    ensures DiscardsOnlySent(w, ops, id, offset) <==>
            || RowsOf(Play(w, ops).db.output, id) == []
            || (!AnyAppends(ops, w.db.jobs[id].owner, id) && NoneBefore(RowsOf(w.db.output, id), S.Max0(offset)))
  {
    var rows, rows' := RowsOf(w.db.output, id), RowsOf(Play(w, ops).db.output, id);
    RunKeepsAgree(w, ops);
    if rows' != [] {
      RunMovesRows(w, ops, id);
      forall r ensures r in L.FromOffset(rows, S.Max0(offset)) <==> r in rows && r.offset >= S.Max0(offset) {
        L.FromOffsetMember(rows, S.Max0(offset), r);
      }
      if AnyAppends(ops, w.db.jobs[id].owner, id) {
        LastIsNew(w.db.jobs[id], rows, Play(w, ops).db.jobs[id], rows');
      } else {
        assert rows'[0] in rows;
      }
    }
  }

  lemma LastIsNew(job: Job, rows: seq<L.Record>, job': Job, rows': seq<L.Record>)
    requires RowsMatch(job, rows) && RowsMatch(job', rows') && rows' != []
    requires job'.nextSequence > job.nextSequence
    ensures rows'[|rows'| - 1] !in rows
  {
    M.RecordsPrecede(job, rows);
  }
}
