/** The execution manager's operations on history, as steps of one world: the tables, and the executions
    this daemon started. */
module History {
  import opened Wrappers
  import opened OutputLog
  import opened Jobs

  /** A managed execution, as far as history operations see it; `exited` once its waiter has run. */
  datatype Live = Live(owner: string, cancelRequested: bool, exited: bool)

  datatype World = World(db: Db, live: map<string, Live>)

  datatype StartOutcome = ProcessFailed(message: string) | PidNotStored | Started(pid: int)

  datatype ManagerError = ErrNotFound | ErrForbidden | ErrRunning | ErrOwnerRequired | ErrStart | ErrStore
                       | ErrTerminate | ErrAlreadyAttached

  datatype Op =
    | Start(owner: string, id: string, kind: Kind, at: int, outcome: StartOutcome)
    | Output(id: string, source: Source, data: seq<byte>)
    | Exit(id: string, at: int, code: int, signal: string)
    | Cancel(owner: string, id: string, terminated: bool)
    | Delete(owner: string, id: string)
    | ClearHistory(owner: string)
    | StartTransfer(owner: string, id: string, kind: Kind, at: int, total: Option<int>)
    | Progress(id: string, bytes: int, total: Option<int>)
    | CompleteTransfer(owner: string, id: string, at: int, canceled: bool, message: string)
    | Read(owner: string, id: string, discard: bool)

  const NO_WORLD := World(EMPTY, map[])

  function NewJob(id: string, owner: string, kind: Kind, at: int, total: Option<int>): Job {
    Job(id, owner, kind, Running, 0, at, None, None, "", "", 0, 0, 0, total)
  }

  /** A message of the daemon's own, as bytes. */
  function Text(s: string): seq<byte> {
    seq(|s|, i requires 0 <= i < |s| => (s[i] as int % 256) as byte)
  }

  /** Rows that are the caller's to touch. */
  function Check(w: World, owner: string, id: string): Option<ManagerError> {
    if id !in w.db.jobs then Some(ErrNotFound)
    else if w.db.jobs[id].owner != owner then Some(ErrForbidden)
    else None
  }

  function CheckLive(w: World, owner: string, id: string): Option<ManagerError> {
    if Check(w, owner, id).Some? then Check(w, owner, id)
    else if id !in w.live then Some(ErrNotFound)
    else None
  }

  /** A finished row of this owner: what clearing history removes. */
  ghost predicate Finished(db: Db, owner: string, id: string) {
    id in db.jobs && db.jobs[id].owner == owner && db.jobs[id].state != Running
  }

  function FinishedOf(db: Db, owner: string): set<string> {
    set id | id in db.jobs && db.jobs[id].owner == owner && db.jobs[id].state != Running
  }

  function RunningOf(db: Db, owner: string): set<string> {
    set id | id in db.jobs && db.jobs[id].owner == owner && db.jobs[id].state == Running
  }

  // ---------------------------------------------------------------- what each operation does

  function StartStep(w: World, owner: string, id: string, kind: Kind, at: int, outcome: StartOutcome): World {
    if owner == "" then w
    else
      match CreateJob(w.db, NewJob(id, owner, kind, at, None))
      case Err(_) => w
      case Ok(db) =>
        match outcome
        case ProcessFailed(message) =>
          w.(db := Or(CompleteJob(db, id, FailedToStart, at, Some(-1), "", message), db))
        case PidNotStored => w.(db := db)
        case Started(pid) =>
          World(Or(UpdateJobProcess(db, id, pid), db), w.live[id := Live(owner, false, false)])
  }

  /** What the exit waiter persists; each execution has one waiter, and it runs once. */
  function ExitStep(w: World, id: string, at: int, code: int, signal: string): World {
    if id !in w.live || w.live[id].exited then w
    else
      var state := if w.live[id].cancelRequested then Canceled else Exited;
      World(Or(CompleteJob(w.db, id, state, at, Some(code), signal, ""), w.db),
            w.live[id := w.live[id].(exited := true)])
  }

  /** The exit code the waiter stores. */
  function ExitCode(code: int, waitFailed: bool): int {
    if waitFailed && code == 0 then -1 else code
  }

  /** What an exit leaves in the row: the code the process gave, except that a failed wait is never stored
      as code zero. */
  ghost predicate ExitStored(row: Job, state: JobState, at: int, code: int, waitFailed: bool, signal: string) {
    && row.state == state && row.endedAt == Some(at) && row.signal == signal && row.error == ""
    && (code != 0 || !waitFailed ==> row.exitCode == Some(code))
    && (code == 0 && waitFailed ==> row.exitCode == Some(-1))
  }

  function DeleteStep(w: World, owner: string, id: string): World {
    if Check(w, owner, id).Some? || w.db.jobs[id].state == Running then w
    else World(Purge(w.db, {id}), w.live - {id})
  }

  function ClearStep(w: World, owner: string): World {
    var removed := FinishedOf(w.db, owner);
    World(Purge(w.db, removed), w.live - removed)
  }

  function StartTransferStep(w: World, owner: string, id: string, kind: Kind, at: int, total: Option<int>): World {
    if owner == "" then w
    else
      match CreateJob(w.db, NewJob(id, owner, kind, at, total))
      case Err(_) => w
      case Ok(db) => w.(db := Or(AppendOutput(db, id, System, Text("transfer started\n")), db))
  }

  function TransferText(message: string): string {
    if message == "" then "transfer completed\n" else "transfer failed: " + message + "\n"
  }

  function CompleteTransferStep(w: World, owner: string, id: string, at: int, canceled: bool, message: string): World {
    if Check(w, owner, id).Some? then w
    else
      var done := Or(CompleteJob(w.db, id, if canceled then Canceled else Exited, at, None, "", message), w.db);
      w.(db := Or(AppendOutput(done, id, System, Text(TransferText(message))), done))
  }

  function Step(w: World, op: Op): World {
    match op
    case Start(owner, id, kind, at, outcome) => StartStep(w, owner, id, kind, at, outcome)
    case Output(id, source, data) => if data == [] then w else w.(db := Or(AppendOutput(w.db, id, source, data), w.db))
    case Exit(id, at, code, signal) => ExitStep(w, id, at, code, signal)
    case Cancel(owner, id, _) =>
      if CheckLive(w, owner, id).Some? then w
      else w.(live := w.live[id := w.live[id].(cancelRequested := true)])
    case Delete(owner, id) => DeleteStep(w, owner, id)
    case ClearHistory(owner) => ClearStep(w, owner)
    case StartTransfer(owner, id, kind, at, total) => StartTransferStep(w, owner, id, kind, at, total)
    case Progress(id, bytes, total) => w.(db := Or(UpdateTransferProgress(w.db, id, bytes, total), w.db))
    case CompleteTransfer(owner, id, at, canceled, message) => CompleteTransferStep(w, owner, id, at, canceled, message)
    case Read(owner, id, discard) =>
      if Check(w, owner, id).Some? || !discard || w.db.jobs[id].state == Running then w
      else w.(db := DeleteOutput(w.db, id))
  }

  function Play(w: World, ops: seq<Op>): World {
    if ops == [] then w else Step(Play(w, ops[..|ops| - 1]), ops[|ops| - 1])
  }

  // ---------------------------------------------------------------- tables and live map agree

  ghost predicate LiveAgrees(db: Db, live: map<string, Live>) {
    forall id :: id in live ==> id in db.jobs && db.jobs[id].owner == live[id].owner
  }

  ghost predicate NoEmptyRows(db: Db) {
    forall id :: NoEmptyRecord(RowsOf(db.output, id))
  }

  ghost predicate Agree(w: World) {
    Consistent(w.db) && NoEmptyRows(w.db) && LiveAgrees(w.db, w.live)
  }

  lemma AppendKeepsNoEmpty(db: Db, id: string, source: Source, data: seq<byte>)
    requires NoEmptyRows(db) && id in db.jobs && data != []
    ensures NoEmptyRows(AppendOutput(db, id, source, data).value)
  {
    forall other ensures NoEmptyRecord(RowsOf(AppendOutput(db, id, source, data).value.output, other)) {
      AppendAddsOneRecord(db, id, source, data, other);
      assert NoEmptyRecord(RowsOf(db.output, other));
    }
  }

  lemma RemovalKeepsNoEmpty(db: Db, removed: set<string>)
    requires NoEmptyRows(db)
    ensures NoEmptyRows(Purge(db, removed))
    ensures NoEmptyRows(db.(output := Without(db.output, removed)))
  {
    forall id ensures NoEmptyRecord(RowsOf(Without(db.output, removed), id)) {
      RowsOfWithout(db.output, removed, id);
      assert NoEmptyRecord(RowsOf(db.output, id));
    }
  }

  /** An append that may find its row gone. */
  lemma OutputKeepsAgree(w: World, id: string, source: Source, data: seq<byte>)
    requires Agree(w) && data != []
    ensures Agree(w.(db := Or(AppendOutput(w.db, id, source, data), w.db)))
  {
    if id in w.db.jobs {
      AppendKeepsConsistent(w.db, id, source, data);
      AppendKeepsNoEmpty(w.db, id, source, data);
    }
  }

  lemma UpdateKeepsAgree(w: World, id: string, job: Job)
    requires Agree(w) && id in w.db.jobs && job.id == id && job.owner == w.db.jobs[id].owner
    requires job.outputSize == w.db.jobs[id].outputSize && job.nextSequence == w.db.jobs[id].nextSequence
    ensures Agree(w.(db := w.db.(jobs := w.db.jobs[id := job])))
  {
    UpdateKeepsConsistent(w.db, id, job);
  }

  lemma CreateKeepsAgree(w: World, job: Job)
    requires Agree(w) && job.id !in w.db.jobs && job.nextSequence == 0
    ensures Agree(w.(db := w.db.(jobs := w.db.jobs[job.id := job])))
  {
    CreateJobKeepsConsistent(w.db, job);
  }

  lemma StartKeepsAgree(w: World, owner: string, id: string, kind: Kind, at: int, outcome: StartOutcome)
    requires Agree(w)
    ensures Agree(StartStep(w, owner, id, kind, at, outcome))
  {
    if owner != "" && id !in w.db.jobs {
      var job := NewJob(id, owner, kind, at, None);
      CreateKeepsAgree(w, job);
      var created := w.(db := w.db.(jobs := w.db.jobs[id := job]));
      match outcome
      case ProcessFailed(message) =>
        UpdateKeepsAgree(created, id,
                         CompleteJob(created.db, id, FailedToStart, at, Some(-1), "", message).value.jobs[id]);
      case PidNotStored =>
      case Started(pid) =>
        UpdateKeepsAgree(created, id, job.(pid := pid));
    }
  }

  lemma StartTransferKeepsAgree(w: World, owner: string, id: string, kind: Kind, at: int, total: Option<int>)
    requires Agree(w)
    ensures Agree(StartTransferStep(w, owner, id, kind, at, total))
  {
    if owner != "" && id !in w.db.jobs {
      var job := NewJob(id, owner, kind, at, total);
      CreateKeepsAgree(w, job);
      OutputKeepsAgree(w.(db := w.db.(jobs := w.db.jobs[id := job])), id, System, Text("transfer started\n"));
    }
  }

  lemma CompleteTransferKeepsAgree(w: World, owner: string, id: string, at: int, canceled: bool, message: string)
    requires Agree(w)
    ensures Agree(CompleteTransferStep(w, owner, id, at, canceled, message))
  {
    if Check(w, owner, id).None? {
      var done := CompleteJob(w.db, id, if canceled then Canceled else Exited, at, None, "", message).value;
      UpdateKeepsAgree(w, id, done.jobs[id]);
      assert |TransferText(message)| > 0;
      OutputKeepsAgree(w.(db := done), id, System, Text(TransferText(message)));
    }
  }

  lemma RemovalKeepsAgree(w: World, op: Op)
    requires Agree(w) && (op.Delete? || op.ClearHistory? || op.Read?)
    ensures Agree(Step(w, op))
  {
    var removed := if op.ClearHistory? then FinishedOf(w.db, op.owner) else {op.id};
    RemovalKeepsConsistent(w.db, removed);
    RemovalKeepsNoEmpty(w.db, removed);
  }

  lemma OutputStepKeepsAgree(w: World, id: string, source: Source, data: seq<byte>)
    requires Agree(w)
    ensures Agree(Step(w, Output(id, source, data)))
  {
    if data != [] {
      OutputKeepsAgree(w, id, source, data);
    }
  }

  lemma ExitKeepsAgree(w: World, id: string, at: int, code: int, signal: string)
    requires Agree(w)
    ensures Agree(ExitStep(w, id, at, code, signal))
  {
    if id in w.live && !w.live[id].exited {
      UpdateKeepsAgree(w, id, ExitStep(w, id, at, code, signal).db.jobs[id]);
    }
  }

  lemma CancelKeepsAgree(w: World, owner: string, id: string, terminated: bool)
    requires Agree(w)
    ensures Agree(Step(w, Cancel(owner, id, terminated)))
  {
  }

  lemma ProgressKeepsAgree(w: World, id: string, bytes: int, total: Option<int>)
    requires Agree(w)
    ensures Agree(Step(w, Progress(id, bytes, total)))
  {
    if id in w.db.jobs {
      var job := w.db.jobs[id].(progress := bytes, total := if total.Some? then total else w.db.jobs[id].total);
      UpdateKeepsAgree(w, id, job);
      assert Step(w, Progress(id, bytes, total)) == w.(db := w.db.(jobs := w.db.jobs[id := job]));
    }
  }

  /** Every operation keeps tables and live map in agreement. */
  lemma {:induction false} StepKeepsAgree(w: World, op: Op)
    requires Agree(w)
    ensures Agree(Step(w, op))
  {
    match op
    case Start(owner, id, kind, at, outcome) => StartKeepsAgree(w, owner, id, kind, at, outcome);
    case Output(id, source, data) => OutputStepKeepsAgree(w, id, source, data);
    case Exit(id, at, code, signal) => ExitKeepsAgree(w, id, at, code, signal);
    case Cancel(owner, id, terminated) => CancelKeepsAgree(w, owner, id, terminated);
    case Progress(id, bytes, total) => ProgressKeepsAgree(w, id, bytes, total);
    case StartTransfer(owner, id, kind, at, total) => StartTransferKeepsAgree(w, owner, id, kind, at, total);
    case CompleteTransfer(owner, id, at, canceled, message) =>
      CompleteTransferKeepsAgree(w, owner, id, at, canceled, message);
    case Delete(_, _) | ClearHistory(_) | Read(_, _, _) => RemovalKeepsAgree(w, op);
  }

  lemma {:induction false} RunKeepsAgree(w: World, ops: seq<Op>)
    requires Agree(w)
    ensures Agree(Play(w, ops))
    decreases |ops|
  {
    if ops != [] {
      RunKeepsAgree(w, ops[..|ops| - 1]);
      StepKeepsAgree(Play(w, ops[..|ops| - 1]), ops[|ops| - 1]);
    }
  }

  /** In every state that operations lead to: each live execution has a row with the same owner, every
      output row has its job row, and each job's output is one consecutive, abutting run of non-empty
      records that ends at the job's counters. */
  lemma {:induction false} ReachableAgree(ops: seq<Op>)
    ensures Agree(Play(NO_WORLD, ops))
  {
    RunKeepsAgree(NO_WORLD, ops);
  }

  /** No operation removes a running row, returns a job to running, or gives a row to another owner. */
  lemma {:induction false} StepKeepsRunningRows(w: World, op: Op, id: string)
    requires id in w.db.jobs
    ensures w.db.jobs[id].state == Running ==> id in Step(w, op).db.jobs
    ensures id in Step(w, op).db.jobs ==>
              && Step(w, op).db.jobs[id].owner == w.db.jobs[id].owner
              && Step(w, op).db.jobs[id].startedAt == w.db.jobs[id].startedAt
              && (w.db.jobs[id].state != Running ==> Step(w, op).db.jobs[id].state != Running)
  {
  }

  ghost predicate Creates(op: Op, id: string) {
    (op.Start? || op.StartTransfer?) && op.id == id
  }

  lemma AbsentStaysAbsent(w: World, op: Op, id: string)
    requires id !in w.db.jobs && !Creates(op, id)
    ensures id !in Step(w, op).db.jobs
  {
  }

  /** Over whole runs: a row that is finished, or gone, never runs again unless its id is issued anew. */
  lemma {:induction false} FinishedNeverRunsAgain(w: World, ops: seq<Op>, id: string)
    requires id in w.db.jobs ==> w.db.jobs[id].state != Running
    requires forall op :: op in ops ==> !Creates(op, id)
    ensures id in Play(w, ops).db.jobs ==> Play(w, ops).db.jobs[id].state != Running
    decreases |ops|
  {
    if ops != [] {
      var before := Play(w, ops[..|ops| - 1]);
      FinishedNeverRunsAgain(w, ops[..|ops| - 1], id);
      assert !Creates(ops[|ops| - 1], id);
      if id in before.db.jobs {
        StepKeepsRunningRows(before, ops[|ops| - 1], id);
      }
    }
  }

  // ---------------------------------------------------------------- a verdict is written once

  /** An execution's row is finished exactly if its waiter has run. */
  ghost predicate ExitsAgree(w: World) {
    forall id :: id in w.live ==>
      id in w.db.jobs && (w.db.jobs[id].state != Running <==> w.live[id].exited)
  }

  /** Completing a transfer is called with the ids of transfers. */
  ghost predicate OnTransfers(w: World, op: Op) {
    op.CompleteTransfer? ==> op.id !in w.live
  }

  lemma StepKeepsExitsAgree(w: World, op: Op)
    requires ExitsAgree(w) && OnTransfers(w, op)
    ensures ExitsAgree(Step(w, op))
  {
    match op
    case Start(_, _, _, _, outcome) =>
    case Exit(_, _, _, _) =>
    case ClearHistory(_) =>
    case _ =>
  }

  ghost predicate AllOnTransfers(w: World, ops: seq<Op>) {
    forall i :: 0 <= i < |ops| ==> OnTransfers(Play(w, ops[..i]), ops[i])
  }

  lemma OnTransfersInit(w: World, ops: seq<Op>)
    requires AllOnTransfers(w, ops) && ops != []
    ensures AllOnTransfers(w, ops[..|ops| - 1]) && OnTransfers(Play(w, ops[..|ops| - 1]), ops[|ops| - 1])
  {
    var init := ops[..|ops| - 1];
    forall i | 0 <= i < |init| ensures OnTransfers(Play(w, init[..i]), init[i]) {
      assert init[..i] == ops[..i];
    }
  }

  /** In every reachable state an execution's row is finished exactly if its waiter has run. */
  lemma {:induction false} RunKeepsExitsAgree(w: World, ops: seq<Op>)
    requires ExitsAgree(w) && AllOnTransfers(w, ops)
    ensures ExitsAgree(Play(w, ops))
    decreases |ops|
  {
    if ops != [] {
      OnTransfersInit(w, ops);
      RunKeepsExitsAgree(w, ops[..|ops| - 1]);
      StepKeepsExitsAgree(Play(w, ops[..|ops| - 1]), ops[|ops| - 1]);
    }
  }

  ghost predicate HasVerdict(w: World, id: string, row: Job) {
    id in w.db.jobs ==>
      && id in w.live && w.live[id].exited
      && w.db.jobs[id].state == row.state && w.db.jobs[id].exitCode == row.exitCode
      && w.db.jobs[id].endedAt == row.endedAt && w.db.jobs[id].signal == row.signal
  }

  lemma StepKeepsVerdict(w: World, op: Op, id: string, row: Job)
    requires HasVerdict(w, id, row) && OnTransfers(w, op) && !Creates(op, id)
    ensures HasVerdict(Step(w, op), id, row)
  {
  }

  /** What the waiter wrote is final: over whole runs, later cancels, exits and transfers included, an exited
      execution keeps its state, exit code, end and signal for as long as its row exists. */
  lemma {:induction false} VerdictIsFinal(w: World, ops: seq<Op>, id: string, row: Job)
    requires HasVerdict(w, id, row) && AllOnTransfers(w, ops)
    requires forall op :: op in ops ==> !Creates(op, id)
    ensures HasVerdict(Play(w, ops), id, row)
    decreases |ops|
  {
    if ops != [] {
      OnTransfersInit(w, ops);
      VerdictIsFinal(w, ops[..|ops| - 1], id, row);
      assert !Creates(ops[|ops| - 1], id);
      StepKeepsVerdict(Play(w, ops[..|ops| - 1]), ops[|ops| - 1], id, row);
    }
  }

  // ---------------------------------------------------------------- owners do not see each other

  ghost predicate Owns(w: World, owner: string, id: string) {
    id in w.db.jobs && w.db.jobs[id].owner == owner
  }

  /** The owner's rows, their output and their live executions are the same in both worlds. */
  ghost predicate SameFor(owner: string, a: World, b: World) {
    forall id :: (Owns(a, owner, id) <==> Owns(b, owner, id)) &&
                 (Owns(a, owner, id) ==>
                    && a.db.jobs[id] == b.db.jobs[id]
                    && RowsOf(a.db.output, id) == RowsOf(b.db.output, id)
                    && (id in a.live <==> id in b.live)
                    && (id in a.live ==> a.live[id] == b.live[id]))
  }

  /** Who acts: the caller, or the owner of the row an execution or transfer works on. */
  function Actor(w: World, op: Op): Option<string> {
    match op
    case Output(id, _, _) => if id in w.db.jobs then Some(w.db.jobs[id].owner) else None
    case Exit(id, _, _, _) => if id in w.db.jobs then Some(w.db.jobs[id].owner) else None
    case Progress(id, _, _) => if id in w.db.jobs then Some(w.db.jobs[id].owner) else None
    case _ => Some(op.owner)
  }

  /** Only row `id` of the tables and of the live map may differ. */
  ghost predicate SameExcept(id: string, a: World, b: World) {
    forall other :: other != id ==>
      && (other in a.db.jobs <==> other in b.db.jobs)
      && (other in a.db.jobs ==> a.db.jobs[other] == b.db.jobs[other])
      && RowsOf(a.db.output, other) == RowsOf(b.db.output, other)
      && (other in a.live <==> other in b.live)
      && (other in a.live ==> a.live[other] == b.live[other])
  }

  lemma AppendIsLocal(w: World, id: string, source: Source, data: seq<byte>)
    ensures SameExcept(id, w, w.(db := Or(AppendOutput(w.db, id, source, data), w.db)))
  {
    if id in w.db.jobs {
      forall other ensures RowsOf(AppendOutput(w.db, id, source, data).value.output, other) ==
                           RowsOf(w.db.output, other) +
                           if other == id then [NextRecord(w.db.jobs[id], source, data)] else []
      {
        AppendAddsOneRecord(w.db, id, source, data, other);
      }
    }
  }

  lemma RemovalIsLocal(w: World, id: string)
    ensures SameExcept(id, w, World(Purge(w.db, {id}), w.live - {id}))
    ensures SameExcept(id, w, w.(db := DeleteOutput(w.db, id)))
  {
    forall other | other != id ensures RowsOf(Without(w.db.output, {id}), other) == RowsOf(w.db.output, other) {
      RowsOfWithout(w.db.output, {id}, other);
    }
  }

  lemma StartTransferIsLocal(w: World, owner: string, id: string, kind: Kind, at: int, total: Option<int>)
    ensures SameExcept(id, w, StartTransferStep(w, owner, id, kind, at, total))
  {
    var created := w.(db := Or(CreateJob(w.db, NewJob(id, owner, kind, at, total)), w.db));
    AppendIsLocal(created, id, System, Text("transfer started\n"));
  }

  lemma CompleteTransferIsLocal(w: World, owner: string, id: string, at: int, canceled: bool, message: string)
    ensures SameExcept(id, w, CompleteTransferStep(w, owner, id, at, canceled, message))
  {
    var done := Or(CompleteJob(w.db, id, if canceled then Canceled else Exited, at, None, "", message), w.db);
    AppendIsLocal(w.(db := done), id, System, Text(TransferText(message)));
  }

  lemma ColumnsAreLocal(w: World, op: Op)
    requires op.Start? || op.Exit? || op.Cancel? || op.Progress?
    ensures SameExcept(op.id, w, Step(w, op))
  {
    match op
    case Start(owner, id, kind, at, outcome) => assert Step(w, op).db.output == w.db.output;
    case Exit(_, _, _, _) => assert Step(w, op).db.output == w.db.output;
    case Cancel(_, _, _) =>
    case Progress(_, _, _) =>
  }

  /** Every operation but clearing history touches only the row it names. */
  lemma StepIsLocal(w: World, op: Op)
    requires !op.ClearHistory?
    ensures SameExcept(op.id, w, Step(w, op))
  {
    match op
    case Output(id, source, data) => AppendIsLocal(w, id, source, data);
    case Delete(_, id) => RemovalIsLocal(w, id);
    case Read(_, id, _) => RemovalIsLocal(w, id);
    case StartTransfer(owner, id, kind, at, total) => StartTransferIsLocal(w, owner, id, kind, at, total);
    case CompleteTransfer(owner, id, at, canceled, message) =>
      CompleteTransferIsLocal(w, owner, id, at, canceled, message);
    case _ => ColumnsAreLocal(w, op);
  }

  lemma ForeignRowIsUntouched(w: World, op: Op, owner: string)
    requires Actor(w, op) != Some(owner) && !op.ClearHistory? && Owns(w, owner, op.id)
    ensures Step(w, op) == w
  {
  }

  lemma NewRowIsTheActors(w: World, op: Op, owner: string)
    requires Actor(w, op) != Some(owner) && !op.ClearHistory? && !Owns(w, owner, op.id)
    ensures !Owns(Step(w, op), owner, op.id)
  {
  }

  lemma ClearIsTheActors(w: World, actor: string, owner: string)
    requires actor != owner
    ensures SameFor(owner, w, ClearStep(w, actor))
  {
    var removed := FinishedOf(w.db, actor);
    forall id ensures RowsOf(Without(w.db.output, removed), id) ==
                      if id in removed then [] else RowsOf(w.db.output, id)
    {
      RowsOfWithout(w.db.output, removed, id);
    }
  }

  /** One operation of another actor changes nothing an owner has. */
  lemma {:induction false} StepFramesOwners(w: World, op: Op, owner: string)
    requires Actor(w, op) != Some(owner)
    ensures SameFor(owner, w, Step(w, op))
  {
    if op.ClearHistory? {
      ClearIsTheActors(w, op.owner, owner);
    } else {
      StepIsLocal(w, op);
      if Owns(w, owner, op.id) {
        ForeignRowIsUntouched(w, op, owner);
      } else {
        NewRowIsTheActors(w, op, owner);
      }
    }
  }

  ghost predicate NeverActs(w: World, ops: seq<Op>, owner: string) {
    forall i :: 0 <= i < |ops| ==> Actor(Play(w, ops[..i]), ops[i]) != Some(owner)
  }

  /** Over whole runs: operations of others leave an owner's rows, output and live executions unchanged. */
  lemma {:induction false} RunFramesOwners(w: World, ops: seq<Op>, owner: string)
    requires NeverActs(w, ops, owner)
    ensures SameFor(owner, w, Play(w, ops))
    decreases |ops|
  {
    if ops != [] {
      var init := ops[..|ops| - 1];
      forall i | 0 <= i < |init| ensures Actor(Play(w, init[..i]), init[i]) != Some(owner) {
        assert ops[..i] == init[..i];
      }
      RunFramesOwners(w, init, owner);
      StepFramesOwners(Play(w, init), ops[|ops| - 1], owner);
    }
  }

  /** Clearing history removes exactly the owner's finished rows, with all their output, and nothing else. */
  lemma {:induction false} ClearRemovesExactlyFinished(w: World, owner: string, id: string)
    requires Agree(w)
    ensures var r := ClearStep(w, owner);
            && (id in r.db.jobs <==> id in w.db.jobs && !Finished(w.db, owner, id))
            && (id in r.db.jobs ==> r.db.jobs[id] == w.db.jobs[id])
            && RowsOf(r.db.output, id) == (if Finished(w.db, owner, id) then [] else RowsOf(w.db.output, id))
            && (id in r.live <==> id in w.live && !Finished(w.db, owner, id))
  {
    RowsOfWithout(w.db.output, FinishedOf(w.db, owner), id);
  }
}
