/** Clearing history as it runs: the rows are listed once, then deleted one at a time, and other callers'
    operations come in between. */
module Clearing {
  import opened Jobs
  import opened History
  import M = Manager
  import S = Store

  /** The loop's state: the world, the rows still to visit, and how the visited ones went. */
  datatype Clearing = Clearing(world: World, todo: seq<Job>, deleted: nat, skipped: nat, missing: nat)

  datatype Turn = Elsewhere(op: Op) | NextRow

  /** One pass of the loop: a row listed as running is skipped; any other is deleted by its id alone, and
      one that is gone by then is passed over. */
  function Visit(c: Clearing): Clearing {
    if c.todo == [] then c
    else
      var row, rest := c.todo[0], c.todo[1..];
      if row.state == Running then c.(todo := rest, skipped := c.skipped + 1)
      else if row.id !in c.world.db.jobs then c.(todo := rest, missing := c.missing + 1)
      else c.(world := M.Purged(c.world, {row.id}), todo := rest, deleted := c.deleted + 1)
  }

  function Take(c: Clearing, turn: Turn): Clearing {
    match turn
    case Elsewhere(op) => c.(world := Step(c.world, op))
    case NextRow => Visit(c)
  }

  function Run(c: Clearing, turns: seq<Turn>): Clearing {
    if turns == [] then c else Take(Run(c, turns[..|turns| - 1]), turns[|turns| - 1])
  }

  function Start(w: World, rows: seq<Job>): Clearing {
    Clearing(w, rows, 0, 0, 0)
  }

  function CountRunning(rows: seq<Job>): nat {
    if rows == [] then 0
    else CountRunning(rows[..|rows| - 1]) + if rows[|rows| - 1].state == Running then 1 else 0
  }

  /** The rows are the owner's, as they stood when they were listed. */
  ghost predicate Listed(w: World, owner: string, rows: seq<Job>) {
    forall i :: 0 <= i < |rows| ==>
      rows[i].id in w.db.jobs && w.db.jobs[rows[i].id] == rows[i] && rows[i].owner == owner
  }

  /** Ids are not issued twice. */
  ghost predicate NoReissue(rows: seq<Job>, turn: Turn) {
    turn.Elsewhere? ==> forall i :: 0 <= i < |rows| ==> !Creates(turn.op, rows[i].id)
  }

  // ---------------------------------------------------------------- what every interleaving keeps

  /** A row listed as finished is still that, or gone. */
  ghost predicate StaysFinished(w: World, owner: string, row: Job) {
    row.state != Running && row.id in w.db.jobs ==> Finished(w.db, owner, row.id)
  }

  ghost predicate Good(c: Clearing, owner: string, rows: seq<Job>) {
    && |c.todo| <= |rows| && c.todo == rows[|rows| - |c.todo|..]
    && c.skipped == CountRunning(rows[..|rows| - |c.todo|])
    && c.deleted + c.skipped + c.missing == |rows| - |c.todo|
    && (forall i :: 0 <= i < |rows| ==> StaysFinished(c.world, owner, rows[i]))
    && (forall i :: 0 <= i < |rows| - |c.todo| && rows[i].state != Running ==> rows[i].id !in c.world.db.jobs)
  }

  lemma StepKeepsFinished(w: World, op: Op, owner: string, row: Job)
    requires StaysFinished(w, owner, row) && !Creates(op, row.id)
    ensures StaysFinished(Step(w, op), owner, row)
  {
    if row.id in w.db.jobs {
      StepKeepsRunningRows(w, op, row.id);
    } else {
      AbsentStaysAbsent(w, op, row.id);
    }
  }

  lemma ElsewhereKeepsGood(c: Clearing, op: Op, owner: string, rows: seq<Job>)
    requires Good(c, owner, rows) && NoReissue(rows, Elsewhere(op))
    ensures Good(Take(c, Elsewhere(op)), owner, rows)
  {
    forall i | 0 <= i < |rows| ensures StaysFinished(Step(c.world, op), owner, rows[i]) {
      StepKeepsFinished(c.world, op, owner, rows[i]);
    }
    forall i | 0 <= i < |rows| - |c.todo| && rows[i].state != Running
      ensures rows[i].id !in Step(c.world, op).db.jobs
    {
      AbsentStaysAbsent(c.world, op, rows[i].id);
    }
  }

  lemma VisitKeepsGood(c: Clearing, owner: string, rows: seq<Job>)
    requires Good(c, owner, rows)
    ensures Good(Visit(c), owner, rows)
  {
    if c.todo != [] {
      var n := |rows| - |c.todo|;
      assert c.todo[0] == rows[n] && c.todo[1..] == rows[n + 1..];
      assert rows[..n + 1][..n] == rows[..n];
    }
  }

  /** A visit removes nothing, or exactly one row with its output and execution, which at that very moment
      is a finished row of the owner: never a running row, never another owner's. It counts that row as
      deleted exactly if it was still there. */
  lemma {:induction false} VisitDeletesOnlyFinished(c: Clearing, owner: string, rows: seq<Job>, other: string)
    requires Good(c, owner, rows) && c.todo != []
    ensures var row, next := c.todo[0], Visit(c);
            && (next.deleted == c.deleted + 1 <==> row.state != Running && row.id in c.world.db.jobs)
            && (next.deleted == c.deleted + 1 ==>
                  Finished(c.world.db, owner, row.id) && next.world == M.Purged(c.world, {row.id}))
            && (next.deleted != c.deleted + 1 ==> next.world == c.world)
            && (other != owner ==> SameFor(other, c.world, next.world))
  {
    var row := c.todo[0];
    assert row == rows[|rows| - |c.todo|];
    assert StaysFinished(c.world, owner, row);
    if row.state != Running && row.id in c.world.db.jobs {
      RemovalIsLocal(c.world, row.id);
    }
  }

  lemma StartIsGood(w: World, owner: string, rows: seq<Job>)
    requires Listed(w, owner, rows)
    ensures Good(Start(w, rows), owner, rows)
  {
    assert rows[..0] == [] && rows[0..] == rows;
  }

  lemma {:induction false} RunKeepsGood(c: Clearing, owner: string, rows: seq<Job>, turns: seq<Turn>)
    requires Good(c, owner, rows) && forall turn :: turn in turns ==> NoReissue(rows, turn)
    ensures Good(Run(c, turns), owner, rows)
    decreases |turns|
  {
    if turns != [] {
      var init, last := turns[..|turns| - 1], turns[|turns| - 1];
      RunKeepsGood(c, owner, rows, init);
      assert NoReissue(rows, last);
      TakeKeepsGood(Run(c, init), last, owner, rows);
    }
  }

  lemma TakeKeepsGood(c: Clearing, turn: Turn, owner: string, rows: seq<Job>)
    requires Good(c, owner, rows) && NoReissue(rows, turn)
    ensures Good(Take(c, turn), owner, rows)
  {
    match turn
    case Elsewhere(op) => ElsewhereKeepsGood(c, op, owner, rows);
    case NextRow => VisitKeepsGood(c, owner, rows);
  }

  /** Clearing interleaved with any operations of anybody: once every row was visited, no row listed as
      finished is left; the rows counted as skipped are exactly those listed as running, whatever became of
      them; and each other row was deleted by this loop or was found to be gone. */
  lemma {:induction false} InterleavedClear(w: World, owner: string, rows: seq<Job>, turns: seq<Turn>)
    requires Listed(w, owner, rows) && forall turn :: turn in turns ==> NoReissue(rows, turn)
    requires Run(Start(w, rows), turns).todo == []
    ensures var c := Run(Start(w, rows), turns);
            && (forall i :: 0 <= i < |rows| && rows[i].state != Running ==> rows[i].id !in c.world.db.jobs)
            && c.skipped == CountRunning(rows) && c.deleted + c.missing == |rows| - CountRunning(rows)
  {
    StartIsGood(w, owner, rows);
    RunKeepsGood(Start(w, rows), owner, rows, turns);
    GoodAtTheEnd(Run(Start(w, rows), turns), owner, rows);
  }

  lemma GoodAtTheEnd(c: Clearing, owner: string, rows: seq<Job>)
    requires Good(c, owner, rows) && c.todo == []
    ensures forall i :: 0 <= i < |rows| && rows[i].state != Running ==> rows[i].id !in c.world.db.jobs
    ensures c.skipped == CountRunning(rows) && c.deleted + c.missing == |rows| - CountRunning(rows)
  {
    assert rows[..|rows|] == rows;
  }

  // ---------------------------------------------------------------- run alone, it is the atomic step

  function Visits(n: nat): (r: seq<Turn>)
    ensures |r| == n
  {
    if n == 0 then [] else Visits(n - 1) + [NextRow]
  }

  /** The loop after `n` rows with nothing in between. */
  function Alone(w: World, rows: seq<Job>, n: nat): Clearing
    requires n <= |rows|
  {
    Clearing(M.Purged(w, M.Marked(rows[..n], false)), rows[n..],
             |M.Marked(rows[..n], false)|, |M.Marked(rows[..n], true)|, 0)
  }

  lemma VisitAlone(w: World, rows: seq<Job>, n: nat)
    requires n < |rows| && M.ListsOnce(rows, w.db.jobs)
    ensures Visit(Alone(w, rows, n)) == Alone(w, rows, n + 1)
  {
    M.MarkOneMore(rows, n, w.db.jobs);
    M.PurgeOneMore(w, M.Marked(rows[..n], false), rows[n].id);
  }

  lemma VisitsSnoc(c: Clearing, n: nat)
    ensures Run(c, Visits(n + 1)) == Visit(Run(c, Visits(n)))
  {
    assert Visits(n + 1)[..n] == Visits(n);
  }

  lemma NextAlone(c: Clearing, w: World, rows: seq<Job>, n: nat)
    requires n < |rows| && M.ListsOnce(rows, w.db.jobs) && Run(c, Visits(n)) == Alone(w, rows, n)
    ensures Run(c, Visits(n + 1)) == Alone(w, rows, n + 1)
  {
    VisitsSnoc(c, n);
    VisitAlone(w, rows, n);
  }

  lemma StartIsAlone(w: World, rows: seq<Job>)
    ensures Start(w, rows) == Alone(w, rows, 0)
  {
    M.PurgeNothing(w);
    assert rows[..0] == [] && rows[0..] == rows;
  }

  lemma {:induction false} VisitsAlone(w: World, rows: seq<Job>, n: nat)
    requires n <= |rows| && M.ListsOnce(rows, w.db.jobs)
    ensures Run(Start(w, rows), Visits(n)) == Alone(w, rows, n)
    decreases n
  {
    if n == 0 {
      StartIsAlone(w, rows);
    } else {
      VisitsAlone(w, rows, n - 1);
      NextAlone(Start(w, rows), w, rows, n - 1);
    }
  }

  /** With nothing in between, visiting every listed row is the one step of `History`, and the counts are
      the numbers of finished and of running rows. */
  lemma {:induction false} ClearedAlone(w: World, owner: string, rows: seq<Job>)
    requires Consistent(w.db) && S.IsListing(rows, w.db.jobs, S.WantedIds(w.db.jobs, owner, false), {})
    ensures Run(Start(w, rows), Visits(|rows|)) ==
            Clearing(Step(w, Op.ClearHistory(owner)), [], |FinishedOf(w.db, owner)|, |RunningOf(w.db, owner)|, 0)
  {
    M.ListedIds(rows, w.db, owner);
    VisitsAlone(w, rows, |rows|);
    M.ClearIsPurge(w, owner);
    assert rows[..|rows|] == rows;
  }
}
