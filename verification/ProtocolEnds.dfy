/** What can no longer happen: when a job's output is over, and how the loop of a session whose channel was
    closed comes to its end, over every continuation of a run. */
module ProtocolEnds {
  import opened OutputLog
  import opened Wrappers
  import opened Jobs
  import opened Protocol
  import opened ProtocolInvariant
  import opened ProtocolTheorems

  // ---------------------------------------------------------------- when the output is over

  /** This goroutine appends nothing more: it has returned, or all it can still do is send on a channel
      that is closed. */
  ghost predicate Spent(capture: Capture, sessions: seq<Session>) {
    || capture == Returned
    || (capture.Sending? && capture.session < |sessions| && sessions[capture.session].closed)
  }

  ghost predicate AllSpent(s: State) {
    forall c :: c in s.captures ==> Spent(s.captures[c], s.sessions)
  }

  /** No step of the daemon can add output to the job: it panicked, the job's row is gone, or every capture
      goroutine is spent. */
  ghost predicate OutputIsOver(s: State) {
    s.panicked || !s.present || AllSpent(s)
  }

  /** However the run goes on, what has been appended by now is all that ever will be. */
  ghost predicate NoMoreOutput(m: State) {
    forall rest: seq<Action>, s: State :: Exec(m, rest) == Some(s) ==> s.log == m.log
  }

  /** No channel reopens. */
  ghost predicate ClosedStay(before: seq<Session>, after: seq<Session>) {
    |before| <= |after| && forall k :: 0 <= k < |before| && before[k].closed ==> after[k].closed
  }

  lemma SpentStay(captures: map<Source, Capture>, before: seq<Session>, after: seq<Session>)
    requires ClosedStay(before, after)
    ensures (forall c :: c in captures ==> Spent(captures[c], before)) ==>
              forall c :: c in captures ==> Spent(captures[c], after)
  {
  }

  lemma CaptureStepStaysOver(s: State, a: Action)
    requires Enabled(s, a) && OutputIsOver(s)
    requires a.AppendRow? || a.Count? || a.ReadSubscriber? || a.Send? || a.CaptureReturns?
    ensures Apply(s, a).log == s.log && OutputIsOver(Apply(s, a))
  {
    if s.present {
      assert Spent(s.captures[a.source], s.sessions);
    }
  }

  lemma SendEofReopensNothing(s: State)
    requires Enabled(s, SendEof)
    ensures var s' := Apply(s, SendEof);
            && ClosedStay(s.sessions, s'.sessions)
            && s'.captures == s.captures && s'.log == s.log && s'.present == s.present
  {
  }

  lemma CloseReopensNothing(s: State)
    requires Enabled(s, CloseChannel)
    ensures var s' := Apply(s, CloseChannel);
            && ClosedStay(s.sessions, s'.sessions)
            && s'.captures == s.captures && s'.log == s.log && s'.present == s.present
  {
  }

  lemma SessionStepAppendsNothing(s: State, a: Action)
    requires Enabled(s, a) && (a.Attach? || a.ReplayQuery? || a.Receive? || a.Leave? || a.Detach?)
    ensures Apply(s, a).log == s.log && Apply(s, a).present == s.present
  {
  }

  lemma StepStaysOver(s: State, a: Action)
    requires Enabled(s, a) && OutputIsOver(s)
    ensures Apply(s, a).log == s.log && OutputIsOver(Apply(s, a))
  {
    match a
    case AppendRow(_, _) | Count(_) | ReadSubscriber(_) | Send(_) | CaptureReturns(_) => CaptureStepStaysOver(s, a);
    case Attach(_, _) | ReplayQuery(_) | Receive(_) | Leave(_) | Detach(_) =>
      SessionStepClosesNothing(s, a);
      SessionStepAppendsNothing(s, a);
      SpentStay(s.captures, s.sessions, Apply(s, a).sessions);
    case SendEof =>
      SendEofReopensNothing(s);
      SpentStay(s.captures, s.sessions, Apply(s, a).sessions);
    case CloseChannel =>
      CloseReopensNothing(s);
      SpentStay(s.captures, s.sessions, Apply(s, a).sessions);
    case _ => OthersMoveNoSession(s, a);
  }

  lemma {:induction false} RunStaysOver(m: State, rest: seq<Action>, s: State)
    requires OutputIsOver(m) && Exec(m, rest) == Some(s)
    ensures s.log == m.log && OutputIsOver(s)
    decreases |rest|
  {
    if rest != [] {
      var before := Exec(m, rest[..|rest| - 1]).value;
      RunStaysOver(m, rest[..|rest| - 1], before);
      StepStaysOver(before, rest[|rest| - 1]);
    }
  }

  /** How many steps a goroutine is from its next read. */
  function StepsToIdle(capture: Capture): nat {
    match capture
    case Stored(_) => 3
    case Counted(_) => 2
    case Sending(_, _) => 1
    case _ => 0
  }

  function NextStep(capture: Capture, c: Source): Action {
    match capture
    case Stored(_) => Count(c)
    case Counted(_) => ReadSubscriber(c)
    case _ => Send(c)
  }

  /** A goroutine that is not spent gets on with the record it holds. */
  lemma UnspentMovesOn(m: State, c: Source)
    requires Inv(m) && !m.panicked && c in m.captures && Holding(m.captures[c])
    requires !Spent(m.captures[c], m.sessions)
    ensures var a := NextStep(m.captures[c], c);
            && Enabled(m, a)
            && var next := Apply(m, a);
            && !next.panicked && next.present == m.present && next.log == m.log && c in next.captures
            && !Spent(next.captures[c], next.sessions)
            && StepsToIdle(next.captures[c]) < StepsToIdle(m.captures[c])
  {
    GuardsAreProgramCounters(m, c);
    if m.subscriber.Some? {
      SubscriberIsOpen(m);
    }
  }

  /** It can then store one more record. */
  lemma {:induction false} UnspentAppends(m: State, c: Source) returns (rest: seq<Action>, s: State)
    requires Inv(m) && !m.panicked && m.present && c in m.captures && !Spent(m.captures[c], m.sessions)
    ensures Exec(m, rest) == Some(s) && |s.log| == |m.log| + 1
    decreases StepsToIdle(m.captures[c])
  {
    if m.captures[c] == Idle {
      rest, s := [AppendRow(c, [0])], Apply(m, AppendRow(c, [0]));
      ExecStep(m, [], m, AppendRow(c, [0]));
      assert [] + [AppendRow(c, [0])] == rest;
    } else {
      var a := NextStep(m.captures[c], c);
      UnspentMovesOn(m, c);
      ActionKeepsInv(m, a);
      rest, s := UnspentAppends(Apply(m, a), c);
      ExecCons(m, a, rest);
      rest := [a] + rest;
    }
  }

  /** Reading a job gives its whole output, whatever happens later, exactly when its output is over. That
      the job is finished does not decide it: `persisted` does not occur in the condition, and after the
      completion write a capture goroutine that has not returned can still store its last records. */
  lemma {:induction false} NoMoreOutputIff(sources: set<Source>, run: seq<Action>, m: State)
    requires Exec(Init(sources), run) == Some(m)
    ensures NoMoreOutput(m) <==> m.panicked || !m.present || AllSpent(m)
  {
    ReachableInv(sources, run, m);
    if OutputIsOver(m) {
      forall rest: seq<Action>, s: State | Exec(m, rest) == Some(s) ensures s.log == m.log {
        RunStaysOver(m, rest, s);
      }
    } else {
      var c :| c in m.captures && !Spent(m.captures[c], m.sessions);
      var rest, s := UnspentAppends(m, c);
      assert s.log != m.log;
    }
  }

  // ---------------------------------------------------------------- a closed session's loop ends

  /** How many turns the loop of session `k` makes. */
  function Receives(run: seq<Action>, k: nat): nat {
    if run == [] then 0 else Receives(run[..|run| - 1], k) + if run[|run| - 1] == Receive(k) then 1 else 0
  }

  /** The session `a` after `n` turns of its loop, none of which ended it. */
  ghost predicate Forwarded(a: Session, b: Session, n: nat) {
    n <= |BeforeEof(a.queue)| <= |a.queue|
    && b == a.(queue := a.queue[n..], received := a.received + a.queue[..n])
  }

  /** The session `a` after `n` turns of its loop, the last of which ended it. */
  ghost predicate Ended(a: Session, b: Session, n: nat) {
    var passed := BeforeEof(a.queue);
    && b.exit.Some? && n == |passed| + 1
    && b.received == a.received + passed + if |passed| < |a.queue| then [Eof] else []
  }

  lemma TurnForwardsOrEnds(a: Session, b: Session, n: nat, present: bool, persisted: JobState)
    requires Forwarded(a, b, n) && a.closed && a.exit == None
    ensures var c := Received(b, present, persisted);
            if n < |BeforeEof(a.queue)| then Forwarded(a, c, n + 1) else Ended(a, c, n + 1)
  {
    var passed := BeforeEof(a.queue);
    BeforeEofLength(a.queue);
    if n < |passed| {
      assert a.queue[n] == passed[n] && passed[n] != Eof;
      assert a.queue[..n + 1] == a.queue[..n] + [a.queue[n]];
      Regroup(a.received, a.queue[..n], [a.queue[n]]);
    } else if n == |a.queue| {
      assert a.received + passed + [] == a.received + passed;
    }
  }

  lemma EndedCannotReceive(s: State, k: nat)
    requires Inv(s) && k < |s.sessions| && s.sessions[k].exit.Some?
    ensures !Enabled(s, Receive(k))
  {
    SessionOf(s, k);
  }

  lemma EndedStays(s: State, a: Action, k: nat)
    requires Inv(s) && Enabled(s, a) && k < |s.sessions| && s.sessions[k].exit.Some?
    ensures var s' := Apply(s, a);
            && k < |s'.sessions| && s'.sessions[k].exit == s.sessions[k].exit
            && s'.sessions[k].received == s.sessions[k].received
  {
    ActionIsLater(s, a);
    assert SessionLater(|s.log|, s.sessions[k], Apply(s, a).sessions[k]);
  }

  lemma {:induction false} ClosedSessionRuns(m: State, rest: seq<Action>, s: State, k: nat)
    requires Inv(m) && Exec(m, rest) == Some(s) && Leave(k) !in rest
    requires k < |m.sessions| && m.sessions[k].closed && m.sessions[k].phase == Live && m.sessions[k].exit == None
    ensures Inv(s) && k < |s.sessions|
    ensures var a, b, n := m.sessions[k], s.sessions[k], Receives(rest, k); Forwarded(a, b, n) || Ended(a, b, n)
    decreases |rest|
  {
    var a := m.sessions[k];
    if rest == [] {
      BeforeEofLength(a.queue);
      assert a.queue[0..] == a.queue && a.received + a.queue[..0] == a.received;
    } else {
      var init, last := rest[..|rest| - 1], rest[|rest| - 1];
      var before := Exec(m, init).value;
      ClosedSessionRuns(m, init, before, k);
      ActionKeepsInv(before, last);
      ClosedSessionStep(a, before, last, k, Receives(init, k));
    }
  }

  lemma ClosedSessionStep(a: Session, s: State, action: Action, k: nat, n: nat)
    requires Inv(s) && Enabled(s, action) && action != Leave(k) && k < |s.sessions|
    requires a.closed && a.phase == Live && a.exit == None
    requires Forwarded(a, s.sessions[k], n) || Ended(a, s.sessions[k], n)
    ensures k < |Apply(s, action).sessions|
    ensures var b, n' := Apply(s, action).sessions[k], if action == Receive(k) then n + 1 else n;
            Forwarded(a, b, n') || Ended(a, b, n')
  {
    if s.sessions[k].exit.Some? {
      EndedCannotReceive(s, k);
      EndedStays(s, action, k);
    } else if action == Receive(k) {
      TurnForwardsOrEnds(a, s.sessions[k], n, s.present, s.persisted);
    } else {
      ClosedSessionProgress(s, k, action);
    }
  }

  /** Exit is never lost, whatever is interleaved: while the client stays, the loop of a session whose
      channel is closed ends with exactly one turn more than there were events queued before EOF, or
      events at all when EOF was dropped on a full queue. Until then it can always turn, and has forwarded
      one queued event per turn; at the end it has forwarded those events and nothing else. */
  lemma {:induction false} ClosedSessionEnds(sources: set<Source>, run: seq<Action>, m: State,
                                             rest: seq<Action>, s: State, k: nat)
    requires Exec(Init(sources), run) == Some(m) && Exec(m, rest) == Some(s) && Leave(k) !in rest
    requires k < |m.sessions| && m.sessions[k].closed && m.sessions[k].phase == Live
    ensures k < |s.sessions|
    ensures var a, b, turns, passed := m.sessions[k], s.sessions[k], Receives(rest, k), BeforeEof(m.sessions[k].queue);
            && (b.exit.Some? <==> turns > |passed|)
            && (b.exit.Some? ==> turns == |passed| + 1 && Outputs(b.received) == Outputs(a.received) + Outputs(passed))
            && (b.exit == None ==> s.panicked || Enabled(s, Receive(k)))
            && (b.exit == None ==> turns <= |a.queue| && b.received == a.received + a.queue[..turns])
  {
    ReachableInv(sources, run, m);
    LiveHasNoExit(m, k);
    ClosedSessionRuns(m, rest, s, k);
    EndsExactly(m.sessions[k], s.sessions[k], Receives(rest, k));
    StillOpen(m.sessions[k], s, k, Receives(rest, k));
  }

  lemma StillOpen(a: Session, s: State, k: nat, n: nat)
    requires k < |s.sessions| && a.closed && a.phase == Live && a.exit == None
    requires Forwarded(a, s.sessions[k], n) || Ended(a, s.sessions[k], n)
    ensures s.sessions[k].exit == None ==> s.panicked || Enabled(s, Receive(k))
  {
  }

  lemma EndsExactly(a: Session, b: Session, n: nat)
    requires a.exit == None && (Forwarded(a, b, n) || Ended(a, b, n))
    ensures var passed := BeforeEof(a.queue);
            && (b.exit.Some? <==> n > |passed|)
            && (b.exit.Some? ==> n == |passed| + 1 && Outputs(b.received) == Outputs(a.received) + Outputs(passed))
            && (b.exit == None ==> n <= |a.queue| && b.received == a.received + a.queue[..n])
  {
    if b.exit.Some? {
      EndedOutputs(a, b);
    }
  }

  lemma EndedOutputs(a: Session, b: Session)
    requires Ended(a, b, |BeforeEof(a.queue)| + 1)
    ensures Outputs(b.received) == Outputs(a.received) + Outputs(BeforeEof(a.queue))
  {
    var passed := BeforeEof(a.queue);
    OutputsConcat(a.received, passed);
    if |passed| < |a.queue| {
      OutputsAppend(a.received + passed, Eof);
    } else {
      assert a.received + passed + [] == a.received + passed;
    }
  }

  // ---------------------------------------------------------------- what an Exit says

  lemma ReceivedMissing(session: Session, present: bool, persisted: JobState)
    requires session.queue != [] || session.closed
    ensures Received(session, present, persisted).exit == Some(JobMissing) ==>
              session.exit == Some(JobMissing) || !present
  {
  }

  /** A client is told that the job is missing only when its row is gone. */
  lemma {:induction false} MissingMeansGone(sources: set<Source>, run: seq<Action>, s: State, k: nat)
    requires Exec(Init(sources), run) == Some(s) && k < |s.sessions| && s.sessions[k].exit == Some(JobMissing)
    ensures !s.present
    decreases |run|
  {
    if run != [] {
      var init, last := run[..|run| - 1], run[|run| - 1];
      var before := Exec(Init(sources), init).value;
      ReachableInv(sources, init, before);
      ActionIsLater(before, last);
      if last == Receive(k) {
        ReceivedMissing(before.sessions[k], before.present, before.persisted);
      } else {
        OnlyReceiveDelivers(before, last, k);
      }
      if k < |before.sessions| && before.sessions[k].exit == Some(JobMissing) {
        MissingMeansGone(sources, init, before, k);
      }
    }
  }

  /** What an Exit says, read off the run: the terminal state, canceled exactly when a cancel request came
      before the waiter's exit section, or running when the completion write failed; only when the row is
      gone can it say instead that the job is missing. */
  lemma {:induction false} ExitVerdict(sources: set<Source>, run: seq<Action>, s: State, k: nat)
    requires Exec(Init(sources), run) == Some(s) && k < |s.sessions| && s.sessions[k].exit.Some?
    ensures var verdict := if Complete(true) !in run then Running
                           else if CancelBeforeExit(run) then Canceled else Exited;
            && s.sessions[k].exit.value in {ExitEvent(verdict), JobMissing}
            && (s.present ==> s.sessions[k].exit.value == ExitEvent(verdict))
  {
    PersistedVerdict(sources, run, s);
    ExitOnlyIfSubscribedAtEof(sources, run, s, k);
    if s.sessions[k].exit.value == JobMissing {
      MissingMeansGone(sources, run, s, k);
    }
  }
}
