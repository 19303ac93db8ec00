/** What an Exit says about the output, exactly: over every continuation of a run from the moment the
    waiter is about to publish EOF. */
module ProtocolExit {
  import opened OutputLog
  import opened Wrappers
  import opened Protocol
  import opened ProtocolInvariant
  import opened ProtocolTheorems
  import opened ProtocolEnds

  // ---------------------------------------------------------------- the EOF publication as a run

  /** `publish` for EOF, with nothing interleaved. */
  function EofRun(s: State): seq<Action> {
    if s.subscriber.Some? then [ReadForEof, SendEof, CloseChannel] else [ReadForEof, SendEof]
  }

  predicate SubscriberOpen(s: State) {
    s.subscriber.Some? ==> s.subscriber.value < |s.sessions| && !s.sessions[s.subscriber.value].closed
  }

  /** The state after `publish` for EOF, with nothing interleaved. */
  function AfterEof(s: State): State
    requires !s.panicked && s.waiter == Completed && SubscriberOpen(s)
  {
    var sent := Apply(Apply(s, ReadForEof), SendEof);
    if s.subscriber.Some? then Apply(sent, CloseChannel) else sent
  }

  lemma {:induction false} EofRunIs(s: State)
    requires SubscriberOpen(s) && !s.panicked && s.waiter == Completed
    ensures Exec(s, EofRun(s)) == Some(AfterEof(s))
    ensures AfterEof(s).waiter == Finished && AfterEof(s).eofTo == s.subscriber && AfterEof(s).subscriber == None
    ensures AfterEof(s).persisted == s.persisted && AfterEof(s).present == s.present
  {
    var held := Apply(s, ReadForEof);
    ExecStep(s, [], s, ReadForEof);
    assert [] + [ReadForEof] == [ReadForEof];
    ExecStep(s, [ReadForEof], held, SendEof);
    assert [ReadForEof] + [SendEof] == [ReadForEof, SendEof];
    if s.subscriber.Some? {
      ExecStep(s, [ReadForEof, SendEof], Apply(held, SendEof), CloseChannel);
      assert [ReadForEof, SendEof] + [CloseChannel] == [ReadForEof, SendEof, CloseChannel];
    }
  }

  lemma EofTouchesOneSession(s: State, k: nat)
    requires SubscriberOpen(s) && !s.panicked && s.waiter == Completed && s.subscriber == Some(k)
    ensures var r := AfterEof(s);
            && r.captures == s.captures && r.log == s.log && !r.panicked
            && r.sessions == s.sessions[k := Offer(s.sessions[k], Eof).(closed := true)]
  {
  }

  // ---------------------------------------------------------------- what a session should have

  /** The waiter is about to publish EOF, to a session that asked for a replay and is still there. */
  ghost predicate AtEof(m: State, k: nat) {
    && !m.panicked && m.waiter == Completed && m.subscriber == Some(k) && k < |m.sessions|
    && (m.sessions[k].phase == Replaying || (m.sessions[k].phase == Live && m.sessions[k].replay.Some?))
  }

  /** The client has every record of `log` at or past its offset that was not discarded before its
      replay, except those a full queue dropped. */
  ghost predicate HasRecords(session: Session, log: seq<Record>) {
    && session.replay.Some?
    && forall i :: session.replay.value.from <= i < |log| && log[i].offset >= session.offset ==>
         log[i] in ClientStream(session) || Dropped(session, log[i])
  }

  /** Capture `c` is in the middle of appending a record that the session's replay did not cover. */
  ghost predicate HoldsPast(m: State, k: nat, c: Source)
    requires k < |m.sessions|
  {
    && c in m.captures && Holding(m.captures[c]) && m.sessions[k].replay.Some?
    && m.captures[c].record.sequence > m.sessions[k].replay.value.upTo
    && m.captures[c].record.offset >= m.sessions[k].offset
  }

  ghost predicate NobodyHoldsPast(m: State, k: nat)
    requires k < |m.sessions|
  {
    forall c :: !HoldsPast(m, k, c)
  }

  // ---------------------------------------------------------------- a session with an Exit had its replay

  /** A session that asked for a replay reaches its forwarding loop, and an Exit, only through it. */
  ghost predicate ReplayFirst(session: Session) {
    session.replay.Some? || session.phase == Replaying || (session.phase in {Closing, Gone} && session.exit == None)
  }

  lemma SessionStepKeepsReplayFirst(s: State, a: Action, k: nat)
    requires Enabled(s, a) && k < |s.sessions| && ReplayFirst(s.sessions[k])
    requires s.sessions[k].phase == Replaying ==> s.sessions[k].exit == None
    requires a.Attach? || a.ReplayQuery? || a.Receive? || a.Leave? || a.Detach?
    ensures k < |Apply(s, a).sessions| && ReplayFirst(Apply(s, a).sessions[k])
  {
  }

  lemma ActionKeepsReplayFirst(s: State, a: Action, k: nat)
    requires Enabled(s, a) && k < |s.sessions| && ReplayFirst(s.sessions[k])
    requires s.sessions[k].phase == Replaying ==> s.sessions[k].exit == None
    ensures k < |Apply(s, a).sessions| && ReplayFirst(Apply(s, a).sessions[k])
  {
    match a
    case Attach(_, _) | ReplayQuery(_) | Receive(_) | Leave(_) | Detach(_) => SessionStepKeepsReplayFirst(s, a, k);
    case Send(source) => SendTouchesChannel(s, source, k);
    case SendEof => SendEofTouchesChannel(s, k);
    case CloseChannel => CloseTouchesChannel(s, k);
    case _ => OthersMoveNoSession(s, a);
  }

  lemma ReplayingHasNoExit(s: State, k: nat)
    requires Inv(s) && k < |s.sessions|
    ensures s.sessions[k].phase == Replaying ==> s.sessions[k].exit == None
  {
    SessionOf(s, k);
  }

  lemma {:induction false} RunKeepsReplayFirst(m: State, rest: seq<Action>, s: State, k: nat)
    requires Inv(m) && Exec(m, rest) == Some(s) && k < |m.sessions| && ReplayFirst(m.sessions[k])
    ensures k < |s.sessions| && ReplayFirst(s.sessions[k])
    decreases |rest|
  {
    if rest != [] {
      var before := Exec(m, rest[..|rest| - 1]).value;
      RunKeepsReplayFirst(m, rest[..|rest| - 1], before, k);
      RunKeepsInv(m, rest[..|rest| - 1], before);
      ReplayingHasNoExit(before, k);
      ActionKeepsReplayFirst(before, rest[|rest| - 1], k);
    }
  }

  /** A session that asked for a replay and has its Exit had the replay. */
  lemma ExitHadReplay(m: State, rest: seq<Action>, s: State, k: nat)
    requires Inv(m) && Exec(m, rest) == Some(s) && AtEof(m, k) && k < |s.sessions| && s.sessions[k].exit.Some?
    ensures s.sessions[k].replay.Some?
  {
    RunKeepsReplayFirst(m, rest, s, k);
    RunKeepsInv(m, rest, s);
    ReplayingHasNoExit(s, k);
  }

  // ---------------------------------------------------------------- nothing held: everything stored arrives

  /** A record past the replay that no capture holds has been published, and is not in flight. */
  lemma SettledPast(m: State, k: nat, i: nat)
    requires Inv(m) && k < |m.sessions| && m.sessions[k].replay.Some? && NobodyHoldsPast(m, k)
    requires m.sessions[k].replay.value.upTo <= i < |m.log| && m.log[i].offset >= m.sessions[k].offset
    ensures |m.publications| == |m.log| && m.publications[i] != Pending && !InFlight(m, k, m.log[i])
  {
    assert PublicationInv(m.log[i], m.publications[i], m.captures, m.sessions);
    assert !HoldsPast(m, k, m.log[i].source);
  }

  lemma ReplayStays(m: State, rest: seq<Action>, s: State, k: nat)
    requires Inv(m) && Exec(m, rest) == Some(s) && k < |m.sessions|
    ensures k < |s.sessions| && s.sessions[k].offset == m.sessions[k].offset && |m.log| <= |s.log|
    ensures m.sessions[k].replay.Some? ==> s.sessions[k].replay == m.sessions[k].replay
    ensures m.sessions[k].replay == None && s.sessions[k].replay.Some? ==> |m.log| <= s.sessions[k].replay.value.upTo
  {
    RunIsLater(m, rest, s);
    assert SessionLater(|m.log|, m.sessions[k], s.sessions[k]);
  }

  lemma StoredIsDelivered(sources: set<Source>, run: seq<Action>, m: State, rest: seq<Action>, s: State, k: nat, i: nat)
    requires Exec(Init(sources), run) == Some(m) && Exec(m, rest) == Some(s)
    requires AtEof(m, k) && NobodyHoldsPast(m, k)
    requires k < |s.sessions| && s.sessions[k].exit.Some? && s.sessions[k].replay.Some?
    requires s.sessions[k].replay.value.from <= i < |m.log| && m.log[i].offset >= s.sessions[k].offset
    ensures m.log[i] in ClientStream(s.sessions[k]) || Dropped(s.sessions[k], m.log[i])
  {
    ReachableInv(sources, run, m);
    ReplayStays(m, rest, s, k);
    if i < s.sessions[k].replay.value.upTo {
      StaysReplayed(m, rest, s, k, i);
    } else {
      assert m.sessions[k].replay == s.sessions[k].replay;
      SettledPast(m, k, i);
      assert m.publications[i] != Pending && !InFlight(m, k, m.log[i]);
      ExitDelivers(sources, run, m, rest, s, k, i);
    }
  }

  lemma StaysReplayed(m: State, rest: seq<Action>, s: State, k: nat, i: nat)
    requires Inv(m) && Exec(m, rest) == Some(s) && k < |s.sessions| && s.sessions[k].replay.Some?
    requires s.sessions[k].replay.value.from <= i < s.sessions[k].replay.value.upTo
    requires i < |m.log| && m.log[i].offset >= s.sessions[k].offset
    ensures m.log[i] in ClientStream(s.sessions[k])
  {
    RunIsLater(m, rest, s);
    SnapshotHas(s, k, i);
  }

  // ---------------------------------------------------------------- something held: it can miss the Exit

  /** While a capture holds a record, no session has been sent it. */
  lemma HeldIsNotSent(s: State, c: Source, k: nat)
    requires Inv(s) && c in s.captures && Holding(s.captures[c]) && k < |s.sessions|
    ensures !WasSent(s.sessions[k].sends, s.captures[c].record)
  {
    SessionOf(s, k);
    SentMeansDirected(s.log, s.publications, s.sessions, c, s.captures[c], k);
  }

  lemma SentMeansDirected(log: seq<Record>, publications: seq<Publication>, sessions: seq<Session>,
                          c: Source, capture: Capture, k: nat)
    requires |publications| == |log| && k < |sessions| && Holding(capture)
    requires CaptureInv(log, publications, sessions, c, capture) && SendsInv(log, publications, sessions[k].sends, k)
    ensures !WasSent(sessions[k].sends, capture.record)
  {
  }

  lemma UnsentIsMissing(session: Session, r: Record)
    requires ChannelInv(session) && !WasSent(session.sends, r) && !Replayed(session, r)
    ensures r !in ClientStream(session) && !Dropped(session, r)
  {
    OutputsHas(session.received, r);
    if Output(r) in session.received {
      assert Output(r) in session.received + session.queue;
      AcceptedHas(session.sends, Output(r));
    }
  }

  lemma HeldPastIsMissing(s: State, c: Source, k: nat)
    requires Inv(s) && k < |s.sessions| && s.sessions[k].replay.Some?
    requires c in s.captures && Holding(s.captures[c])
    requires s.captures[c].record.sequence > s.sessions[k].replay.value.upTo
    ensures var r, session := s.captures[c].record, s.sessions[k];
            r !in ClientStream(session) && !Dropped(session, r)
  {
    HeldIsNotSent(s, c, k);
    SessionOf(s, k);
    if Replayed(s.sessions[k], s.captures[c].record) {
      ReplayedIsKnown(s, k, s.captures[c].record);
    }
    UnsentIsMissing(s.sessions[k], s.captures[c].record);
  }

  /** A held record that is not covered stands in the log past what the client has. */
  lemma HeldPastBreaks(s: State, c: Source, k: nat)
    requires Inv(s) && k < |s.sessions| && HoldsPast(s, k, c)
    ensures !HasRecords(s.sessions[k], s.log)
  {
    HeldPastIsMissing(s, c, k);
    HeldIsKnown(s, c);
    SnapshotInLog(s, k);
    var i := s.captures[c].record.sequence - 1;
    assert s.log[i] == s.captures[c].record;
  }

  lemma HeldIsKnown(s: State, c: Source)
    requires Inv(s) && c in s.captures && Holding(s.captures[c])
    ensures Known(s.log, s.captures[c].record)
  {
    assert CaptureInv(s.log, s.publications, s.sessions, c, s.captures[c]);
  }

  lemma SnapshotInLog(s: State, k: nat)
    requires Inv(s) && k < |s.sessions| && s.sessions[k].replay.Some?
    ensures s.sessions[k].replay.value.from <= s.sessions[k].replay.value.upTo <= |s.log|
  {
    SessionOf(s, k);
  }

  lemma AtEofIsOpen(m: State, k: nat)
    requires Inv(m) && AtEof(m, k)
    ensures SubscriberOpen(m)
  {
    SubscriberIsOpen(m);
  }

  /** From the EOF publication a session can run straight to its Exit while the captures stand still. */
  lemma ExitFrom(m: State, k: nat) returns (run: seq<Action>, s: State)
    requires Inv(m) && AtEof(m, k) && m.sessions[k].phase == Live
    ensures Exec(m, run) == Some(s) && s.captures == m.captures && s.log == m.log && k < |s.sessions|
    ensures var a, b := m.sessions[k], s.sessions[k];
            b.exit.Some? && b.replay == a.replay && b.offset == a.offset
  {
    AtEofIsOpen(m, k);
    EofRunIs(m);
    EofTouchesOneSession(m, k);
    var closed := AfterEof(m);
    var drain := DrainToExit(closed, k);
    ExecConcat(m, EofRun(m), drain);
    run, s := EofRun(m) + drain, Drained(closed, k);
  }

  lemma HeldPastCanMissExit(m: State, k: nat, c: Source) returns (run: seq<Action>, s: State)
    requires Inv(m) && AtEof(m, k) && HoldsPast(m, k, c)
    ensures Exec(m, run) == Some(s) && k < |s.sessions| && s.sessions[k].exit.Some? && s.log == m.log
    ensures !HasRecords(s.sessions[k], s.log)
  {
    ReplayingHasNoReplay(m, k);
    run, s := ExitFrom(m, k);
    RunKeepsInv(m, run, s);
    HeldPastBreaks(s, c, k);
  }

  lemma ReplayingHasNoReplay(s: State, k: nat)
    requires Inv(s) && k < |s.sessions|
    ensures s.sessions[k].phase == Replaying ==> s.sessions[k].replay == None
  {
    SessionOf(s, k);
  }

  // ---------------------------------------------------------------- the output stored by EOF

  /** Whatever happens from the EOF publication on, the Exit finds the client with every record of `m`'s
      log. */
  ghost predicate AlwaysHasStored(m: State, k: nat) {
    forall rest: seq<Action>, s: State ::
      Exec(m, rest) == Some(s) && k < |s.sessions| && s.sessions[k].exit.Some? ==> HasRecords(s.sessions[k], m.log)
  }

  /** A session that asked for a replay is certain to have, at its Exit, all output stored by the EOF
      publication, drops on a full queue aside, if and only if at that moment no capture goroutine is in
      the middle of publishing a record that the replay did not cover. */
  lemma {:induction false} ExitHasStoredOutputIff(sources: set<Source>, run: seq<Action>, m: State, k: nat)
    requires Exec(Init(sources), run) == Some(m) && AtEof(m, k)
    ensures AlwaysHasStored(m, k) <==> NobodyHoldsPast(m, k)
  {
    ReachableInv(sources, run, m);
    if NobodyHoldsPast(m, k) {
      forall rest: seq<Action>, s: State |
        Exec(m, rest) == Some(s) && k < |s.sessions| && s.sessions[k].exit.Some?
        ensures HasRecords(s.sessions[k], m.log)
      {
        StoredAllDelivered(sources, run, m, rest, s, k);
      }
    } else {
      var c :| HoldsPast(m, k, c);
      var rest, s := HeldPastCanMissExit(m, k, c);
      assert !HasRecords(s.sessions[k], m.log);
    }
  }

  lemma StoredAllDelivered(sources: set<Source>, run: seq<Action>, m: State, rest: seq<Action>, s: State, k: nat)
    requires Exec(Init(sources), run) == Some(m) && Exec(m, rest) == Some(s)
    requires AtEof(m, k) && NobodyHoldsPast(m, k) && k < |s.sessions| && s.sessions[k].exit.Some?
    ensures HasRecords(s.sessions[k], m.log)
  {
    ReachableInv(sources, run, m);
    ExitHadReplay(m, rest, s, k);
    forall i | s.sessions[k].replay.value.from <= i < |m.log| && m.log[i].offset >= s.sessions[k].offset
      ensures m.log[i] in ClientStream(s.sessions[k]) || Dropped(s.sessions[k], m.log[i])
    {
      StoredIsDelivered(sources, run, m, rest, s, k, i);
    }
  }

  // ---------------------------------------------------------------- the whole output

  ghost predicate AllReturned(s: State) {
    forall c :: c in s.captures ==> s.captures[c] == Returned
  }

  /** Before EOF a held record can always move on. */
  lemma SettleOne(m: State, k: nat, c: Source)
    requires Inv(m) && AtEof(m, k) && m.sessions[k].phase == Live && c in m.captures && Holding(m.captures[c])
    ensures var a := NextStep(m.captures[c], c);
            && Enabled(m, a)
            && var next := Apply(m, a);
            && AtEof(next, k) && next.sessions[k].phase == Live && next.present == m.present
            && c in next.captures && next.captures[c] != Returned
            && StepsToIdle(next.captures[c]) < StepsToIdle(m.captures[c])
  {
    match m.captures[c]
    case Stored(_) =>
    case Counted(_) => SettleCounted(m, k, c);
    case Sending(_, _) => SettleSend(m, k, c);
    case _ =>
  }

  lemma SettleCounted(m: State, k: nat, c: Source)
    requires Inv(m) && AtEof(m, k) && m.sessions[k].phase == Live && c in m.captures && m.captures[c].Counted?
    ensures Enabled(m, ReadSubscriber(c))
    ensures var next := Apply(m, ReadSubscriber(c));
            && AtEof(next, k) && next.sessions == m.sessions && next.present == m.present
            && next.captures == m.captures[c := Sending(m.captures[c].record, k)]
  {
    GuardsAreProgramCounters(m, c);
  }

  lemma SettleSend(m: State, k: nat, c: Source)
    requires Inv(m) && AtEof(m, k) && m.sessions[k].phase == Live && c in m.captures && m.captures[c].Sending?
    ensures Enabled(m, Send(c))
    ensures var next := Apply(m, Send(c));
            && AtEof(next, k) && next.sessions[k].phase == Live && next.present == m.present
            && next.captures == m.captures[c := Idle]
  {
    GuardsAreProgramCounters(m, c);
    OpenBeforeEof(m, m.captures[c].session);
  }

  lemma OpenBeforeEof(m: State, j: nat)
    requires Inv(m) && j < |m.sessions| && m.waiter == Completed
    ensures !m.sessions[j].closed
  {
    SessionOf(m, j);
  }

  lemma {:induction false} Settle(m: State, k: nat, c: Source) returns (run: seq<Action>, s: State)
    requires Inv(m) && AtEof(m, k) && m.sessions[k].phase == Live
    requires c in m.captures && m.captures[c] != Returned
    ensures Exec(m, run) == Some(s) && Inv(s) && AtEof(s, k) && s.sessions[k].phase == Live
    ensures s.present == m.present && c in s.captures && s.captures[c] == Idle
    decreases StepsToIdle(m.captures[c])
  {
    if m.captures[c] == Idle {
      run, s := [], m;
    } else {
      var a := NextStep(m.captures[c], c);
      SettleOne(m, k, c);
      ActionKeepsInv(m, a);
      var rest;
      rest, s := Settle(Apply(m, a), k, c);
      ExecCons(m, a, rest);
      run := [a] + rest;
    }
  }

  /** After EOF an idle capture stores a record, publishes it to nobody, and stores another, which is past
      any offset asked for. */
  lemma StoreTwice(m: State, c: Source, offset: int) returns (run: seq<Action>, s: State)
    requires Inv(m) && !m.panicked && m.present && m.subscriber == None && c in m.captures && m.captures[c] == Idle
    ensures Exec(m, run) == Some(s) && s.sessions == m.sessions && !s.panicked
    ensures c in s.captures && s.captures[c].Stored?
    ensures s.captures[c].record.sequence > |m.log| && s.captures[c].record.offset >= offset
  {
    var size := LogSize(m.log);
    var first: seq<byte> := Zeros(if offset > size then offset - size else 1);
    var once := StoreUnseen(m, c, first);
    var a := AppendRow(c, [0]);
    ExecStep(m, [AppendRow(c, first), Count(c), ReadSubscriber(c)], once, a);
    run, s := [AppendRow(c, first), Count(c), ReadSubscriber(c)] + [a], Apply(once, a);
  }

  function Zeros(n: nat): (r: seq<byte>)
    ensures |r| == n
  {
    if n == 0 then [] else Zeros(n - 1) + [0]
  }

  lemma StoreUnseen(m: State, c: Source, data: seq<byte>) returns (s: State)
    requires Inv(m) && !m.panicked && m.present && m.subscriber == None && c in m.captures && m.captures[c] == Idle
    requires data != []
    ensures Exec(m, [AppendRow(c, data), Count(c), ReadSubscriber(c)]) == Some(s)
    ensures s.sessions == m.sessions && !s.panicked && s.present && c in s.captures && s.captures[c] == Idle
    ensures |s.log| == |m.log| + 1 && LogSize(s.log) == LogSize(m.log) + |data|
  {
    var stored := Apply(m, AppendRow(c, data));
    var counted := Apply(stored, Count(c));
    LengthsAgree(m);
    ExecStep(m, [], m, AppendRow(c, data));
    assert [] + [AppendRow(c, data)] == [AppendRow(c, data)];
    ExecStep(m, [AppendRow(c, data)], stored, Count(c));
    assert [AppendRow(c, data)] + [Count(c)] == [AppendRow(c, data), Count(c)];
    ExecStep(m, [AppendRow(c, data), Count(c)], counted, ReadSubscriber(c));
    assert [AppendRow(c, data), Count(c)] + [ReadSubscriber(c)] == [AppendRow(c, data), Count(c), ReadSubscriber(c)];
    s := Apply(counted, ReadSubscriber(c));
  }

  lemma LengthsAgree(m: State)
    requires Inv(m)
    ensures |m.publications| == |m.log|
  {
  }

  /** A capture goroutine that has not returned can add a record after EOF that the Exit does not cover. */
  lemma LiveCanMiss(m: State, k: nat, c: Source) returns (run: seq<Action>, s: State)
    requires Inv(m) && AtEof(m, k) && m.sessions[k].phase == Live && m.present
    requires c in m.captures && m.captures[c] != Returned
    ensures Exec(m, run) == Some(s) && k < |s.sessions| && s.sessions[k].exit.Some?
    ensures !HasRecords(s.sessions[k], s.log)
  {
    var settle, idle := Settle(m, k, c);
    var publish, closed := PublishEofFrom(idle, k);
    ExecConcat(m, settle, publish);
    var append, stored := StoreTwice(closed, c, closed.sessions[k].offset);
    ExecConcat(m, settle + publish, append);
    var drain := DrainToExit(stored, k);
    ExecConcat(m, settle + publish + append, drain);
    run, s := settle + publish + append + drain, Drained(stored, k);
    RunKeepsInv(m, run, s);
    SnapshotInLog(closed, k);
    HeldPastBreaks(s, c, k);
  }

  lemma PublishEofFrom(m: State, k: nat) returns (run: seq<Action>, s: State)
    requires Inv(m) && AtEof(m, k) && m.sessions[k].phase == Live
    ensures Exec(m, run) == Some(s) && Inv(s) && !s.panicked && s.present == m.present && s.subscriber == None
    ensures s.captures == m.captures && k < |s.sessions| && s.sessions[k].phase == Live && s.sessions[k].closed
    ensures s.sessions[k].replay.Some?
  {
    AtEofIsOpen(m, k);
    EofRunIs(m);
    EofTouchesOneSession(m, k);
    run, s := EofRun(m), AfterEof(m);
    RunKeepsInv(m, run, s);
  }

  lemma ReplayKeepsAtEof(m: State, k: nat)
    requires Inv(m) && AtEof(m, k) && m.sessions[k].phase == Replaying
    ensures Enabled(m, ReplayQuery(k))
    ensures var next := Apply(m, ReplayQuery(k));
            && AtEof(next, k) && next.sessions[k].phase == Live
            && next.present == m.present && next.captures == m.captures
  {
  }

  lemma CanMiss(m: State, k: nat, c: Source) returns (run: seq<Action>, s: State)
    requires Inv(m) && AtEof(m, k) && m.present && c in m.captures && m.captures[c] != Returned
    ensures Exec(m, run) == Some(s) && k < |s.sessions| && s.sessions[k].exit.Some?
    ensures !HasRecords(s.sessions[k], s.log)
  {
    if m.sessions[k].phase == Live {
      run, s := LiveCanMiss(m, k, c);
    } else {
      var a := ReplayQuery(k);
      ReplayKeepsAtEof(m, k);
      ActionKeepsInv(m, a);
      var rest;
      rest, s := LiveCanMiss(Apply(m, a), k, c);
      ExecCons(m, a, rest);
      run := [a] + rest;
    }
  }

  /** Whatever happens from the EOF publication on, the Exit finds the client with every record the job
      ever gets. */
  ghost predicate AlwaysHasAll(m: State, k: nat) {
    forall rest: seq<Action>, s: State ::
      Exec(m, rest) == Some(s) && k < |s.sessions| && s.sessions[k].exit.Some? ==> HasRecords(s.sessions[k], s.log)
  }

  /** A session that asked for a replay is certain to have the job's whole output at its Exit, drops on a
      full queue aside, if and only if at the EOF publication every capture goroutine has returned, or the
      job's row is gone and no capture is publishing a record that the replay did not cover. */
  lemma {:induction false} ExitHasAllOutputIff(sources: set<Source>, run: seq<Action>, m: State, k: nat)
    requires Exec(Init(sources), run) == Some(m) && AtEof(m, k)
    ensures AlwaysHasAll(m, k) <==> AllReturned(m) || (!m.present && NobodyHoldsPast(m, k))
  {
    ReachableInv(sources, run, m);
    if AllReturned(m) || (!m.present && NobodyHoldsPast(m, k)) {
      assert NobodyHoldsPast(m, k);
      forall rest: seq<Action>, s: State |
        Exec(m, rest) == Some(s) && k < |s.sessions| && s.sessions[k].exit.Some?
        ensures HasRecords(s.sessions[k], s.log)
      {
        RunStaysOver(m, rest, s);
        StoredAllDelivered(sources, run, m, rest, s, k);
      }
    } else if m.present {
      var c :| c in m.captures && m.captures[c] != Returned;
      var rest, s := CanMiss(m, k, c);
      assert !HasRecords(s.sessions[k], s.log);
    } else {
      var c :| HoldsPast(m, k, c);
      var rest, s := HeldPastCanMissExit(m, k, c);
      assert !HasRecords(s.sessions[k], s.log);
    }
  }
}
