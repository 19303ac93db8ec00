/** What the pipeline promises an attach session, over every interleaving. */
module ProtocolTheorems {
  import opened OutputLog
  import opened Wrappers
  import opened Jobs
  import opened Protocol
  import opened ProtocolInvariant

  // ---------------------------------------------------------------- runs

  lemma ExecSnoc(s: State, run: seq<Action>, a: Action)
    ensures Exec(s, run + [a]) ==
            match Exec(s, run)
            case None => None
            case Some(m) => if Enabled(m, a) then Some(Apply(m, a)) else None
  {
    assert (run + [a])[..|run|] == run;
  }

  lemma ExecStep(s: State, run: seq<Action>, m: State, a: Action)
    requires Exec(s, run) == Some(m) && Enabled(m, a)
    ensures Exec(s, run + [a]) == Some(Apply(m, a))
  {
    ExecSnoc(s, run, a);
  }

  lemma {:induction false} ExecConcat(s: State, a: seq<Action>, b: seq<Action>)
    ensures Exec(s, a + b) == match Exec(s, a) case None => None case Some(m) => Exec(m, b)
    decreases |b|
  {
    if b == [] {
      assert a + b == a;
    } else {
      var init, last := b[..|b| - 1], b[|b| - 1];
      ExecConcat(s, a, init);
      assert a + b == (a + init) + [last];
      ExecSnoc(s, a + init, last);
    }
  }

  lemma ExecCons(s: State, a: Action, rest: seq<Action>)
    requires Enabled(s, a)
    ensures Exec(s, [a] + rest) == Exec(Apply(s, a), rest)
  {
    ExecStep(s, [], s, a);
    assert [] + [a] == [a];
    ExecConcat(s, [a], rest);
  }

  /** Every state that a run can reach from the start of an execution satisfies the invariant. */
  lemma ReachableInv(sources: set<Source>, run: seq<Action>, s: State)
    requires Exec(Init(sources), run) == Some(s)
    ensures Inv(s)
  {
    InitInv(sources);
    RunKeepsInv(Init(sources), run, s);
  }

  /** Nothing but real program counters guards the steps: in a reachable state the range checks in
      `Enabled` hold by themselves, and only a capture's send can hit a closed channel. */
  lemma {:induction false} GuardsAreProgramCounters(s: State, source: Source)
    requires Inv(s)
    ensures source in s.captures && s.captures[source].Counted? ==>
              0 < s.captures[source].record.sequence <= |s.publications|
    ensures source in s.captures && s.captures[source].Sending? ==> s.captures[source].session < |s.sessions|
    ensures s.discarded <= |s.log|
    ensures s.waiter == HoldsEof && s.eofTo.Some? ==>
              s.eofTo.value < |s.sessions| && !s.sessions[s.eofTo.value].closed
    ensures s.waiter == SentEof ==>
              s.eofTo.Some? && s.eofTo.value < |s.sessions| && !s.sessions[s.eofTo.value].closed
  {
    if source in s.captures {
      assert CaptureInv(s.log, s.publications, s.sessions, source, s.captures[source]);
    }
    if s.eofTo.Some? {
      var k := s.eofTo.value;
      assert ExitInv(s.eofTo, s.waiter, s.persisted, s.sessions[k], k);
    }
  }

  // ---------------------------------------------------------------- what never changes back

  ghost predicate SessionLater(logLength: nat, a: Session, b: Session) {
    && b.offset == a.offset
    && (a.replay.Some? ==> b.replay == a.replay)
    && (a.replay == None && b.replay.Some? ==> logLength <= b.replay.value.upTo)
    && a.sends <= b.sends
    && a.received <= b.received
    && (a.exit.Some? ==> b.exit == a.exit && b.received == a.received)
  }

  ghost predicate StateLater(s: State, s': State) {
    && Later(s.log, s.publications, s'.log, s'.publications)
    && |s.sessions| <= |s'.sessions|
    && (forall k :: 0 <= k < |s.sessions| ==> SessionLater(|s.log|, s.sessions[k], s'.sessions[k]))
    && (s.persisted != Running ==> s'.persisted == s.persisted)
    && (s.waiter in {HoldsEof, SentEof, Finished} ==>
          s'.eofTo == s.eofTo && s'.waiter in {HoldsEof, SentEof, Finished})
    && (!s.present ==> !s'.present)
  }

  lemma OfferIsLater(logLength: nat, a: Session, event: Event)
    ensures SessionLater(logLength, a, Offer(a, event))
  {
  }

  /** A step that moves no session. */
  lemma QuietIsLater(s: State, s': State)
    requires Later(s.log, s.publications, s'.log, s'.publications) && s'.sessions == s.sessions
    requires s.persisted != Running ==> s'.persisted == s.persisted
    requires !s.present ==> !s'.present
    requires s.waiter in {HoldsEof, SentEof, Finished} ==>
               s'.eofTo == s.eofTo && s'.waiter in {HoldsEof, SentEof, Finished}
    ensures StateLater(s, s')
  {
  }

  lemma StoreStepIsLater(s: State, a: Action)
    requires |s.publications| == |s.log| && Enabled(s, a) && (a.AppendRow? || a.Count?)
    ensures StateLater(s, Apply(s, a))
  {
    QuietIsLater(s, Apply(s, a));
  }

  lemma ReadSubscriberIsLater(s: State, source: Source)
    requires Inv(s) && Enabled(s, ReadSubscriber(source))
    ensures StateLater(s, Apply(s, ReadSubscriber(source)))
  {
    ReadIs(s, source);
    CountedIsPending(s, source);
    SettlingIsLater(s.log, s.publications, s.captures[source].record.sequence - 1, Direction(s.subscriber));
    QuietIsLater(s, Apply(s, ReadSubscriber(source)));
  }

  lemma SessionChangeIsLater(s: State, s': State, k: nat, session: Session)
    requires |s.publications| == |s.log| && k < |s.sessions| && s'.sessions == s.sessions[k := session]
    requires SessionLater(|s.log|, s.sessions[k], session)
    requires s'.log == s.log && s'.publications == s.publications
    requires s'.persisted == s.persisted && s'.present == s.present && s'.eofTo == s.eofTo
    requires s.waiter in {HoldsEof, SentEof, Finished} ==> s'.waiter in {HoldsEof, SentEof, Finished}
    ensures StateLater(s, s')
  {
  }

  lemma ReceivedIsLater(logLength: nat, a: Session, present: bool, persisted: JobState)
    requires a.exit == None && (a.queue != [] || a.closed)
    ensures SessionLater(logLength, a, Received(a, present, persisted))
  {
  }

  lemma AttachIsLater(s: State, a: Action)
    requires Inv(s) && Enabled(s, a) && a.Attach?
    ensures StateLater(s, Apply(s, a))
  {
  }

  lemma ReplayQueryIsLater(s: State, k: nat)
    requires Inv(s) && Enabled(s, ReplayQuery(k))
    ensures StateLater(s, Apply(s, ReplayQuery(k)))
  {
    SessionOf(s, k);
    SessionChangeIsLater(s, Apply(s, ReplayQuery(k)), k, Apply(s, ReplayQuery(k)).sessions[k]);
  }

  lemma LiveHasNoExit(s: State, k: nat)
    requires Inv(s) && k < |s.sessions| && s.sessions[k].phase == Live
    ensures s.sessions[k].exit == None
  {
    SessionOf(s, k);
  }

  lemma ReceiveIsLater(s: State, k: nat)
    requires Inv(s) && Enabled(s, Receive(k))
    ensures StateLater(s, Apply(s, Receive(k)))
  {
    LiveHasNoExit(s, k);
    ReceivedIsLater(|s.log|, s.sessions[k], s.present, s.persisted);
    SessionChangeIsLater(s, Apply(s, Receive(k)), k, Received(s.sessions[k], s.present, s.persisted));
  }

  lemma LeavingIsLater(s: State, k: nat, phase: Phase)
    requires |s.publications| == |s.log| && k < |s.sessions|
    ensures StateLater(s, s.(sessions := s.sessions[k := s.sessions[k].(phase := phase)]))
    ensures phase == Gone ==> StateLater(s, Detached(s, k))
  {
    SessionChangeIsLater(s, s.(sessions := s.sessions[k := s.sessions[k].(phase := phase)]), k,
                         s.sessions[k].(phase := phase));
  }

  lemma SessionStepIsLater(s: State, a: Action)
    requires Inv(s) && Enabled(s, a)
    requires a.ReplayQuery? || a.Receive? || a.Leave? || a.Detach?
    ensures StateLater(s, Apply(s, a))
  {
    match a
    case ReplayQuery(k) => ReplayQueryIsLater(s, k);
    case Receive(k) => ReceiveIsLater(s, k);
    case Leave(k) => LeavingIsLater(s, k, Closing);
    case Detach(k) => LeavingIsLater(s, k, Gone);
  }

  lemma WaiterStepIsLater(s: State, a: Action)
    requires WaiterInv(s) && |s.publications| == |s.log|
    requires Enabled(s, a) && (a.TakeExit? || a.Complete? || a.ReadForEof?)
    ensures StateLater(s, Apply(s, a))
  {
    match a
    case TakeExit => QuietIsLater(s, Apply(s, TakeExit));
    case Complete(written) => QuietIsLater(s, Apply(s, Complete(written)));
    case ReadForEof => QuietIsLater(s, Apply(s, ReadForEof));
  }

  lemma SendIsLater(s: State, source: Source)
    requires |s.publications| == |s.log|
    requires source in s.captures && s.captures[source].Sending? && s.captures[source].session < |s.sessions|
    ensures StateLater(s, SendOutput(s, source))
  {
    var k := s.captures[source].session;
    if s.sessions[k].closed {
      QuietIsLater(s, SendOutput(s, source));
    } else {
      var event := Output(s.captures[source].record);
      OfferIsLater(|s.log|, s.sessions[k], event);
      SessionChangeIsLater(s, SendOutput(s, source), k, Offer(s.sessions[k], event));
    }
  }

  lemma EofStepIsLater(s: State, a: Action)
    requires Inv(s) && Enabled(s, a) && (a.SendEof? || a.CloseChannel?)
    ensures StateLater(s, Apply(s, a))
  {
    if s.eofTo.Some? && !s.sessions[s.eofTo.value].closed {
      var k := s.eofTo.value;
      OfferIsLater(|s.log|, s.sessions[k], Eof);
      SessionChangeIsLater(s, Apply(s, a), k, Apply(s, a).sessions[k]);
    }
  }

  lemma HistoryStepIsLater(s: State, a: Action)
    requires |s.publications| == |s.log| && Enabled(s, a)
    requires a.RequestCancel? || a.DiscardOutput? || a.DeleteJob? || a.CaptureReturns?
    ensures StateLater(s, Apply(s, a))
  {
    QuietIsLater(s, Apply(s, a));
  }

  lemma ActionIsLater(s: State, a: Action)
    requires Inv(s) && Enabled(s, a)
    ensures StateLater(s, Apply(s, a))
  {
    match a
    case AppendRow(_, _) | Count(_) => StoreStepIsLater(s, a);
    case ReadSubscriber(source) => ReadSubscriberIsLater(s, source);
    case Attach(_, _) => AttachIsLater(s, a);
    case ReplayQuery(_) | Receive(_) | Leave(_) | Detach(_) => SessionStepIsLater(s, a);
    case TakeExit | Complete(_) | ReadForEof => WaiterStepIsLater(s, a);
    case SendEof | CloseChannel => EofStepIsLater(s, a);
    case Send(source) => SendIsLater(s, source);
    case CaptureReturns(_) | RequestCancel | DiscardOutput | DeleteJob => HistoryStepIsLater(s, a);
  }

  lemma LaterTransitive(a: State, b: State, c: State)
    requires StateLater(a, b) && StateLater(b, c)
    ensures StateLater(a, c)
  {
    forall k | 0 <= k < |a.sessions| ensures SessionLater(|a.log|, a.sessions[k], c.sessions[k]) {
      assert SessionLater(|a.log|, a.sessions[k], b.sessions[k]);
      assert SessionLater(|b.log|, b.sessions[k], c.sessions[k]);
    }
  }

  /** Over any stretch of a run: the log and every sent, received or replayed event stay; a finished
      job keeps its persisted state; a session that got its Exit receives nothing more. */
  lemma {:induction false} RunIsLater(s: State, run: seq<Action>, s': State)
    requires Inv(s) && Exec(s, run) == Some(s')
    ensures Inv(s') && StateLater(s, s')
    decreases |run|
  {
    if run != [] {
      var before := Exec(s, run[..|run| - 1]).value;
      RunIsLater(s, run[..|run| - 1], before);
      ActionKeepsInv(before, run[|run| - 1]);
      ActionIsLater(before, run[|run| - 1]);
      LaterTransitive(s, before, s');
    }
  }

  // ---------------------------------------------------------------- no gap between replay and live

  /** Where a record of the log can be, seen from session `k`. */
  ghost predicate Replayed(session: Session, r: Record) {
    session.replay.Some? && r in session.replay.value.records
  }

  ghost predicate Dropped(session: Session, r: Record) {
    Sent(Output(r), false) in session.sends
  }

  ghost predicate InFlight(s: State, k: nat, r: Record) {
    r.source in s.captures && s.captures[r.source] == Sending(r, k)
  }

  lemma {:induction false} AcceptedHas(sends: seq<Sent>, e: Event)
    ensures e in Accepted(sends) <==> Sent(e, true) in sends
  {
    if sends != [] {
      AcceptedHas(sends[..|sends| - 1], e);
      assert sends == sends[..|sends| - 1] + [sends[|sends| - 1]];
    }
  }

  lemma DirectedIsAccounted(s: State, k: nat, i: nat)
    requires Inv(s) && i < |s.log| && s.publications[i] == To(k)
    ensures k < |s.sessions|
    ensures var session, r := s.sessions[k], s.log[i];
            Output(r) in session.received || Output(r) in session.queue || Dropped(session, r) || InFlight(s, k, r)
  {
    var r := s.log[i];
    assert PublicationInv(r, s.publications[i], s.captures, s.sessions);
    if !InFlight(s, k, r) {
      var session := s.sessions[k];
      var j :| 0 <= j < |session.sends| && session.sends[j].event == Output(r);
      if session.sends[j].accepted {
        assert session.sends[j] == Sent(Output(r), true);
        AcceptedHas(session.sends, Output(r));
        assert ChannelInv(session);
      } else {
        assert session.sends[j] == Sent(Output(r), false);
      }
    }
  }

  lemma SnapshotHas(s: State, k: nat, i: nat)
    requires Inv(s) && k < |s.sessions| && s.sessions[k].replay.Some?
    requires s.sessions[k].replay.value.from <= i < s.sessions[k].replay.value.upTo
    requires i < |s.log| && s.log[i].offset >= s.sessions[k].offset
    ensures Replayed(s.sessions[k], s.log[i])
  {
    SessionOf(s, k);
    var snapshot := s.sessions[k].replay.value;
    SliceSelects(s.log, snapshot.from, snapshot.upTo, s.sessions[k].offset, i);
  }

  lemma SliceSelects(log: seq<Record>, from: nat, upTo: nat, offset: int, i: nat)
    requires from <= i < upTo <= |log| && log[i].offset >= offset
    ensures log[i] in FromOffset(log[from..upTo], if offset < 0 then 0 else offset)
  {
    assert log[from..upTo][i - from] == log[i];
    FromOffsetMember(log[from..upTo], if offset < 0 then 0 else offset, log[i]);
  }

  /** Attaching leaves no gap. Take any run, and any moment `m` of it at which session `k` is the
      subscriber. A record published by then (its subscriber read), at or past the offset asked for
      and not discarded before the replay query, is never lost afterwards: it is in the replay, was
      forwarded, is queued, is in the hands of a capture goroutine, or was dropped on a full queue. */
  lemma {:induction false} NoGap(sources: set<Source>, run: seq<Action>, m: State, rest: seq<Action>, s: State,
                                 k: nat, i: nat)
    requires Exec(Init(sources), run) == Some(m) && Exec(m, rest) == Some(s)
    requires m.subscriber == Some(k)
    requires i < |m.log| && i < |m.publications| && m.publications[i] != Pending
    requires k < |s.sessions| && s.sessions[k].replay.Some?
    requires s.sessions[k].replay.value.from <= i && m.log[i].offset >= s.sessions[k].offset
    ensures i < |s.log| && s.log[i] == m.log[i]
    ensures var session, r := s.sessions[k], s.log[i];
            || Replayed(session, r)
            || Output(r) in session.received
            || Output(r) in session.queue
            || InFlight(s, k, r)
            || Dropped(session, r)
  {
    ReachableInv(sources, run, m);
    RunIsLater(m, rest, s);
    var snapshot := s.sessions[k].replay.value;
    if i < snapshot.upTo {
      SnapshotHas(s, k, i);
    } else {
      assert SessionLater(|m.log|, m.sessions[k], s.sessions[k]);
      assert ReplayInv(m.log, m.publications, m.subscriber, m.sessions[k], k);
      assert m.publications[i] == To(k);
      DirectedIsAccounted(s, k, i);
    }
  }

  /** A record published to a session stays accounted for, whether or not the session asked for a replay:
      it was forwarded, is queued, is in the hands of a capture goroutine, or was dropped on a full queue. */
  lemma {:induction false} PublishedIsAccounted(sources: set<Source>, run: seq<Action>, m: State,
                                                rest: seq<Action>, s: State, k: nat, i: nat)
    requires Exec(Init(sources), run) == Some(m) && Exec(m, rest) == Some(s)
    requires i < |m.log| && i < |m.publications| && m.publications[i] == To(k)
    ensures i < |s.log| && s.log[i] == m.log[i] && k < |s.sessions|
    ensures var session, r := s.sessions[k], m.log[i];
            Output(r) in session.received || Output(r) in session.queue || InFlight(s, k, r) || Dropped(session, r)
  {
    ReachableInv(sources, run, m);
    RunIsLater(m, rest, s);
    DirectedIsAccounted(s, k, i);
  }

  // ---------------------------------------------------------------- bounded, ordered, at most twice

  function Outputs(events: seq<Event>): seq<Record> {
    if events == [] then []
    else
      Outputs(events[..|events| - 1]) +
      if events[|events| - 1].Output? then [events[|events| - 1].record] else []
  }

  /** The records an attach client is sent: the replay, then what the forwarding loop passes on. */
  function ClientStream(session: Session): seq<Record> {
    (if session.replay.Some? then session.replay.value.records else []) + Outputs(session.received)
  }

  lemma {:induction false} OutputsHas(events: seq<Event>, r: Record)
    ensures r in Outputs(events) <==> Output(r) in events
  {
    if events != [] {
      OutputsHas(events[..|events| - 1], r);
      assert events == events[..|events| - 1] + [events[|events| - 1]];
    }
  }

  lemma {:induction false} OutputsConcat(a: seq<Event>, b: seq<Event>)
    ensures Outputs(a + b) == Outputs(a) + Outputs(b)
    decreases |b|
  {
    if b == [] {
      assert a + b == a;
    } else {
      OutputsConcat(a, b[..|b| - 1]);
      assert (a + b)[..|a + b| - 1] == a + b[..|b| - 1];
    }
  }

  lemma OutputsAppend(events: seq<Event>, e: Event)
    ensures Outputs(events + [e]) == Outputs(events) + if e.Output? then [e.record] else []
  {
    assert (events + [e])[..|events|] == events;
  }

  ghost predicate InOrderPerSource(rows: seq<Record>) {
    forall i, j :: 0 <= i < j < |rows| && rows[i].source == rows[j].source ==> rows[i].sequence < rows[j].sequence
  }

  lemma {:induction false} AcceptedInOrder(log: seq<Record>, publications: seq<Publication>, sends: seq<Sent>, k: nat)
    requires |publications| == |log| && SendsInv(log, publications, sends, k)
    ensures InOrderPerSource(Outputs(Accepted(sends)))
    decreases |sends|
  {
    if sends != [] {
      var init, last := sends[..|sends| - 1], sends[|sends| - 1];
      AcceptedInOrder(log, publications, init, k);
      if last.accepted {
        OutputsAppend(Accepted(init), last.event);
      } else {
        assert Accepted(sends) == Accepted(init);
      }
      if last.accepted && last.event.Output? {
        var rows := Outputs(Accepted(init));
        forall i | 0 <= i < |rows| && rows[i].source == last.event.record.source
          ensures rows[i].sequence < last.event.record.sequence
        {
          OutputsHas(Accepted(init), rows[i]);
          AcceptedHas(init, Output(rows[i]));
        }
      }
    }
  }

  /** The channel never holds more than its capacity; what was forwarded, then what is queued, is
      exactly what was accepted of the sends directed at it, in order; and each source's records
      come out with growing sequence numbers. */
  lemma {:induction false} BoundedInOrderDelivery(sources: set<Source>, run: seq<Action>, s: State, k: nat)
    requires Exec(Init(sources), run) == Some(s) && k < |s.sessions|
    ensures |s.sessions[k].queue| <= 256
    ensures s.sessions[k].received + s.sessions[k].queue == Accepted(s.sessions[k].sends)
    ensures InOrderPerSource(Outputs(s.sessions[k].received + s.sessions[k].queue))
    ensures InOrderPerSource(Outputs(s.sessions[k].received))
  {
    ReachableInv(sources, run, s);
    SessionOf(s, k);
    AcceptedInOrder(s.log, s.publications, s.sessions[k].sends, k);
    OutputsConcat(s.sessions[k].received, s.sessions[k].queue);
    var all := Outputs(s.sessions[k].received + s.sessions[k].queue);
    var part := Outputs(s.sessions[k].received);
    forall i, j | 0 <= i < j < |part| && part[i].source == part[j].source ensures part[i].sequence < part[j].sequence {
      assert all[i] == part[i] && all[j] == part[j];
    }
  }

  lemma {:induction false} DistinctOnce(rows: seq<Record>, r: Record)
    requires forall i, j :: 0 <= i < j < |rows| ==> rows[i] != rows[j]
    ensures multiset(rows)[r] == if r in rows then 1 else 0
    decreases |rows|
  {
    if rows != [] {
      var init, last := rows[..|rows| - 1], rows[|rows| - 1];
      assert rows == init + [last];
      DistinctOnce(init, r);
    }
  }

  /** A record reaches an attach client at most twice: once if it was in the replay, and once if it
      was forwarded live. */
  lemma {:induction false} DeliveredAtMostTwice(sources: set<Source>, run: seq<Action>, s: State, k: nat, r: Record)
    requires Exec(Init(sources), run) == Some(s) && k < |s.sessions|
    ensures multiset(ClientStream(s.sessions[k]))[r] ==
            (if Replayed(s.sessions[k], r) then 1 else 0) + (if Output(r) in s.sessions[k].received then 1 else 0)
    ensures Output(r) in s.sessions[k].received ==>
              Known(s.log, r) && |s.publications| == |s.log| && s.publications[r.sequence - 1] == To(k)
    ensures Replayed(s.sessions[k], r) ==>
              Known(s.log, r) && r.sequence <= s.sessions[k].replay.value.upTo && r.offset >= s.sessions[k].offset
  {
    ReachableInv(sources, run, s);
    BoundedInOrderDelivery(sources, run, s, k);
    var session := s.sessions[k];
    OutputsHas(session.received, r);
    DistinctOnce(Outputs(session.received), r);
    if Output(r) in session.received {
      ReceivedIsDirected(s, k, r);
    }
    if session.replay.Some? {
      SnapshotIsDistinct(s, k);
      DistinctOnce(session.replay.value.records, r);
      if Replayed(session, r) {
        ReplayedIsKnown(s, k, r);
      }
    }
  }

  lemma ReceivedIsDirected(s: State, k: nat, r: Record)
    requires Inv(s) && k < |s.sessions| && Output(r) in s.sessions[k].received
    ensures Known(s.log, r) && |s.publications| == |s.log| && s.publications[r.sequence - 1] == To(k)
  {
    SessionOf(s, k);
    AcceptedHas(s.sessions[k].sends, Output(r));
    assert Output(r) in s.sessions[k].received + s.sessions[k].queue;
  }

  lemma SnapshotIsRun(s: State, k: nat)
    requires Inv(s) && k < |s.sessions| && s.sessions[k].replay.Some?
    ensures var snapshot := s.sessions[k].replay.value;
            && snapshot.from <= snapshot.upTo <= |s.log|
            && exists skipped: nat :: skipped <= snapshot.upTo - snapshot.from
                 && snapshot.records == s.log[snapshot.from..snapshot.upTo][skipped..]
  {
    SessionOf(s, k);
    var snapshot := s.sessions[k].replay.value;
    var rows := s.log[snapshot.from..snapshot.upTo];
    var from := if s.sessions[k].offset < 0 then 0 else s.sessions[k].offset;
    assert IsRun(rows, snapshot.upTo, if rows == [] then 0 else End(rows[|rows| - 1]));
    FromOffsetIsSuffix(rows, snapshot.upTo, if rows == [] then 0 else End(rows[|rows| - 1]), from);
    assert snapshot.records == rows[Skipped(rows, from)..];
  }

  lemma SnapshotIsDistinct(s: State, k: nat)
    requires Inv(s) && k < |s.sessions| && s.sessions[k].replay.Some?
    ensures var records := s.sessions[k].replay.value.records;
            forall i, j :: 0 <= i < j < |records| ==> records[i].sequence < records[j].sequence
  {
    SnapshotIsRun(s, k);
  }

  lemma ReplayedIsKnown(s: State, k: nat, r: Record)
    requires Inv(s) && k < |s.sessions| && Replayed(s.sessions[k], r)
    ensures Known(s.log, r) && r.sequence <= s.sessions[k].replay.value.upTo && r.offset >= s.sessions[k].offset
  {
    SessionOf(s, k);
    var snapshot := s.sessions[k].replay.value;
    SnapshotMember(s.log, snapshot.from, snapshot.upTo, s.sessions[k].offset, r);
  }

  lemma SnapshotMember(log: seq<Record>, from: nat, upTo: nat, offset: int, r: Record)
    requires IsRun(log, |log|, LogSize(log)) && from <= upTo <= |log|
    requires r in FromOffset(log[from..upTo], if offset < 0 then 0 else offset)
    ensures Known(log, r) && r.sequence <= upTo && r.offset >= offset
  {
    var rows := log[from..upTo];
    FromOffsetMember(rows, if offset < 0 then 0 else offset, r);
    var i :| 0 <= i < |rows| && rows[i] == r;
    assert log[from + i] == r;
  }

  // ---------------------------------------------------------------- Exit

  /** A session gets an Exit only if it was the subscriber when EOF was published, and gets it once;
      an Exit carries the persisted state. */
  lemma {:induction false} ExitOnlyIfSubscribedAtEof(sources: set<Source>, run: seq<Action>, s: State, k: nat)
    requires Exec(Init(sources), run) == Some(s) && k < |s.sessions| && s.sessions[k].exit.Some?
    ensures s.eofTo == Some(k)
    ensures s.sessions[k].exit.value.ExitEvent? ==> s.sessions[k].exit.value.state == s.persisted
    ensures forall after: seq<Action>, s': State :: Exec(s, after) == Some(s') && k < |s'.sessions| ==>
              s'.sessions[k].exit == s.sessions[k].exit && s'.sessions[k].received == s.sessions[k].received
  {
    ReachableInv(sources, run, s);
    SessionOf(s, k);
    forall after: seq<Action>, s': State | Exec(s, after) == Some(s') && k < |s'.sessions|
      ensures s'.sessions[k].exit == s.sessions[k].exit && s'.sessions[k].received == s.sessions[k].received
    {
      RunIsLater(s, after, s');
      assert SessionLater(|s.log|, s.sessions[k], s'.sessions[k]);
    }
  }

  /** Attaching after the EOF publication gets no Exit, ever. */
  lemma {:induction false} AttachAfterEofGetsNoExit(sources: set<Source>, run: seq<Action>, m: State,
                                                    rest: seq<Action>, s: State, k: nat)
    requires Exec(Init(sources), run) == Some(m) && Exec(m, rest) == Some(s)
    requires m.waiter in {HoldsEof, SentEof, Finished} && |m.sessions| <= k < |s.sessions|
    ensures s.sessions[k].exit == None && !s.sessions[k].closed && Eof !in s.sessions[k].received
  {
    ReachableInv(sources, run, m);
    RunIsLater(m, rest, s);
    SessionOf(s, k);
  }

  function BeforeEof(queue: seq<Event>): seq<Event> {
    if queue == [] || queue[0] == Eof then [] else [queue[0]] + BeforeEof(queue[1..])
  }

  /** The session after its forwarding loop has run to the end. */
  function DrainedSession(session: Session, present: bool, persisted: JobState): Session {
    var passed := BeforeEof(session.queue);
    var found := |passed| < |session.queue|;
    session.(
    phase := Closing,
    queue := if found then session.queue[|passed| + 1..] else [],
    received := session.received + passed + if found then [Eof] else [],
    exit := Some(if present then ExitEvent(persisted) else JobMissing))
  }

  function Drained(s: State, k: nat): State
    requires k < |s.sessions|
  {
    s.(sessions := s.sessions[k := DrainedSession(s.sessions[k], s.present, s.persisted)])
  }

  lemma {:induction false} BeforeEofLength(queue: seq<Event>)
    ensures |BeforeEof(queue)| <= |queue|
    ensures |BeforeEof(queue)| == |queue| <==> Eof !in queue
    ensures BeforeEof(queue) == queue[..|BeforeEof(queue)|]
    ensures Eof !in BeforeEof(queue)
    ensures |BeforeEof(queue)| < |queue| ==> queue[|BeforeEof(queue)|] == Eof
  {
    if queue != [] && queue[0] != Eof {
      BeforeEofLength(queue[1..]);
      assert queue == [queue[0]] + queue[1..];
    }
  }

  lemma DrainedStep(session: Session, present: bool, persisted: JobState)
    requires session.queue != [] && session.queue[0].Output?
    ensures DrainedSession(Received(session, present, persisted), present, persisted) ==
            DrainedSession(session, present, persisted)
  {
    var head, tail := session.queue[0], session.queue[1..];
    var passed := BeforeEof(tail);
    assert BeforeEof(session.queue) == [head] + passed;
    assert (session.received + [head]) + passed == session.received + ([head] + passed);
    BeforeEofLength(tail);
    if |passed| < |tail| {
      assert tail[|passed| + 1..] == session.queue[|passed| + 2..];
    }
  }

  lemma FirstOfBeforeEof(queue: seq<Event>)
    ensures queue != [] && queue[0] != Eof ==>
              Outputs(BeforeEof(queue)) == [queue[0].record] + Outputs(BeforeEof(queue[1..]))
    ensures queue == [] || queue[0] == Eof ==> Outputs(BeforeEof(queue)) == []
  {
    if queue != [] && queue[0] != Eof {
      OutputsConcat([queue[0]], BeforeEof(queue[1..]));
      OutputsAppend([], queue[0]);
      assert [] + [queue[0]] == [queue[0]];
    }
  }

  /** One turn of the loop leaves what the drained session will be. */
  lemma ReceiveOne(s: State, k: nat)
    requires k < |s.sessions| && s.sessions[k].closed && s.sessions[k].phase == Live && !s.panicked
    ensures Enabled(s, Receive(k))
    ensures var queue, next := s.sessions[k].queue, Apply(s, Receive(k));
            && (queue == [] || queue[0] == Eof ==> next == Drained(s, k) && Outputs(BeforeEof(queue)) == [])
            && (queue != [] && queue[0] != Eof ==>
                  && Drained(next, k) == Drained(s, k)
                  && next.sessions[k].phase == Live && next.sessions[k].closed
                  && Outputs(BeforeEof(queue)) == [queue[0].record] + Outputs(BeforeEof(queue[1..])))
  {
    var session := s.sessions[k];
    var next := Apply(s, Receive(k));
    FirstOfBeforeEof(session.queue);
    if session.queue == [] || session.queue[0] == Eof {
      assert next.sessions[k] == DrainedSession(session, s.present, s.persisted);
    } else {
      DrainedStep(session, s.present, s.persisted);
      assert Drained(next, k).sessions == Drained(s, k).sessions;
    }
  }

  /** Exit is never lost: once the channel of a live session is closed, at most one receive per queued
      event and one more run its loop to the end. Everything queued before EOF, or everything at all
      when EOF was dropped on a full queue, is forwarded in order, and then the Exit. */
  lemma {:induction false} DrainToExit(s: State, k: nat) returns (run: seq<Action>)
    requires k < |s.sessions| && s.sessions[k].closed && s.sessions[k].phase == Live && !s.panicked
    ensures |run| <= |s.sessions[k].queue| + 1
    ensures forall i :: 0 <= i < |run| ==> run[i] == Receive(k)
    ensures Exec(s, run) == Some(Drained(s, k))
    decreases |s.sessions[k].queue|
  {
    var queue := s.sessions[k].queue;
    ReceiveOne(s, k);
    ExecSnoc(s, [], Receive(k));
    assert [] + [Receive(k)] == [Receive(k)];
    run := [Receive(k)];
    if queue != [] && queue[0] != Eof {
      var rest := DrainToExit(Apply(s, Receive(k)), k);
      ExecConcat(s, [Receive(k)], rest);
      run := [Receive(k)] + rest;
    }
  }

  /** Whatever else is interleaved, a live session whose channel is closed can always receive, nobody else
      touches it, and each receive shrinks its queue or ends its loop. */
  lemma {:induction false} ClosedSessionProgress(s: State, k: nat, a: Action)
    requires Inv(s) && k < |s.sessions| && s.sessions[k].closed && s.sessions[k].phase == Live
    requires Enabled(s, a) && a != Leave(k)
    ensures Enabled(s, Receive(k))
    ensures k < |Apply(s, a).sessions|
    ensures var next := Apply(s, a).sessions[k];
            if a != Receive(k) then next == s.sessions[k]
            else next.exit.Some? || (next.phase == Live && next.closed && |next.queue| < |s.sessions[k].queue|)
  {
    ClosedMeansFinished(s, k);
    if a != Receive(k) {
      OthersLeaveClosedSession(s, k, a);
    }
  }

  lemma OthersLeaveClosedSession(s: State, k: nat, a: Action)
    requires k < |s.sessions| && s.sessions[k].closed && s.sessions[k].phase == Live && s.waiter == Finished
    requires Enabled(s, a) && a != Leave(k) && a != Receive(k)
    ensures k < |Apply(s, a).sessions| && Apply(s, a).sessions[k] == s.sessions[k]
  {
    match a
    case AppendRow(_, _) | Count(_) | ReadSubscriber(_) =>
    case Send(_) | CaptureReturns(_) =>
    case Attach(_, _) | ReplayQuery(_) =>
    case Receive(_) | Leave(_) | Detach(_) =>
    case _ =>
  }

  lemma ClosedMeansFinished(s: State, k: nat)
    requires Inv(s) && k < |s.sessions| && s.sessions[k].closed
    ensures s.waiter == Finished && s.eofTo == Some(k)
  {
    SessionOf(s, k);
  }

  /** The session subscribed when EOF is published has its channel closed when the waiter is done. */
  lemma {:induction false} SubscriberIsClosedInTheEnd(sources: set<Source>, run: seq<Action>, s: State, k: nat)
    requires Exec(Init(sources), run) == Some(s) && s.waiter == Finished
    ensures s.eofTo == Some(k) <==> k < |s.sessions| && s.sessions[k].closed
  {
    ReachableInv(sources, run, s);
    if k < |s.sessions| {
      SessionOf(s, k);
    }
  }

  // ---------------------------------------------------------------- what an Exit says about the output

  lemma {:induction false} AcceptedPrefix(a: seq<Sent>, b: seq<Sent>)
    requires a <= b
    ensures Accepted(a) <= Accepted(b)
    decreases |b|
  {
    if |a| < |b| {
      AcceptedPrefix(a, b[..|b| - 1]);
    } else {
      assert a == b;
    }
  }

  lemma PrefixEndsBeforeEof(entered: seq<Event>, received: seq<Event>, queue: seq<Event>)
    requires entered <= received + queue && Eof !in entered
    requires queue == [] || (received != [] && received[|received| - 1] == Eof)
    ensures entered <= received
  {
    assert forall j :: 0 <= j < |entered| ==> (received + queue)[j] == entered[j];
    if received != [] {
      assert (received + queue)[|received| - 1] == received[|received| - 1];
    }
  }

  /** What entered the channel before EOF was received by the time of the Exit. */
  lemma EnteredIsReceived(m: State, s: State, k: nat, e: Event)
    requires Inv(m) && Inv(s) && k < |m.sessions| && k < |s.sessions|
    requires m.waiter in {Waiting, Decided, Completed} && s.sessions[k].exit.Some?
    requires m.sessions[k].sends <= s.sessions[k].sends
    requires e in Accepted(m.sessions[k].sends)
    ensures e in s.sessions[k].received
  {
    NoEofEntered(m, k);
    ExitedIsDrained(s, k);
    EnteredBeforeExit(m.sessions[k], s.sessions[k], e);
  }

  lemma ExitedIsDrained(s: State, k: nat)
    requires Inv(s) && k < |s.sessions| && s.sessions[k].exit.Some?
    ensures var session := s.sessions[k];
            && ChannelInv(session)
            && (session.queue == [] || (session.received != [] && session.received[|session.received| - 1] == Eof))
  {
    SessionOf(s, k);
  }

  lemma NoEofEntered(m: State, k: nat)
    requires Inv(m) && k < |m.sessions| && m.waiter in {Waiting, Decided, Completed}
    ensures Eof !in Accepted(m.sessions[k].sends)
  {
    SessionOf(m, k);
    EofAccepted(m.sessions[k].sends);
  }

  lemma EnteredBeforeExit(a: Session, b: Session, e: Event)
    requires ChannelInv(b) && a.sends <= b.sends && Eof !in Accepted(a.sends) && e in Accepted(a.sends)
    requires b.queue == [] || (b.received != [] && b.received[|b.received| - 1] == Eof)
    ensures e in b.received
  {
    AcceptedPrefix(a.sends, b.sends);
    PrefixEndsBeforeEof(Accepted(a.sends), b.received, b.queue);
  }

  /** EOF can only be the last event a session receives. */
  ghost predicate EofIsLast(received: seq<Event>) {
    forall i :: 0 <= i < |received| - 1 ==> received[i] != Eof
  }

  lemma OnlyReceiveDelivers(s: State, a: Action, k: nat)
    requires Enabled(s, a) && k < |Apply(s, a).sessions| && a != Receive(k)
    ensures Apply(s, a).sessions[k].received == if k < |s.sessions| then s.sessions[k].received else []
    ensures Apply(s, a).sessions[k].exit == if k < |s.sessions| then s.sessions[k].exit else None
  {
    match a
    case Send(source) => SendTouchesChannel(s, source, k);
    case Attach(_, _) | ReplayQuery(_) | Receive(_) | Leave(_) | Detach(_) => SessionStepDelivers(s, a, k);
    case SendEof => SendEofTouchesChannel(s, k);
    case CloseChannel => CloseTouchesChannel(s, k);
    case _ => OthersMoveNoSession(s, a);
  }

  lemma OthersMoveNoSession(s: State, a: Action)
    requires Enabled(s, a) && !a.Send? && !a.SendEof? && !a.CloseChannel?
    requires !a.Attach? && !a.ReplayQuery? && !a.Receive? && !a.Leave? && !a.Detach?
    ensures Apply(s, a).sessions == s.sessions
  {
  }

  /** What a send, or the close, leaves of a session: everything but its channel. */
  ghost predicate SameButChannel(a: Session, b: Session) {
    && b.phase == a.phase && b.offset == a.offset && b.received == a.received
    && b.replay == a.replay && b.exit == a.exit
  }

  lemma SendTouchesChannel(s: State, source: Source, k: nat)
    requires source in s.captures && s.captures[source].Sending? && s.captures[source].session < |s.sessions|
    requires k < |s.sessions|
    ensures |SendOutput(s, source).sessions| == |s.sessions|
    ensures SameButChannel(s.sessions[k], SendOutput(s, source).sessions[k])
  {
  }

  lemma SendEofTouchesChannel(s: State, k: nat)
    requires Enabled(s, SendEof) && k < |s.sessions|
    ensures |Apply(s, SendEof).sessions| == |s.sessions|
    ensures SameButChannel(s.sessions[k], Apply(s, SendEof).sessions[k])
  {
  }

  lemma CloseTouchesChannel(s: State, k: nat)
    requires Enabled(s, CloseChannel) && k < |s.sessions|
    ensures |Apply(s, CloseChannel).sessions| == |s.sessions|
    ensures SameButChannel(s.sessions[k], Apply(s, CloseChannel).sessions[k])
  {
  }

  lemma SessionStepDelivers(s: State, a: Action, k: nat)
    requires Enabled(s, a) && k < |Apply(s, a).sessions| && a != Receive(k)
    requires a.Attach? || a.ReplayQuery? || a.Receive? || a.Leave? || a.Detach?
    ensures Apply(s, a).sessions[k].received == if k < |s.sessions| then s.sessions[k].received else []
    ensures Apply(s, a).sessions[k].exit == if k < |s.sessions| then s.sessions[k].exit else None
  {
  }

  lemma ReceiveKeepsEofLast(s: State, k: nat)
    requires Inv(s) && Enabled(s, Receive(k))
    ensures k < |Apply(s, Receive(k)).sessions| && EofIsLast(Apply(s, Receive(k)).sessions[k].received)
  {
    NoEofYet(s, k);
    ReceivedEndsAtEof(s.sessions[k], s.present, s.persisted);
  }

  lemma NoEofYet(s: State, k: nat)
    requires Inv(s) && k < |s.sessions| && s.sessions[k].phase == Live
    ensures Eof !in s.sessions[k].received
  {
    SessionOf(s, k);
  }

  lemma ReceivedEndsAtEof(session: Session, present: bool, persisted: JobState)
    requires (session.queue != [] || session.closed) && Eof !in session.received
    ensures EofIsLast(Received(session, present, persisted).received)
  {
  }

  lemma {:induction false} EofIsReceivedLast(sources: set<Source>, run: seq<Action>, s: State, k: nat)
    requires Exec(Init(sources), run) == Some(s) && k < |s.sessions|
    ensures EofIsLast(s.sessions[k].received)
    decreases |run|
  {
    if run != [] {
      var init, last := run[..|run| - 1], run[|run| - 1];
      var before := Exec(Init(sources), init).value;
      if last == Receive(k) {
        ReachableInv(sources, init, before);
        ReceiveKeepsEofLast(before, k);
      } else {
        OnlyReceiveDelivers(before, last, k);
        if k < |before.sessions| {
          EofIsReceivedLast(sources, init, before, k);
        }
      }
    }
  }

  lemma {:induction false} BeforeEofSplit(received: seq<Event>, rest: seq<Event>)
    requires EofIsLast(received)
    requires rest == [] || (received != [] && received[|received| - 1] == Eof)
    ensures Outputs(BeforeEof(received + rest)) == Outputs(received)
    decreases |received|
  {
    if received == [] {
      assert received + rest == [];
    } else {
      var head, tail := received[0], received[1..];
      assert received + rest == [head] + (tail + rest);
      assert (received + rest)[1..] == tail + rest;
      assert received == [head] + tail;
      OutputsConcat([head], tail);
      OutputsAppend([], head);
      assert [] + [head] == [head];
      if head == Eof {
        assert tail == [];
      } else {
        BeforeEofSplit(tail, rest);
        OutputsConcat([head], BeforeEof(tail + rest));
      }
    }
  }

  /** What a session that got its Exit was sent live is exactly what its channel accepted before EOF:
      nothing accepted before EOF is missing, and nothing else was forwarded. */
  lemma {:induction false} ExitStreamIsExact(sources: set<Source>, run: seq<Action>, s: State, k: nat)
    requires Exec(Init(sources), run) == Some(s) && k < |s.sessions| && s.sessions[k].exit.Some?
    ensures Outputs(s.sessions[k].received) == Outputs(BeforeEof(Accepted(s.sessions[k].sends)))
  {
    ReachableInv(sources, run, s);
    ExitedIsDrained(s, k);
    EofIsReceivedLast(sources, run, s, k);
    BeforeEofSplit(s.sessions[k].received, s.sessions[k].queue);
  }

  /** Of the records published to session `k`, with or without a replay, those whose send was over when EOF
      was published are with the client at its Exit, unless a full queue dropped them. */
  lemma {:induction false} PublishedIsDelivered(sources: set<Source>, run: seq<Action>, m: State,
                                                rest: seq<Action>, s: State, k: nat, i: nat)
    requires Exec(Init(sources), run) == Some(m) && Exec(m, rest) == Some(s) && m.waiter == Completed
    requires i < |m.log| && i < |m.publications| && m.publications[i] == To(k) && !InFlight(m, k, m.log[i])
    requires k < |s.sessions| && s.sessions[k].exit.Some?
    ensures Output(m.log[i]) in s.sessions[k].received || Dropped(s.sessions[k], m.log[i])
  {
    ReachableInv(sources, run, m);
    RunIsLater(m, rest, s);
    DirectedIsAccounted(m, k, i);
    SendsStay(m, s, k);
    if !Dropped(m.sessions[k], m.log[i]) {
      ChannelOf(m, k);
      EnteredIsReceived(m, s, k, Output(m.log[i]));
    }
  }

  lemma SendsStay(m: State, s: State, k: nat)
    requires StateLater(m, s) && k < |m.sessions|
    ensures k < |s.sessions| && m.sessions[k].sends <= s.sessions[k].sends
  {
    assert SessionLater(|m.log|, m.sessions[k], s.sessions[k]);
  }

  lemma ChannelOf(s: State, k: nat)
    requires Inv(s) && k < |s.sessions|
    ensures Accepted(s.sessions[k].sends) == s.sessions[k].received + s.sessions[k].queue
  {
    SessionOf(s, k);
  }

  /** A record whose publication to session `k` was over when EOF was published is, once that session
      has its Exit, with the client, unless the replay had skipped it or a full queue dropped it. */
  lemma {:induction false} ExitDelivers(sources: set<Source>, run: seq<Action>, m: State, rest: seq<Action>,
                                        s: State, k: nat, i: nat)
    requires Exec(Init(sources), run) == Some(m) && Exec(m, rest) == Some(s)
    requires m.waiter == Completed && m.subscriber == Some(k)
    requires i < |m.log| && i < |m.publications| && m.publications[i] != Pending && !InFlight(m, k, m.log[i])
    requires k < |s.sessions| && s.sessions[k].replay.Some? && s.sessions[k].exit.Some?
    requires s.sessions[k].replay.value.from <= i && m.log[i].offset >= s.sessions[k].offset
    ensures m.log[i] in ClientStream(s.sessions[k]) || Dropped(s.sessions[k], m.log[i])
  {
    ReachableInv(sources, run, m);
    RunIsLater(m, rest, s);
    OutputsHas(s.sessions[k].received, m.log[i]);
    if i < s.sessions[k].replay.value.upTo {
      SnapshotHas(s, k, i);
    } else {
      LateIsDirected(m, s, k, i);
      PublishedIsDelivered(sources, run, m, rest, s, k, i);
    }
  }

  /** What is published past the subscriber's replay is published to the subscriber. */
  lemma LateIsDirected(m: State, s: State, k: nat, i: nat)
    requires Inv(m) && StateLater(m, s) && m.subscriber == Some(k) && k < |s.sessions| && s.sessions[k].replay.Some?
    requires s.sessions[k].replay.value.upTo <= i < |m.log| && i < |m.publications| && m.publications[i] != Pending
    ensures m.publications[i] == To(k)
  {
    SubscriberIsOpen(m);
    SessionOf(m, k);
    assert SessionLater(|m.log|, m.sessions[k], s.sessions[k]);
  }

  // ---------------------------------------------------------------- lifecycle

  ghost predicate CancelBeforeExit(run: seq<Action>) {
    exists i, j :: 0 <= i < j < |run| && run[i] == RequestCancel && run[j] == TakeExit
  }

  lemma CancelStep(s: State, a: Action)
    requires Enabled(s, a)
    ensures Apply(s, a).cancelRequested <==> s.cancelRequested || a == RequestCancel
  {
    match a
    case AppendRow(_, _) | Count(_) | ReadSubscriber(_) =>
    case Send(_) | CaptureReturns(_) =>
    case Attach(_, _) | ReplayQuery(_) | Receive(_) | Leave(_) | Detach(_) =>
    case _ =>
  }

  lemma ExitStep(s: State, a: Action)
    requires Enabled(s, a)
    ensures var s' := Apply(s, a);
            && (s'.waiter == Waiting <==> s.waiter == Waiting && a != TakeExit)
            && s'.state == (if a == TakeExit then (if s.cancelRequested then Canceled else Exited) else s.state)
            && (a == TakeExit ==> s.waiter == Waiting)
  {
    if a != TakeExit {
      OthersKeepDecision(s, a);
    }
  }

  lemma OthersKeepDecision(s: State, a: Action)
    requires Enabled(s, a) && a != TakeExit
    ensures Apply(s, a).state == s.state && (Apply(s, a).waiter == Waiting <==> s.waiter == Waiting)
  {
    match a
    case AppendRow(_, _) | Count(_) | ReadSubscriber(_) =>
    case Send(_) =>
    case Attach(_, _) | ReplayQuery(_) | Receive(_) | Leave(_) | Detach(_) =>
    case _ =>
  }

  lemma OthersKeepPersisted(s: State, a: Action)
    requires Enabled(s, a) && !a.Complete?
    ensures Apply(s, a).persisted == s.persisted
    ensures Apply(s, a).waiter in {Waiting, Decided} ==> s.waiter in {Waiting, Decided}
  {
    match a
    case AppendRow(_, _) | Count(_) | ReadSubscriber(_) =>
    case Send(_) =>
    case Attach(_, _) | ReplayQuery(_) | Receive(_) | Leave(_) | Detach(_) =>
    case _ =>
  }

  lemma CompletionStep(s: State, a: Action)
    requires WaiterInv(s) && (s.persisted == Running ==> s.present) && Enabled(s, a)
    ensures var s' := Apply(s, a);
            && (s'.waiter in {Waiting, Decided} ==> a != Complete(true) && s.waiter in {Waiting, Decided})
            && (s'.persisted != Running <==> s.persisted != Running || a == Complete(true))
  {
    if !a.Complete? {
      OthersKeepPersisted(s, a);
    }
  }

  ghost predicate Lifecycle(run: seq<Action>, s: State) {
    && (s.waiter == Waiting <==> TakeExit !in run)
    && (s.cancelRequested <==> RequestCancel in run)
    && (s.waiter != Waiting ==> s.state == if CancelBeforeExit(run) then Canceled else Exited)
    && (s.waiter == Waiting ==> !CancelBeforeExit(run))
    && (s.waiter in {Waiting, Decided} ==> Complete(true) !in run)
    && (Complete(true) in run <==> s.persisted != Running)
  }

  lemma LifecycleSnoc(init: seq<Action>, last: Action, s: State)
    requires WaiterInv(s) && (s.persisted == Running ==> s.present) && Enabled(s, last) && Lifecycle(init, s)
    ensures Lifecycle(init + [last], Apply(s, last))
  {
    CancelStep(s, last);
    ExitStep(s, last);
    CompletionStep(s, last);
    CancelBeforeExitSnoc(init, last);
  }

  lemma {:induction false} LifecycleHistory(sources: set<Source>, run: seq<Action>, s: State)
    requires Exec(Init(sources), run) == Some(s)
    ensures Lifecycle(run, s)
    decreases |run|
  {
    if run != [] {
      var init, last := run[..|run| - 1], run[|run| - 1];
      var before := Exec(Init(sources), init).value;
      LifecycleHistory(sources, init, before);
      ReachableWaiter(sources, init, before);
      assert run == init + [last];
      LifecycleSnoc(init, last, before);
    }
  }

  lemma ReachableWaiter(sources: set<Source>, run: seq<Action>, s: State)
    requires Exec(Init(sources), run) == Some(s)
    ensures WaiterInv(s) && (s.persisted == Running ==> s.present)
  {
    ReachableInv(sources, run, s);
  }

  lemma CancelBeforeExitSnoc(init: seq<Action>, last: Action)
    ensures CancelBeforeExit(init + [last]) <==>
            CancelBeforeExit(init) || (last == TakeExit && RequestCancel in init)
  {
    var run := init + [last];
    if CancelBeforeExit(init) {
      var i, j :| 0 <= i < j < |init| && init[i] == RequestCancel && init[j] == TakeExit;
      assert run[i] == RequestCancel && run[j] == TakeExit;
    }
    if last == TakeExit && RequestCancel in init {
      var i :| 0 <= i < |init| && init[i] == RequestCancel;
      assert run[i] == RequestCancel && run[|init|] == TakeExit;
    }
    if CancelBeforeExit(run) {
      var i, j :| 0 <= i < j < |run| && run[i] == RequestCancel && run[j] == TakeExit;
      assert init[i] == RequestCancel;
      if j < |init| {
        assert init[j] == TakeExit;
      }
    }
  }

  /** The persisted verdict of any run, read off the run itself: running until a completion write
      succeeds, then canceled exactly when a cancel request came before the waiter's exit section. */
  lemma {:induction false} PersistedVerdict(sources: set<Source>, run: seq<Action>, s: State)
    requires Exec(Init(sources), run) == Some(s)
    ensures s.persisted ==
            if Complete(true) !in run then Running else if CancelBeforeExit(run) then Canceled else Exited
  {
    LifecycleHistory(sources, run, s);
    ReachableWaiter(sources, run, s);
  }

  /** A finished job never changes its persisted state again, cancel requests included; and its row is
      removed only after it finished. */
  lemma {:induction false} FinishedStaysFinished(sources: set<Source>, run: seq<Action>, m: State,
                                                 rest: seq<Action>, s: State)
    requires Exec(Init(sources), run) == Some(m) && Exec(m, rest) == Some(s)
    ensures m.persisted != Running ==> s.persisted == m.persisted
    ensures s.persisted == Running ==> s.present && s.discarded == 0
  {
    ReachableInv(sources, run, m);
    RunIsLater(m, rest, s);
  }

  /** The in-memory size trails the persisted size by exactly the bytes whose append is in flight. */
  lemma {:induction false} CountersAgree(sources: set<Source>, run: seq<Action>, s: State)
    requires Exec(Init(sources), run) == Some(s)
    ensures s.outputSize + UncountedBytes(s.captures) == LogSize(s.log) == |Bytes(s.log)|
    ensures (forall c :: c in s.captures ==> !s.captures[c].Stored?) ==> s.outputSize == |Bytes(s.log)|
  {
    ReachableInv(sources, run, s);
    if s.log != [] {
      RunLength(s.log, |s.log|, LogSize(s.log));
    }
  }

  // ---------------------------------------------------------------- sending on a closed channel

  ghost predicate Holds(s: State, k: nat) {
    exists c :: c in s.captures && s.captures[c].Sending? && s.captures[c].session == k
  }

  ghost predicate NobodyHoldsClosed(s: State) {
    forall c :: c in s.captures && s.captures[c].Sending? ==>
      s.captures[c].session < |s.sessions| && !s.sessions[s.captures[c].session].closed
  }

  lemma SubscriberIsOpen(s: State)
    requires Inv(s) && s.subscriber.Some?
    ensures s.subscriber.value < |s.sessions| && !s.sessions[s.subscriber.value].closed
  {
    SessionOf(s, s.subscriber.value);
  }

  lemma SessionStepKeepsNobodyHoldsClosed(s: State, a: Action)
    requires Enabled(s, a) && NobodyHoldsClosed(s)
    requires a.Attach? || a.ReplayQuery? || a.Receive? || a.Leave? || a.Detach?
    ensures !Apply(s, a).panicked && Apply(s, a).waiter == s.waiter && NobodyHoldsClosed(Apply(s, a))
  {
    SessionStepClosesNothing(s, a);
    forall c | c in s.captures && s.captures[c].Sending?
      ensures s.captures[c].session < |Apply(s, a).sessions| && !Apply(s, a).sessions[s.captures[c].session].closed
    {
      assert s.captures[c].session < |s.sessions|;
    }
  }

  lemma SessionStepClosesNothing(s: State, a: Action)
    requires Enabled(s, a) && (a.Attach? || a.ReplayQuery? || a.Receive? || a.Leave? || a.Detach?)
    ensures var s' := Apply(s, a);
            && !s'.panicked && s'.waiter == s.waiter && s'.captures == s.captures
            && |s.sessions| <= |s'.sessions|
            && forall k :: 0 <= k < |s.sessions| ==> s'.sessions[k].closed == s.sessions[k].closed
  {
    match a
    case Attach(_, _) =>
    case ReplayQuery(_) =>
    case Receive(_) =>
    case Leave(_) =>
    case Detach(_) =>
  }

  lemma ActionKeepsNobodyHoldsClosed(s: State, a: Action)
    requires Enabled(s, a) && s.waiter == Finished && NobodyHoldsClosed(s)
    requires s.subscriber.Some? ==> s.subscriber.value < |s.sessions| && !s.sessions[s.subscriber.value].closed
    ensures !Apply(s, a).panicked && Apply(s, a).waiter == Finished && NobodyHoldsClosed(Apply(s, a))
  {
    if a.Attach? || a.ReplayQuery? || a.Receive? || a.Leave? || a.Detach? {
      SessionStepKeepsNobodyHoldsClosed(s, a);
    }
  }

  lemma {:induction false} NoPanicAfterSafeClose(s: State, run: seq<Action>, s': State)
    requires Inv(s) && s.waiter == Finished && NobodyHoldsClosed(s) && !s.panicked
    requires Exec(s, run) == Some(s')
    ensures Inv(s') && s'.waiter == Finished && NobodyHoldsClosed(s') && !s'.panicked
    decreases |run|
  {
    if run != [] {
      var before := Exec(s, run[..|run| - 1]).value;
      NoPanicAfterSafeClose(s, run[..|run| - 1], before);
      ActionKeepsInv(before, run[|run| - 1]);
      if before.subscriber.Some? {
        SubscriberIsOpen(before);
      }
      ActionKeepsNobodyHoldsClosed(before, run[|run| - 1]);
    }
  }

  lemma HolderPanics(s: State, c: Source)
    requires c in s.captures && s.captures[c].Sending? && s.captures[c].session < |s.sessions|
    requires s.sessions[s.captures[c].session].closed && !s.panicked
    ensures Exec(s, [Send(c)]).Some? && Exec(s, [Send(c)]).value.panicked
  {
    ExecSnoc(s, [], Send(c));
    assert [] + [Send(c)] == [Send(c)];
  }

  lemma SafeClose(s: State)
    requires Inv(s) && Enabled(s, CloseChannel)
    ensures Apply(s, CloseChannel).waiter == Finished
    ensures Holds(s, s.eofTo.value) || NobodyHoldsClosed(Apply(s, CloseChannel))
  {
    GuardsAreProgramCounters(s, Stdout);
    forall c | c in s.captures && s.captures[c].Sending?
      ensures s.captures[c].session < |s.sessions|
      ensures !s.sessions[s.captures[c].session].closed
    {
      GuardsAreProgramCounters(s, c);
      SessionOf(s, s.captures[c].session);
    }
  }

  /** `publish` reads the subscriber under the lock but sends after unlocking it. Closing the channel
      at EOF is safe exactly when no capture goroutine is between the two: if one is, its send hits a
      closed channel; if none is, nothing that follows can. */
  lemma {:induction false} CloseIsSafeIffNobodyHolds(sources: set<Source>, run: seq<Action>, s: State)
    requires Exec(Init(sources), run) == Some(s) && Enabled(s, CloseChannel)
    ensures (exists after: seq<Action>, s': State ::
               Exec(Apply(s, CloseChannel), after) == Some(s') && s'.panicked)
            <==> Holds(s, s.eofTo.value)
  {
    ReachableInv(sources, run, s);
    if Holds(s, s.eofTo.value) {
      HeldCloseCanPanic(s);
    } else {
      UnheldCloseIsSafe(s);
    }
  }

  lemma HeldCloseCanPanic(s: State)
    requires Inv(s) && Enabled(s, CloseChannel) && Holds(s, s.eofTo.value)
    ensures exists after: seq<Action>, s': State ::
              Exec(Apply(s, CloseChannel), after) == Some(s') && s'.panicked
  {
    var closed := Apply(s, CloseChannel);
    var c :| c in s.captures && s.captures[c].Sending? && s.captures[c].session == s.eofTo.value;
    ClosedByEof(s);
    HolderPanics(closed, c);
    PanicIsReached(closed, [Send(c)], Exec(closed, [Send(c)]).value);
  }

  lemma ClosedByEof(s: State)
    requires Inv(s) && Enabled(s, CloseChannel)
    ensures var closed, k := Apply(s, CloseChannel), s.eofTo.value;
            !closed.panicked && closed.captures == s.captures && k < |closed.sessions| && closed.sessions[k].closed
  {
    SessionOf(s, s.eofTo.value);
  }

  lemma PanicIsReached(s: State, run: seq<Action>, end: State)
    requires Exec(s, run) == Some(end) && end.panicked
    ensures exists after: seq<Action>, s': State :: Exec(s, after) == Some(s') && s'.panicked
  {
  }

  lemma UnheldCloseIsSafe(s: State)
    requires Inv(s) && Enabled(s, CloseChannel) && !Holds(s, s.eofTo.value)
    ensures forall after: seq<Action>, s': State :: Exec(Apply(s, CloseChannel), after) == Some(s') ==> !s'.panicked
  {
    var closed := Apply(s, CloseChannel);
    CloseChannelKeepsInv(s);
    SafeClose(s);
    forall after: seq<Action>, s': State | Exec(closed, after) == Some(s') ensures !s'.panicked {
      NoPanicAfterSafeClose(closed, after, s');
    }
  }
}
