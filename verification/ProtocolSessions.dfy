/** What a session asked for, read off the run, and what it gets: its replay, its turns, and room in its
    channel. */
module ProtocolSessions {
  import opened OutputLog
  import opened Wrappers
  import opened Protocol
  import opened ProtocolInvariant
  import opened ProtocolTheorems

  // ---------------------------------------------------------------- what was asked

  /** The attach requests of a run; the k-th made session `k`. */
  function Requests(run: seq<Action>): (r: seq<Action>)
    ensures forall i :: 0 <= i < |r| ==> r[i].Attach?
  {
    if run == [] then []
    else Requests(run[..|run| - 1]) + if run[|run| - 1].Attach? then [run[|run| - 1]] else []
  }

  /** Where a session stands, from what it asked for, whether its replay was queried and whether it left. */
  ghost predicate Follows(session: Session, replay: bool, offset: int, queried: bool, left: bool) {
    && session.offset == offset
    && (queried ==> replay)
    && (session.replay.Some? <==> queried)
    && (session.phase == Replaying <==> replay && !queried && !left)
    && (session.phase == Live <==> (replay ==> queried) && !left && session.exit == None)
    && (replay && !queried ==> session.received == [] && session.exit == None)
  }

  /** The steps that belong to session `k` alone. */
  predicate OwnStep(a: Action, k: nat) {
    a in {ReplayQuery(k), Action.Receive(k), Leave(k), Detach(k)}
  }

  lemma OthersKeepFollows(s: State, a: Action, k: nat)
    requires Enabled(s, a) && k < |s.sessions| && !OwnStep(a, k)
    ensures k < |Apply(s, a).sessions| && SameButChannel(s.sessions[k], Apply(s, a).sessions[k])
  {
    match a
    case Send(source) => SendTouchesChannel(s, source, k);
    case SendEof => SendEofTouchesChannel(s, k);
    case CloseChannel => CloseTouchesChannel(s, k);
    case Attach(_, _) | ReplayQuery(_) | Receive(_) | Leave(_) | Detach(_) => OtherSessionsStay(s, a, k);
    case _ => OthersMoveNoSession(s, a);
  }

  lemma OtherSessionsStay(s: State, a: Action, k: nat)
    requires Enabled(s, a) && k < |s.sessions| && !OwnStep(a, k)
    requires a.Attach? || a.ReplayQuery? || a.Receive? || a.Leave? || a.Detach?
    ensures k < |Apply(s, a).sessions| && Apply(s, a).sessions[k] == s.sessions[k]
  {
  }

  lemma OwnStepKeepsFollows(s: State, a: Action, k: nat, replay: bool, offset: int, queried: bool, left: bool)
    requires Enabled(s, a) && k < |s.sessions| && OwnStep(a, k)
    requires Follows(s.sessions[k], replay, offset, queried, left)
    ensures k < |Apply(s, a).sessions|
    ensures Follows(Apply(s, a).sessions[k], replay, offset, queried || a == ReplayQuery(k), left || a == Leave(k))
  {
    match a
    case ReplayQuery(_) =>
    case Receive(_) =>
    case Leave(_) =>
    case Detach(_) =>
  }

  lemma NewSessionFollows(s: State, a: Action)
    requires Enabled(s, a) && a.Attach?
    ensures |Apply(s, a).sessions| == |s.sessions| + 1
    ensures Follows(Apply(s, a).sessions[|s.sessions|], a.replay, a.offset, false, false)
  {
  }

  lemma OnlyAttachAddsSessions(s: State, a: Action)
    requires Enabled(s, a)
    ensures |Apply(s, a).sessions| == |s.sessions| + if a.Attach? then 1 else 0
  {
    match a
    case AppendRow(_, _) | Count(_) | ReadSubscriber(_) | CaptureReturns(_) => OthersMoveNoSession(s, a);
    case Send(_) | SendEof | CloseChannel =>
    case Attach(_, _) | ReplayQuery(_) | Receive(_) | Leave(_) | Detach(_) =>
    case _ => OthersMoveNoSession(s, a);
  }

  /** Nothing happens to a session before its request. */
  lemma {:induction false} RequestsMakeSessions(s0: State, run: seq<Action>, s: State)
    requires Exec(s0, run) == Some(s) && s0.sessions == []
    ensures |Requests(run)| == |s.sessions|
    ensures forall k: nat :: ReplayQuery(k) in run || Leave(k) in run ==> k < |s.sessions|
    decreases |run|
  {
    if run != [] {
      var before := Exec(s0, run[..|run| - 1]).value;
      RequestsMakeSessions(s0, run[..|run| - 1], before);
      OnlyAttachAddsSessions(before, run[|run| - 1]);
      assert run == run[..|run| - 1] + [run[|run| - 1]];
    }
  }

  lemma {:induction false} RunFollows(s0: State, run: seq<Action>, s: State, k: nat)
    requires Exec(s0, run) == Some(s) && s0.sessions == [] && k < |s.sessions|
    ensures k < |Requests(run)|
    ensures Follows(s.sessions[k], Requests(run)[k].replay, Requests(run)[k].offset,
                    ReplayQuery(k) in run, Leave(k) in run)
    decreases |run|
  {
    RequestsMakeSessions(s0, run, s);
    if run != [] {
      var init, last := run[..|run| - 1], run[|run| - 1];
      var before := Exec(s0, init).value;
      assert run == init + [last];
      RequestsMakeSessions(s0, init, before);
      if k < |before.sessions| {
        RunFollows(s0, init, before, k);
        StepFollows(before, last, k, Requests(init)[k].replay, Requests(init)[k].offset,
                    ReplayQuery(k) in init, Leave(k) in init);
      } else {
        OnlyAttachAddsSessions(before, last);
        NewSessionFollows(before, last);
      }
    }
  }

  lemma StepFollows(s: State, a: Action, k: nat, replay: bool, offset: int, queried: bool, left: bool)
    requires Enabled(s, a) && k < |s.sessions|
    requires Follows(s.sessions[k], replay, offset, queried, left)
    ensures k < |Apply(s, a).sessions|
    ensures Follows(Apply(s, a).sessions[k], replay, offset, queried || a == ReplayQuery(k), left || a == Leave(k))
  {
    if OwnStep(a, k) {
      OwnStepKeepsFollows(s, a, k, replay, offset, queried, left);
    } else {
      OthersKeepFollows(s, a, k);
    }
  }

  // ---------------------------------------------------------------- what it gets

  /** The session is past its replay, if it asked for one, still there, and has something to receive. */
  predicate Forwarding(replay: bool, queried: bool, left: bool, session: Session) {
    (replay ==> queried) && !left && session.exit == None && (session.queue != [] || session.closed)
  }

  /** A session gets what its request asked for, over every run. One that asked for a replay receives
      nothing and gets no Exit before its replay, and until its replay was queried, or it left, the query
      can be made. One that did not ask never has a replay. From then on it can receive whatever its
      channel holds, until it leaves or has its Exit. */
  lemma {:induction false} SessionGetsWhatItAsked(sources: set<Source>, run: seq<Action>, s: State, k: nat)
    requires Exec(Init(sources), run) == Some(s) && k < |s.sessions|
    ensures |Requests(run)| == |s.sessions|
    ensures var asked, session := Requests(run)[k], s.sessions[k];
            var queried, left := ReplayQuery(k) in run, Leave(k) in run;
            && session.offset == asked.offset
            && (session.replay.Some? <==> queried)
            && (!asked.replay ==> session.replay == None)
            && (asked.replay && (session.received != [] || session.exit.Some?) ==> session.replay.Some?)
            && (asked.replay && !queried && !left ==> s.panicked || Enabled(s, ReplayQuery(k)))
            && (Forwarding(asked.replay, queried, left, session) ==> s.panicked || Enabled(s, Action.Receive(k)))
  {
    RequestsMakeSessions(Init(sources), run, s);
    RunFollows(Init(sources), run, s, k);
    ReachableTable(sources, run, s);
    TurnsAreEnabled(s, k);
  }

  lemma TurnsAreEnabled(s: State, k: nat)
    requires k < |s.sessions| && s.discarded <= |s.log|
    ensures s.sessions[k].phase == Replaying ==> s.panicked || Enabled(s, ReplayQuery(k))
    ensures s.sessions[k].phase == Live && (s.sessions[k].queue != [] || s.sessions[k].closed) ==>
              s.panicked || Enabled(s, Action.Receive(k))
  {
  }

  lemma ReachableTable(sources: set<Source>, run: seq<Action>, s: State)
    requires Exec(Init(sources), run) == Some(s)
    ensures s.discarded <= |s.log| && IsRun(s.Rows(), |s.log|, LogSize(s.log))
  {
    ReachableInv(sources, run, s);
    TableIsRun(s);
  }

  lemma OwnStepKeepsReplay(s: State, a: Action, k: nat)
    requires Enabled(s, a) && k < |s.sessions| && OwnStep(a, k) && a != ReplayQuery(k)
    ensures k < |Apply(s, a).sessions| && Apply(s, a).sessions[k].replay == s.sessions[k].replay
    ensures Apply(s, a).sessions[k].offset == s.sessions[k].offset
  {
    match a
    case Receive(_) =>
    case Leave(_) =>
    case Detach(_) =>
  }

  /** The query that made a session's replay. */
  lemma {:induction false} QueryOf(s0: State, run: seq<Action>, s: State, k: nat) returns (i: nat, m: State)
    requires Exec(s0, run) == Some(s) && s0.sessions == [] && k < |s.sessions| && s.sessions[k].replay.Some?
    ensures i < |run| && run[i] == ReplayQuery(k) && Exec(s0, run[..i]) == Some(m) && Enabled(m, ReplayQuery(k))
    ensures Apply(m, ReplayQuery(k)).sessions[k].replay == s.sessions[k].replay
    ensures m.sessions[k].offset == s.sessions[k].offset
    decreases |run|
  {
    var init, last := run[..|run| - 1], run[|run| - 1];
    i, m := |run| - 1, Exec(s0, init).value;
    if last != ReplayQuery(k) {
      OnlyAttachAddsSessions(m, last);
      if k == |m.sessions| {
        NewSessionFollows(m, last);
      } else if OwnStep(last, k) {
        OwnStepKeepsReplay(m, last, k);
      } else {
        OthersKeepFollows(m, last, k);
      }
      i, m := QueryOf(s0, init, m, k);
      assert run[..i] == init[..i];
    }
  }

  lemma SelectedRows(rows: seq<Record>, lastSequence: nat, size: nat, offset: int)
    requires IsRun(rows, lastSequence, size)
    ensures var r := FromOffset(rows, if offset < 0 then 0 else offset);
            && |r| <= |rows| && r == rows[|rows| - |r|..]
            && forall x :: x in r <==> x in rows && x.offset >= offset
  {
    var from := if offset < 0 then 0 else offset;
    FromOffsetIsSuffix(rows, lastSequence, size, from);
    forall x ensures x in FromOffset(rows, from) <==> x in rows && x.offset >= offset {
      FromOffsetMember(rows, from, x);
    }
  }

  lemma TableIsRun(m: State)
    requires Inv(m)
    ensures m.discarded <= |m.log| && IsRun(m.Rows(), |m.log|, LogSize(m.log))
  {
    RunSuffix(m.log, |m.log|, LogSize(m.log), m.discarded);
  }

  /** And its replay is right: when it was queried, it was the rows then in the table that lie at or past
      the offset asked for, all of them, in order. */
  lemma {:induction false} ReplayIsWhatWasStored(sources: set<Source>, run: seq<Action>, s: State, k: nat)
    returns (i: nat, m: State)
    requires Exec(Init(sources), run) == Some(s) && k < |s.sessions| && s.sessions[k].replay.Some?
    ensures i < |run| && run[i] == ReplayQuery(k) && Exec(Init(sources), run[..i]) == Some(m)
    ensures k < |Requests(run)| && m.discarded <= |m.log|
    ensures var records, rows := s.sessions[k].replay.value.records, m.Rows();
            && |records| <= |rows| && records == rows[|rows| - |records|..]
            && forall r :: r in records <==> r in rows && r.offset >= Requests(run)[k].offset
  {
    i, m := QueryOf(Init(sources), run, s, k);
    ReachableTable(sources, run[..i], m);
    SelectedRows(m.Rows(), |m.log|, LogSize(m.log), m.sessions[k].offset);
    RunFollows(Init(sources), run, s, k);
  }

  // ---------------------------------------------------------------- room in the channel

  /** A send to an open channel is accepted exactly if fewer than 256 events are queued; the event then
      stands at the end of the queue, and otherwise nothing changes. */
  lemma OfferIsAcceptedIff(session: Session, event: Event)
    ensures var r := Offer(session, event);
            && r.sends == session.sends + [Sent(event, |session.queue| < 256)]
            && r.queue == (if |session.queue| < 256 then session.queue + [event] else session.queue)
            && SameButChannel(session, r) && r.closed == session.closed
  {
  }

  /** The step that offered something to session `k`. */
  predicate Offers(s: State, a: Action, k: nat, event: Event) {
    || (a.Send? && a.source in s.captures && s.captures[a.source].Sending? && s.captures[a.source].session == k
        && event == Output(s.captures[a.source].record))
    || (a == SendEof && s.eofTo == Some(k) && event == Eof)
  }

  lemma SendsMove(s: State, a: Action, k: nat)
    requires Enabled(s, a) && k < |s.sessions|
    ensures k < |Apply(s, a).sessions|
    ensures var b := Apply(s, a).sessions[k];
            b.sends != s.sessions[k].sends ==>
              exists event :: Offers(s, a, k, event) && b == Offer(s.sessions[k], event)
  {
    match a
    case Send(source) => assert Offers(s, a, s.captures[source].session, Output(s.captures[source].record));
    case SendEof => assert s.eofTo.Some? ==> Offers(s, a, s.eofTo.value, Eof);
    case CloseChannel =>
    case Attach(_, _) | ReplayQuery(_) | Receive(_) | Leave(_) | Detach(_) => SessionStepSendsNothing(s, a, k);
    case _ => OthersMoveNoSession(s, a);
  }

  lemma SessionStepSendsNothing(s: State, a: Action, k: nat)
    requires Enabled(s, a) && k < |s.sessions|
    requires a.Attach? || a.ReplayQuery? || a.Receive? || a.Leave? || a.Detach?
    ensures k < |Apply(s, a).sessions| && Apply(s, a).sessions[k].sends == s.sessions[k].sends
  {
  }

  /** Over every run: an event is dropped only by a send that found 256 events queued, and is accepted
      only by one that found fewer. */
  lemma {:induction false} DroppedOnlyWhenFull(s0: State, run: seq<Action>, s: State, k: nat, n: nat)
    returns (i: nat, m: State)
    requires Exec(s0, run) == Some(s) && s0.sessions == [] && k < |s.sessions| && n < |s.sessions[k].sends|
    ensures i < |run| && Exec(s0, run[..i]) == Some(m) && k < |m.sessions|
    ensures Offers(m, run[i], k, s.sessions[k].sends[n].event)
    ensures s.sessions[k].sends[n].accepted <==> |m.sessions[k].queue| < 256
    decreases |run|
  {
    var init, last := run[..|run| - 1], run[|run| - 1];
    i, m := |run| - 1, Exec(s0, init).value;
    OnlyAttachAddsSessions(m, last);
    if k < |m.sessions| {
      SendsMove(m, last, k);
      if n < |m.sessions[k].sends| {
        i, m := DroppedOnlyWhenFull(s0, init, m, k, n);
        assert run[..i] == init[..i];
      }
    }
  }
}
