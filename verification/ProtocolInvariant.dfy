/** What every step of the pipeline keeps, whatever the interleaving. */
module ProtocolInvariant {
  import opened OutputLog
  import opened Wrappers
  import opened Jobs
  import opened Protocol

  // ---------------------------------------------------------------- vocabulary

  ghost predicate Known(log: seq<Record>, r: Record) {
    0 < r.sequence <= |log| && log[r.sequence - 1] == r
  }

  ghost predicate WasSent(sends: seq<Sent>, r: Record) {
    exists j :: 0 <= j < |sends| && sends[j].event == Output(r)
  }

  /** The events that entered the channel, in order. */
  function Accepted(sends: seq<Sent>): seq<Event> {
    if sends == [] then []
    else
      Accepted(sends[..|sends| - 1]) +
      if sends[|sends| - 1].accepted then [sends[|sends| - 1].event] else []
  }

  /** No later record of the same source: a capture goroutine finishes one record before the next. */
  ghost predicate IsLatest(log: seq<Record>, r: Record) {
    forall j :: r.sequence <= j < |log| ==> log[j].source != r.source
  }

  function Uncounted(c: Capture): nat {
    if c.Stored? then |c.record.data| else 0
  }

  function UncountedBytes(captures: map<Source, Capture>): nat {
    (if Stdout in captures then Uncounted(captures[Stdout]) else 0) +
    (if Stderr in captures then Uncounted(captures[Stderr]) else 0) +
    (if System in captures then Uncounted(captures[System]) else 0)
  }

  // ---------------------------------------------------------------- the invariant, part by part

  ghost predicate LogInv(s: State) {
    && IsRun(s.log, |s.log|, LogSize(s.log))
    && NoEmptyRecord(s.log)
    && (|s.log| > 0 ==> s.log[0].offset == 0)
    && (forall i :: 0 <= i < |s.log| ==> s.log[i].source in s.captures)
    && |s.publications| == |s.log|
    && s.discarded <= |s.log|
    && (!s.present ==> s.discarded == |s.log|)
    && (s.persisted == Running ==> s.present && s.discarded == 0)
  }

  ghost predicate CaptureInv(log: seq<Record>, publications: seq<Publication>, sessions: seq<Session>,
                             source: Source, c: Capture)
    requires |publications| == |log|
  {
    Holding(c) ==>
      && Known(log, c.record) && c.record.source == source && IsLatest(log, c.record)
      && (c.Stored? || c.Counted? ==> publications[c.record.sequence - 1] == Pending)
      && (c.Sending? ==>
            && c.session < |sessions|
            && publications[c.record.sequence - 1] == To(c.session)
            && !WasSent(sessions[c.session].sends, c.record))
  }

  ghost predicate PublicationInv(r: Record, p: Publication, captures: map<Source, Capture>, sessions: seq<Session>) {
    r.source in captures &&
    match p
    case Pending => captures[r.source] == Stored(r) || captures[r.source] == Counted(r)
    case Nobody => true
    case To(k) =>
      && k < |sessions|
      && (captures[r.source] == Sending(r, k) || WasSent(sessions[k].sends, r))
  }

  /** The channel holds what entered it and was not yet received. */
  ghost predicate ChannelInv(session: Session) {
    && |session.queue| <= QUEUE_CAPACITY
    && Accepted(session.sends) == session.received + session.queue
  }

  ghost predicate SendsInv(log: seq<Record>, publications: seq<Publication>, sends: seq<Sent>, k: nat)
    requires |publications| == |log|
  {
    && (forall i :: 0 <= i < |sends| && sends[i].event.Output? ==>
          && Known(log, sends[i].event.record)
          && publications[sends[i].event.record.sequence - 1] == To(k))
    && (forall i, j :: 0 <= i < j < |sends| && sends[i].event.Output? && sends[j].event.Output?
                       && sends[i].event.record.source == sends[j].event.record.source ==>
                       sends[i].event.record.sequence < sends[j].event.record.sequence)
  }

  ghost predicate ReplayInv(log: seq<Record>, publications: seq<Publication>, subscriber: Option<nat>,
                            session: Session, k: nat)
    requires |publications| == |log|
  {
    && (session.phase == Replaying ==> session.replay == None && session.received == [])
    && (session.replay.Some? ==>
          var snapshot := session.replay.value;
          && snapshot.from <= snapshot.upTo <= |log|
          && snapshot.records ==
             FromOffset(log[snapshot.from..snapshot.upTo], if session.offset < 0 then 0 else session.offset)
          && (subscriber == Some(k) ==>
                forall i :: snapshot.upTo <= i < |log| ==> publications[i] == Pending || publications[i] == To(k)))
  }

  ghost predicate SubscriberInv(s: State) {
    && (s.attached <==> s.subscriber.Some?)
    && (s.subscriber.Some? ==>
          && s.subscriber.value < |s.sessions|
          && s.sessions[s.subscriber.value].phase != Gone
          && s.eofTo != s.subscriber)
    && (forall k :: 0 <= k < |s.sessions| && s.sessions[k].phase != Gone ==>
          s.subscriber == Some(k) || s.eofTo == Some(k))
  }

  ghost predicate WaiterInv(s: State) {
    && (s.waiter == Waiting ==> s.state == Running)
    && (s.waiter != Waiting ==> s.state != Running)
    && (s.waiter in {Waiting, Decided} ==> s.persisted == Running)
    && (s.persisted == Running || s.persisted == s.state)
    && (s.waiter in {Waiting, Decided, Completed} ==> s.eofTo == None)
    && (s.waiter == SentEof ==> s.eofTo.Some?)
    && (s.eofTo.Some? ==> s.eofTo.value < |s.sessions|)
  }

  function EofCount(sends: seq<Sent>): nat {
    if sends == [] then 0 else EofCount(sends[..|sends| - 1]) + if sends[|sends| - 1].event.Eof? then 1 else 0
  }

  /** Only the session subscribed at the EOF publication is sent EOF, once, and is closed after it. */
  ghost predicate ExitInv(eofTo: Option<nat>, waiter: Waiter, persisted: JobState, session: Session, k: nat) {
    && EofCount(session.sends) == (if eofTo == Some(k) && waiter in {SentEof, Finished} then 1 else 0)
    && (session.closed <==> eofTo == Some(k) && waiter == Finished)
    && (session.exit.Some? ==>
          && eofTo == Some(k)
          && session.phase in {Closing, Gone}
          && (session.exit == Some(JobMissing) || session.exit == Some(ExitEvent(persisted)))
          && ((session.received != [] && session.received[|session.received| - 1] == Eof)
              || (session.closed && session.queue == [])))
    && (session.exit == None ==> Eof !in session.received)
  }

  // ---------------------------------------------------------------- the invariant

  ghost predicate CapturesInv(log: seq<Record>, publications: seq<Publication>, sessions: seq<Session>,
                              captures: map<Source, Capture>)
  {
    && |publications| == |log|
    && forall source :: source in captures ==> CaptureInv(log, publications, sessions, source, captures[source])
  }

  ghost predicate PublicationsInv(log: seq<Record>, publications: seq<Publication>, captures: map<Source, Capture>,
                                  sessions: seq<Session>)
  {
    && |publications| == |log|
    && forall i :: 0 <= i < |log| ==> PublicationInv(log[i], publications[i], captures, sessions)
  }

  ghost predicate ChannelsInv(sessions: seq<Session>) {
    forall k :: 0 <= k < |sessions| ==> ChannelInv(sessions[k])
  }

  ghost predicate AllSendsInv(log: seq<Record>, publications: seq<Publication>, sessions: seq<Session>) {
    && |publications| == |log|
    && forall k :: 0 <= k < |sessions| ==> SendsInv(log, publications, sessions[k].sends, k)
  }

  ghost predicate ReplaysInv(log: seq<Record>, publications: seq<Publication>, subscriber: Option<nat>,
                             sessions: seq<Session>)
  {
    && |publications| == |log|
    && forall k :: 0 <= k < |sessions| ==> ReplayInv(log, publications, subscriber, sessions[k], k)
  }

  ghost predicate ExitsInv(eofTo: Option<nat>, waiter: Waiter, persisted: JobState, sessions: seq<Session>) {
    forall k :: 0 <= k < |sessions| ==> ExitInv(eofTo, waiter, persisted, sessions[k], k)
  }

  ghost predicate CountersInv(s: State) {
    s.outputSize + UncountedBytes(s.captures) == LogSize(s.log)
  }

  ghost predicate Inv(s: State) {
    && LogInv(s)
    && CapturesInv(s.log, s.publications, s.sessions, s.captures)
    && PublicationsInv(s.log, s.publications, s.captures, s.sessions)
    && ChannelsInv(s.sessions)
    && AllSendsInv(s.log, s.publications, s.sessions)
    && ReplaysInv(s.log, s.publications, s.subscriber, s.sessions)
    && ExitsInv(s.eofTo, s.waiter, s.persisted, s.sessions)
    && SubscriberInv(s)
    && WaiterInv(s)
    && CountersInv(s)
  }

  // ---------------------------------------------------------------- lemmas about single parts

  lemma AcceptedAppend(sends: seq<Sent>, x: Sent)
    ensures Accepted(sends + [x]) == Accepted(sends) + if x.accepted then [x.event] else []
    ensures EofCount(sends + [x]) == EofCount(sends) + if x.event.Eof? then 1 else 0
  {
    assert (sends + [x])[..|sends|] == sends;
  }

  lemma {:induction false} EofAccepted(sends: seq<Sent>)
    ensures Eof in Accepted(sends) ==> EofCount(sends) > 0
  {
    if sends != [] {
      EofAccepted(sends[..|sends| - 1]);
    }
  }

  lemma WasSentAppend(sends: seq<Sent>, x: Sent, r: Record)
    ensures WasSent(sends + [x], r) <==> WasSent(sends, r) || x.event == Output(r)
  {
    if WasSent(sends, r) {
      var j :| 0 <= j < |sends| && sends[j].event == Output(r);
      assert (sends + [x])[j].event == Output(r);
    }
    if x.event == Output(r) {
      assert (sends + [x])[|sends|].event == Output(r);
    }
  }

  /** Offering one more event to a channel keeps its contents in line with what entered it. */
  lemma OfferKeepsChannel(session: Session, event: Event) returns (sent: Sent)
    requires ChannelInv(session)
    ensures ChannelInv(Offer(session, event))
    ensures sent.event == event && Offer(session, event).sends == session.sends + [sent]
    ensures EofCount(Offer(session, event).sends) == EofCount(session.sends) + if event.Eof? then 1 else 0
  {
    sent := Sent(event, |session.queue| < QUEUE_CAPACITY);
    AcceptedAppend(session.sends, sent);
    assert Offer(session, event).sends == session.sends + [sent];
  }

  lemma ReplayIgnoresQueue(log: seq<Record>, publications: seq<Publication>, subscriber: Option<nat>,
                           session: Session, session': Session, k: nat)
    requires |publications| == |log| && ReplayInv(log, publications, subscriber, session, k)
    requires session'.offset == session.offset && session'.replay == session.replay
    requires session'.phase == Replaying ==> session.phase == Replaying && session'.received == session.received
    ensures ReplayInv(log, publications, subscriber, session', k)
  {
  }

  lemma OfferOutputKeepsSession(log: seq<Record>, publications: seq<Publication>, subscriber: Option<nat>,
                                eofTo: Option<nat>, waiter: Waiter, persisted: JobState,
                                session: Session, k: nat, r: Record)
    requires |publications| == |log| && ReplayInv(log, publications, subscriber, session, k)
    requires ChannelInv(session) && ExitInv(eofTo, waiter, persisted, session, k) && !session.closed
    ensures ReplayInv(log, publications, subscriber, Offer(session, Output(r)), k)
    ensures ChannelInv(Offer(session, Output(r)))
    ensures ExitInv(eofTo, waiter, persisted, Offer(session, Output(r)), k)
  {
    ReplayIgnoresQueue(log, publications, subscriber, session, Offer(session, Output(r)), k);
    var sent := OfferKeepsChannel(session, Output(r));
  }

  lemma SendsAppend(log: seq<Record>, publications: seq<Publication>, sends: seq<Sent>, k: nat, x: Sent)
    requires |publications| == |log|
    requires SendsInv(log, publications, sends, k)
    requires x.event.Output? ==>
               var r := x.event.record;
               && Known(log, r) && publications[r.sequence - 1] == To(k)
               && IsLatest(log, r) && !WasSent(sends, r)
    ensures SendsInv(log, publications, sends + [x], k)
  {
    if x.event.Output? {
      var r := x.event.record;
      forall i | 0 <= i < |sends| && sends[i].event.Output? && sends[i].event.record.source == r.source
        ensures sends[i].event.record.sequence < r.sequence
      {
        assert Known(log, sends[i].event.record);
        assert sends[i].event != Output(r);
      }
    }
  }

  ghost predicate Later(log: seq<Record>, publications: seq<Publication>,
                        log': seq<Record>, publications': seq<Publication>)
  {
    && |publications| == |log| && |publications'| == |log'|
    && log <= log'
    && forall i :: 0 <= i < |log| && publications[i] != Pending ==> publications'[i] == publications[i]
  }

  lemma SendsLater(log: seq<Record>, publications: seq<Publication>, log': seq<Record>,
                   publications': seq<Publication>, sends: seq<Sent>, k: nat)
    requires Later(log, publications, log', publications')
    requires SendsInv(log, publications, sends, k)
    ensures SendsInv(log', publications', sends, k)
  {
    forall i | 0 <= i < |sends| && sends[i].event.Output?
      ensures Known(log', sends[i].event.record)
      ensures publications'[sends[i].event.record.sequence - 1] == To(k)
    {
      assert Known(log, sends[i].event.record);
    }
  }

  lemma AllSendsLater(log: seq<Record>, publications: seq<Publication>, log': seq<Record>,
                      publications': seq<Publication>, sessions: seq<Session>)
    requires Later(log, publications, log', publications')
    requires AllSendsInv(log, publications, sessions)
    ensures AllSendsInv(log', publications', sessions)
  {
    forall k | 0 <= k < |sessions| ensures SendsInv(log', publications', sessions[k].sends, k) {
      SendsLater(log, publications, log', publications', sessions[k].sends, k);
    }
  }

  /** Replays survive appends, and publications directed by the subscriber of the moment. */
  lemma ReplaysLater(log: seq<Record>, publications: seq<Publication>, log': seq<Record>,
                     publications': seq<Publication>, subscriber: Option<nat>, sessions: seq<Session>)
    requires Later(log, publications, log', publications')
    requires ReplaysInv(log, publications, subscriber, sessions)
    requires forall i :: 0 <= i < |log'| && (i >= |log| || publications'[i] != publications[i]) ==>
                           publications'[i] == Pending || (subscriber.Some? && publications'[i] == To(subscriber.value))
                           || (subscriber == None && publications'[i] == Nobody)
    ensures ReplaysInv(log', publications', subscriber, sessions)
  {
    forall k | 0 <= k < |sessions| ensures ReplayInv(log', publications', subscriber, sessions[k], k) {
      assert ReplayInv(log, publications, subscriber, sessions[k], k);
      if sessions[k].replay.Some? {
        var snapshot := sessions[k].replay.value;
        assert log'[snapshot.from..snapshot.upTo] == log[snapshot.from..snapshot.upTo];
      }
    }
  }

  // Replacing one session.

  lemma UpdateReplay(log: seq<Record>, publications: seq<Publication>, subscriber: Option<nat>,
                     sessions: seq<Session>, k: nat, session: Session)
    requires ReplaysInv(log, publications, subscriber, sessions) && k < |sessions|
    requires ReplayInv(log, publications, subscriber, sessions[k], k)
             ==> ReplayInv(log, publications, subscriber, session, k)
    ensures ReplaysInv(log, publications, subscriber, sessions[k := session])
  {
  }

  lemma UpdateExit(eofTo: Option<nat>, waiter: Waiter, persisted: JobState, sessions: seq<Session>,
                   k: nat, session: Session)
    requires ExitsInv(eofTo, waiter, persisted, sessions) && k < |sessions|
    requires ExitInv(eofTo, waiter, persisted, sessions[k], k) ==> ExitInv(eofTo, waiter, persisted, session, k)
    ensures ExitsInv(eofTo, waiter, persisted, sessions[k := session])
  {
  }

  lemma UpdateKeepsSends(s: State, k: nat, session: Session)
    requires Inv(s) && k < |s.sessions| && session.sends == s.sessions[k].sends
    ensures AllSendsInv(s.log, s.publications, s.sessions[k := session])
    ensures CapturesInv(s.log, s.publications, s.sessions[k := session], s.captures)
  {
    var sessions := s.sessions[k := session];
    forall c | c in s.captures ensures CaptureInv(s.log, s.publications, sessions, c, s.captures[c]) {
      assert CaptureInv(s.log, s.publications, s.sessions, c, s.captures[c]);
    }
    forall j | 0 <= j < |sessions| ensures SendsInv(s.log, s.publications, sessions[j].sends, j) {
      assert SendsInv(s.log, s.publications, s.sessions[j].sends, j);
    }
  }

  lemma UpdateKeepsPublications(log: seq<Record>, publications: seq<Publication>, captures: map<Source, Capture>,
                                sessions: seq<Session>, k: nat, session: Session)
    requires PublicationsInv(log, publications, captures, sessions)
    requires k < |sessions| && session.sends == sessions[k].sends
    ensures PublicationsInv(log, publications, captures, sessions[k := session])
  {
    forall i | 0 <= i < |log| ensures PublicationInv(log[i], publications[i], captures, sessions[k := session]) {
      assert PublicationInv(log[i], publications[i], captures, sessions);
    }
  }

  /** A session update that sends nothing leaves captures, publications and sends in order. */
  lemma UpdateQuietly(s: State, k: nat, session: Session)
    requires Inv(s) && k < |s.sessions| && session.sends == s.sessions[k].sends
    ensures CapturesInv(s.log, s.publications, s.sessions[k := session], s.captures)
    ensures PublicationsInv(s.log, s.publications, s.captures, s.sessions[k := session])
    ensures AllSendsInv(s.log, s.publications, s.sessions[k := session])
  {
    UpdateKeepsSends(s, k, session);
    UpdateKeepsPublications(s.log, s.publications, s.captures, s.sessions, k, session);
  }

  lemma UpdateChannel(sessions: seq<Session>, k: nat, session: Session)
    requires ChannelsInv(sessions) && k < |sessions|
    requires ChannelInv(session)
    ensures ChannelsInv(sessions[k := session])
  {
  }

  ghost predicate SessionInv(s: State, session: Session, k: nat)
    requires |s.publications| == |s.log|
  {
    && ChannelInv(session)
    && ReplayInv(s.log, s.publications, s.subscriber, session, k)
    && ExitInv(s.eofTo, s.waiter, s.persisted, session, k)
  }

  lemma SessionOf(s: State, k: nat)
    requires Inv(s) && k < |s.sessions|
    ensures SessionInv(s, s.sessions[k], k)
    ensures SendsInv(s.log, s.publications, s.sessions[k].sends, k)
  {
  }

  lemma UpdateParts(s: State, k: nat, session: Session)
    requires Inv(s) && k < |s.sessions| && SessionInv(s, session, k)
    ensures ChannelsInv(s.sessions[k := session])
    ensures ReplaysInv(s.log, s.publications, s.subscriber, s.sessions[k := session])
    ensures ExitsInv(s.eofTo, s.waiter, s.persisted, s.sessions[k := session])
  {
    UpdateChannel(s.sessions, k, session);
    UpdateReplay(s.log, s.publications, s.subscriber, s.sessions, k, session);
    UpdateExit(s.eofTo, s.waiter, s.persisted, s.sessions, k, session);
  }

  lemma UpdateSubscriber(s: State, k: nat, session: Session)
    requires SubscriberInv(s) && k < |s.sessions|
    requires session.phase == Gone <==> s.sessions[k].phase == Gone
    ensures SubscriberInv(s.(sessions := s.sessions[k := session]))
  {
  }

  /** A session update that sends nothing, and keeps the session's own invariant, keeps them all. */
  lemma UpdateSession(s: State, k: nat, session: Session)
    requires Inv(s) && k < |s.sessions| && session.sends == s.sessions[k].sends
    requires SessionInv(s, session, k)
    requires session.phase == Gone <==> s.sessions[k].phase == Gone
    ensures Inv(s.(sessions := s.sessions[k := session]))
  {
    UpdateQuietly(s, k, session);
    UpdateParts(s, k, session);
    UpdateSubscriber(s, k, session);
  }

  // ---------------------------------------------------------------- each action keeps it

  lemma IdleKeepsPublication(r: Record, p: Publication, captures: map<Source, Capture>, sessions: seq<Session>,
                             source: Source)
    requires PublicationInv(r, p, captures, sessions) && source in captures && captures[source] == Idle
    ensures PublicationInv(r, p, captures[source := Returned], sessions)
  {
  }

  lemma ReturnKeepsReferences(log: seq<Record>, publications: seq<Publication>, sessions: seq<Session>,
                              captures: map<Source, Capture>, source: Source)
    requires CapturesInv(log, publications, sessions, captures)
    requires PublicationsInv(log, publications, captures, sessions)
    requires source in captures && captures[source] == Idle
    ensures CapturesInv(log, publications, sessions, captures[source := Returned])
    ensures PublicationsInv(log, publications, captures[source := Returned], sessions)
  {
    forall i | 0 <= i < |log|
      ensures PublicationInv(log[i], publications[i], captures[source := Returned], sessions)
    {
      IdleKeepsPublication(log[i], publications[i], captures, sessions, source);
    }
  }

  lemma ReturnKeepsInv(s: State, source: Source)
    requires Inv(s) && source in s.captures && s.captures[source] == Idle
    ensures Inv(s.(captures := s.captures[source := Returned]))
  {
    ReturnKeepsReferences(s.log, s.publications, s.sessions, s.captures, source);
    CaptureStepKeepsRest(s, source, Returned);
  }

  lemma InitInv(sources: set<Source>)
    ensures Inv(Init(sources))
  {
  }

  lemma AppendRowKeepsCaptures(s: State, source: Source, data: seq<byte>)
    requires Inv(s) && Enabled(s, AppendRow(source, data)) && s.present
    ensures var s' := Apply(s, AppendRow(source, data));
            CapturesInv(s'.log, s'.publications, s'.sessions, s'.captures)
  {
    var s' := Apply(s, AppendRow(source, data));
    forall c | c in s'.captures
      ensures CaptureInv(s'.log, s'.publications, s'.sessions, c, s'.captures[c])
    {
      assert CaptureInv(s.log, s.publications, s.sessions, c, s.captures[c]);
    }
  }

  lemma AppendRowKeepsPublications(s: State, source: Source, data: seq<byte>)
    requires Inv(s) && Enabled(s, AppendRow(source, data)) && s.present
    ensures var s' := Apply(s, AppendRow(source, data));
            PublicationsInv(s'.log, s'.publications, s'.captures, s'.sessions)
  {
    var s' := Apply(s, AppendRow(source, data));
    forall i | 0 <= i < |s'.log|
      ensures PublicationInv(s'.log[i], s'.publications[i], s'.captures, s'.sessions)
    {
      if i < |s.log| {
        assert PublicationInv(s.log[i], s.publications[i], s.captures, s.sessions);
      }
    }
  }

  lemma AppendRowKeepsLog(s: State, source: Source, data: seq<byte>)
    requires LogInv(s) && CountersInv(s) && Enabled(s, AppendRow(source, data)) && s.present
    ensures LogInv(Apply(s, AppendRow(source, data))) && CountersInv(Apply(s, AppendRow(source, data)))
  {
    RunAppend(s.log, |s.log|, LogSize(s.log), source, data);
  }

  lemma AppendRowKeepsRest(s: State, source: Source, data: seq<byte>)
    requires Inv(s) && Enabled(s, AppendRow(source, data)) && s.present
    ensures var s' := Apply(s, AppendRow(source, data));
            && AllSendsInv(s'.log, s'.publications, s'.sessions)
            && ReplaysInv(s'.log, s'.publications, s'.subscriber, s'.sessions)
  {
    var s' := Apply(s, AppendRow(source, data));
    AllSendsLater(s.log, s.publications, s'.log, s'.publications, s.sessions);
    ReplaysLater(s.log, s.publications, s'.log, s'.publications, s.subscriber, s.sessions);
  }

  lemma AppendRowKeepsInv(s: State, source: Source, data: seq<byte>)
    requires Inv(s) && Enabled(s, AppendRow(source, data))
    ensures Inv(Apply(s, AppendRow(source, data)))
  {
    if s.present {
      AppendRowKeepsCaptures(s, source, data);
      AppendRowKeepsPublications(s, source, data);
      AppendRowKeepsLog(s, source, data);
      AppendRowKeepsRest(s, source, data);
    }
  }

  lemma CountKeepsPublication(r: Record, p: Publication, captures: map<Source, Capture>, sessions: seq<Session>,
                              source: Source)
    requires PublicationInv(r, p, captures, sessions)
    requires source in captures && captures[source].Stored?
    ensures PublicationInv(r, p, captures[source := Counted(captures[source].record)], sessions)
  {
  }

  lemma CountKeepsReferences(log: seq<Record>, publications: seq<Publication>, sessions: seq<Session>,
                             captures: map<Source, Capture>, source: Source)
    requires CapturesInv(log, publications, sessions, captures)
    requires PublicationsInv(log, publications, captures, sessions)
    requires source in captures && captures[source].Stored?
    ensures var counted := captures[source := Counted(captures[source].record)];
            CapturesInv(log, publications, sessions, counted) && PublicationsInv(log, publications, counted, sessions)
  {
    var counted := captures[source := Counted(captures[source].record)];
    forall c | c in captures ensures CaptureInv(log, publications, sessions, c, counted[c]) {
      assert CaptureInv(log, publications, sessions, c, captures[c]);
    }
    forall i | 0 <= i < |log| ensures PublicationInv(log[i], publications[i], counted, sessions) {
      CountKeepsPublication(log[i], publications[i], captures, sessions, source);
    }
  }

  lemma CountMovesBytes(captures: map<Source, Capture>, source: Source)
    requires source in captures && captures[source].Stored?
    ensures UncountedBytes(captures) ==
            UncountedBytes(captures[source := Counted(captures[source].record)]) + |captures[source].record.data|
  {
  }

  lemma CountKeepsInv(s: State, source: Source)
    requires Inv(s) && Enabled(s, Count(source))
    ensures Inv(Apply(s, Count(source)))
  {
    CountKeepsReferences(s.log, s.publications, s.sessions, s.captures, source);
    CountMovesBytes(s.captures, source);
  }

  /** Reading the subscriber for another source's record does not concern a capture. */
  lemma OtherCaptureStays(log: seq<Record>, publications: seq<Publication>, sessions: seq<Session>, c: Source,
                          capture: Capture, i: nat, p: Publication)
    requires |publications| == |log| && CaptureInv(log, publications, sessions, c, capture)
    requires i < |log| && log[i].source != c
    ensures CaptureInv(log, publications[i := p], sessions, c, capture)
  {
  }

  lemma ReadMakesSending(log: seq<Record>, publications: seq<Publication>, sessions: seq<Session>, source: Source,
                         capture: Capture, k: nat)
    requires |publications| == |log| && CaptureInv(log, publications, sessions, source, capture) && capture.Counted?
    requires k < |sessions| && SendsInv(log, publications, sessions[k].sends, k)
    ensures Known(log, capture.record)
    ensures CaptureInv(log, publications[capture.record.sequence - 1 := To(k)], sessions, source,
                       Sending(capture.record, k))
  {
  }

  /** What reading the subscriber makes of a capture, and of the record's publication. */
  function AfterRead(r: Record, subscriber: Option<nat>): Capture {
    if subscriber.Some? then Sending(r, subscriber.value) else Idle
  }

  function Direction(subscriber: Option<nat>): Publication {
    if subscriber.Some? then To(subscriber.value) else Nobody
  }

  lemma ReadIs(s: State, source: Source)
    requires Enabled(s, ReadSubscriber(source))
    ensures var r := s.captures[source].record;
            Apply(s, ReadSubscriber(source)) ==
            s.(captures := s.captures[source := AfterRead(r, s.subscriber)],
               publications := s.publications[r.sequence - 1 := Direction(s.subscriber)])
  {
  }

  lemma ReadKeepsCaptures(log: seq<Record>, publications: seq<Publication>, sessions: seq<Session>,
                          captures: map<Source, Capture>, source: Source, subscriber: Option<nat>)
    requires CapturesInv(log, publications, sessions, captures) && AllSendsInv(log, publications, sessions)
    requires source in captures && captures[source].Counted?
    requires subscriber.Some? ==> subscriber.value < |sessions|
    ensures Known(log, captures[source].record)
    ensures var r := captures[source].record;
            CapturesInv(log, publications[r.sequence - 1 := Direction(subscriber)], sessions,
                        captures[source := AfterRead(r, subscriber)])
  {
    var r := captures[source].record;
    assert CaptureInv(log, publications, sessions, source, captures[source]);
    forall c | c in captures
      ensures CaptureInv(log, publications[r.sequence - 1 := Direction(subscriber)], sessions, c,
                         captures[source := AfterRead(r, subscriber)][c])
    {
      if c != source {
        OtherCaptureStays(log, publications, sessions, c, captures[c], r.sequence - 1, Direction(subscriber));
      } else if subscriber.Some? {
        ReadMakesSending(log, publications, sessions, source, captures[source], subscriber.value);
      }
    }
  }

  lemma OtherPublicationStays(r: Record, p: Publication, captures: map<Source, Capture>, sessions: seq<Session>,
                              source: Source, c: Capture)
    requires PublicationInv(r, p, captures, sessions)
    requires source in captures && captures[source].Counted? && captures[source].record != r
    ensures PublicationInv(r, p, captures[source := c], sessions)
  {
  }

  lemma ReadKeepsPublications(log: seq<Record>, publications: seq<Publication>, sessions: seq<Session>,
                              captures: map<Source, Capture>, source: Source, subscriber: Option<nat>)
    requires PublicationsInv(log, publications, captures, sessions)
    requires IsRun(log, |log|, LogSize(log))
    requires source in captures && captures[source].Counted? && Known(log, captures[source].record)
    requires captures[source].record.source == source && (subscriber.Some? ==> subscriber.value < |sessions|)
    ensures var r := captures[source].record;
            PublicationsInv(log, publications[r.sequence - 1 := Direction(subscriber)],
                            captures[source := AfterRead(r, subscriber)], sessions)
  {
    var r := captures[source].record;
    forall i | 0 <= i < |log|
      ensures PublicationInv(log[i], publications[r.sequence - 1 := Direction(subscriber)][i],
                             captures[source := AfterRead(r, subscriber)], sessions)
    {
      if i != r.sequence - 1 {
        assert log[i].sequence == i + 1;
        OtherPublicationStays(log[i], publications[i], captures, sessions, source, AfterRead(r, subscriber));
      }
    }
  }

  lemma SettlingIsLater(log: seq<Record>, publications: seq<Publication>, i: nat, p: Publication)
    requires |publications| == |log| && i < |log| && publications[i] == Pending
    ensures Later(log, publications, log, publications[i := p])
  {
  }

  lemma ReadKeepsSessions(log: seq<Record>, publications: seq<Publication>, sessions: seq<Session>,
                          subscriber: Option<nat>, i: nat)
    requires AllSendsInv(log, publications, sessions) && ReplaysInv(log, publications, subscriber, sessions)
    requires i < |log| && publications[i] == Pending
    ensures AllSendsInv(log, publications[i := Direction(subscriber)], sessions)
    ensures ReplaysInv(log, publications[i := Direction(subscriber)], subscriber, sessions)
  {
    var settled := publications[i := Direction(subscriber)];
    SettlingIsLater(log, publications, i, Direction(subscriber));
    AllSendsLater(log, publications, log, settled, sessions);
    ReplaysLater(log, publications, log, settled, subscriber, sessions);
  }

  lemma CountedIsPending(s: State, source: Source)
    requires Inv(s) && source in s.captures && s.captures[source].Counted?
    ensures var r := s.captures[source].record;
            && Known(s.log, r) && r.source == source && |s.publications| == |s.log|
            && s.publications[r.sequence - 1] == Pending
    ensures s.subscriber.Some? ==> s.subscriber.value < |s.sessions|
  {
    assert CaptureInv(s.log, s.publications, s.sessions, source, s.captures[source]);
  }

  lemma ReadSubscriberKeepsInv(s: State, source: Source)
    requires Inv(s) && Enabled(s, ReadSubscriber(source))
    ensures Inv(Apply(s, ReadSubscriber(source)))
  {
    var r := s.captures[source].record;
    ReadIs(s, source);
    CountedIsPending(s, source);
    ReadKeepsCaptures(s.log, s.publications, s.sessions, s.captures, source, s.subscriber);
    ReadKeepsPublications(s.log, s.publications, s.sessions, s.captures, source, s.subscriber);
    ReadKeepsSessions(s.log, s.publications, s.sessions, s.subscriber, r.sequence - 1);
    ReadKeepsRest(s, source, AfterRead(r, s.subscriber), s.publications[r.sequence - 1 := Direction(s.subscriber)]);
  }

  lemma ReadKeepsRest(s: State, source: Source, c: Capture, publications: seq<Publication>)
    requires Inv(s) && source in s.captures && !s.captures[source].Stored? && !c.Stored?
    requires |publications| == |s.publications|
    ensures var s' := s.(captures := s.captures[source := c], publications := publications);
            LogInv(s') && CountersInv(s') && SubscriberInv(s') && WaiterInv(s')
  {
    CaptureStepKeepsRest(s, source, c);
  }

  /** A capture is not disturbed by another send to the session it is about to send to. */
  lemma SendKeepsCapture(log: seq<Record>, publications: seq<Publication>, sessions: seq<Session>, c: Source,
                         capture: Capture, k: nat, session: Session, sent: Sent)
    requires |publications| == |log| && CaptureInv(log, publications, sessions, c, capture)
    requires k < |sessions| && session.sends == sessions[k].sends + [sent]
    requires capture.Sending? ==> sent.event != Output(capture.record)
    ensures CaptureInv(log, publications, sessions[k := session], c, capture)
  {
    if capture.Sending? {
      WasSentAppend(sessions[k].sends, sent, capture.record);
    }
  }

  lemma SendKeepsCaptures(s: State, source: Source, sent: Sent)
    requires Inv(s) && Enabled(s, Send(source)) && !s.sessions[s.captures[source].session].closed
    requires sent.event == Output(s.captures[source].record)
    requires Apply(s, Send(source)).sessions[s.captures[source].session].sends ==
             s.sessions[s.captures[source].session].sends + [sent]
    ensures var s' := Apply(s, Send(source));
            CapturesInv(s'.log, s'.publications, s'.sessions, s'.captures)
  {
    var s' := Apply(s, Send(source));
    var k := s.captures[source].session;
    assert CaptureInv(s.log, s.publications, s.sessions, source, s.captures[source]);
    forall c | c in s'.captures
      ensures CaptureInv(s'.log, s'.publications, s'.sessions, c, s'.captures[c])
    {
      assert CaptureInv(s.log, s.publications, s.sessions, c, s.captures[c]);
      if c != source {
        SendKeepsCapture(s.log, s.publications, s.sessions, c, s.captures[c], k, s'.sessions[k], sent);
      }
    }
  }

  lemma SendKeepsPublication(r: Record, p: Publication, captures: map<Source, Capture>, sessions: seq<Session>,
                             source: Source, session: Session, sent: Sent)
    requires PublicationInv(r, p, captures, sessions)
    requires source in captures && captures[source].Sending? && captures[source].session < |sessions|
    requires session.sends == sessions[captures[source].session].sends + [sent]
    requires sent.event == Output(captures[source].record)
    ensures PublicationInv(r, p, captures[source := Idle], sessions[captures[source].session := session])
  {
    if p.To? {
      WasSentAppend(sessions[captures[source].session].sends, sent, r);
    }
  }

  lemma SendKeepsPublications(s: State, source: Source, session: Session, sent: Sent)
    requires Inv(s) && Enabled(s, Send(source))
    requires session.sends == s.sessions[s.captures[source].session].sends + [sent]
    requires sent.event == Output(s.captures[source].record)
    ensures PublicationsInv(s.log, s.publications, s.captures[source := Idle],
                            s.sessions[s.captures[source].session := session])
  {
    var sessions := s.sessions[s.captures[source].session := session];
    forall i | 0 <= i < |s.log|
      ensures PublicationInv(s.log[i], s.publications[i], s.captures[source := Idle], sessions)
    {
      assert PublicationInv(s.log[i], s.publications[i], s.captures, s.sessions);
      SendKeepsPublication(s.log[i], s.publications[i], s.captures, s.sessions, source, session, sent);
    }
  }

  lemma SendKeepsSends(s: State, source: Source)
    requires Inv(s) && Enabled(s, Send(source))
    ensures var k := s.captures[source].session;
            AllSendsInv(s.log, s.publications,
                        s.sessions[k := Offer(s.sessions[k], Output(s.captures[source].record))])
  {
    var k := s.captures[source].session;
    assert CaptureInv(s.log, s.publications, s.sessions, source, s.captures[source]);
    assert ChannelInv(s.sessions[k]);
    var sent := OfferKeepsChannel(s.sessions[k], Output(s.captures[source].record));
    SendsAppend(s.log, s.publications, s.sessions[k].sends, k, sent);
  }

  lemma SendKeepsReferences(s: State, source: Source)
    requires Inv(s) && Enabled(s, Send(source)) && !s.sessions[s.captures[source].session].closed
    ensures var s' := Apply(s, Send(source));
            && CapturesInv(s'.log, s'.publications, s'.sessions, s'.captures)
            && PublicationsInv(s'.log, s'.publications, s'.captures, s'.sessions)
  {
    var k := s.captures[source].session;
    assert ChannelInv(s.sessions[k]);
    var sent := OfferKeepsChannel(s.sessions[k], Output(s.captures[source].record));
    SendKeepsCaptures(s, source, sent);
    SendKeepsPublications(s, source, Offer(s.sessions[k], Output(s.captures[source].record)), sent);
  }

  lemma SendKeepsSession(s: State, source: Source)
    requires Inv(s) && Enabled(s, Send(source))
    ensures var k := s.captures[source].session;
            !s.sessions[k].closed ==> SessionInv(s, Offer(s.sessions[k], Output(s.captures[source].record)), k)
  {
    var k := s.captures[source].session;
    if !s.sessions[k].closed {
      SessionOf(s, k);
      OfferOutputKeepsSession(s.log, s.publications, s.subscriber, s.eofTo, s.waiter, s.persisted,
                              s.sessions[k], k, s.captures[source].record);
    }
  }

  /** What a capture step that holds no uncounted bytes, before or after, leaves as it was. */
  lemma CaptureStepKeepsRest(s: State, source: Source, c: Capture)
    requires Inv(s) && source in s.captures && !s.captures[source].Stored? && !c.Stored?
    ensures LogInv(s.(captures := s.captures[source := c]))
    ensures CountersInv(s.(captures := s.captures[source := c]))
  {
  }

  lemma SendKeepsParts(s: State, source: Source)
    requires Inv(s) && Enabled(s, Send(source)) && !s.sessions[s.captures[source].session].closed
    ensures var s' := Apply(s, Send(source));
            && ChannelsInv(s'.sessions)
            && ReplaysInv(s'.log, s'.publications, s'.subscriber, s'.sessions)
            && ExitsInv(s'.eofTo, s'.waiter, s'.persisted, s'.sessions)
            && AllSendsInv(s'.log, s'.publications, s'.sessions)
  {
    var k := s.captures[source].session;
    SendKeepsSession(s, source);
    SendKeepsSends(s, source);
    UpdateParts(s, k, Offer(s.sessions[k], Output(s.captures[source].record)));
  }

  lemma SendKeepsRest(s: State, source: Source)
    requires Inv(s) && Enabled(s, Send(source)) && !s.sessions[s.captures[source].session].closed
    ensures var s' := Apply(s, Send(source));
            LogInv(s') && CountersInv(s') && SubscriberInv(s') && WaiterInv(s')
  {
    var k := s.captures[source].session;
    CaptureStepKeepsRest(s, source, Idle);
    UpdateSubscriber(s, k, Offer(s.sessions[k], Output(s.captures[source].record)));
  }

  lemma SendKeepsInv(s: State, source: Source)
    requires Inv(s) && Enabled(s, Send(source))
    ensures Inv(Apply(s, Send(source)))
  {
    if !s.sessions[s.captures[source].session].closed {
      SendKeepsReferences(s, source);
      SendKeepsParts(s, source);
      SendKeepsRest(s, source);
    }
  }

  /** A new session changes nothing for those who only refer to sessions that already exist. */
  lemma AttachKeepsReferences(s: State, session: Session)
    requires Inv(s) && session.sends == []
    ensures CapturesInv(s.log, s.publications, s.sessions + [session], s.captures)
    ensures PublicationsInv(s.log, s.publications, s.captures, s.sessions + [session])
  {
    var sessions := s.sessions + [session];
    forall c | c in s.captures ensures CaptureInv(s.log, s.publications, sessions, c, s.captures[c]) {
      assert CaptureInv(s.log, s.publications, s.sessions, c, s.captures[c]);
    }
    forall i | 0 <= i < |s.log| ensures PublicationInv(s.log[i], s.publications[i], s.captures, sessions) {
      assert PublicationInv(s.log[i], s.publications[i], s.captures, s.sessions);
    }
  }

  /** Changing the subscriber to one without a replay, or to none, keeps the replays in order. */
  lemma ResubscribeKeepsReplays(s: State, subscriber: Option<nat>)
    requires ReplaysInv(s.log, s.publications, s.subscriber, s.sessions)
    requires subscriber.Some? ==> subscriber.value >= |s.sessions|
    ensures ReplaysInv(s.log, s.publications, subscriber, s.sessions)
  {
    forall k | 0 <= k < |s.sessions| ensures ReplayInv(s.log, s.publications, subscriber, s.sessions[k], k) {
      assert ReplayInv(s.log, s.publications, s.subscriber, s.sessions[k], k);
    }
  }

  /** A session that has received and been sent nothing may join the list. */
  lemma AttachKeepsSessions(s: State, session: Session)
    requires Inv(s) && session.sends == [] && session.queue == [] && session.received == []
    requires session.replay == None && session.exit == None && !session.closed
    ensures ChannelsInv(s.sessions + [session])
    ensures AllSendsInv(s.log, s.publications, s.sessions + [session])
    ensures ExitsInv(s.eofTo, s.waiter, s.persisted, s.sessions + [session])
  {
  }

  lemma AttachKeepsReplays(s: State, session: Session)
    requires Inv(s) && session.received == [] && session.replay == None
    ensures ReplaysInv(s.log, s.publications, Some(|s.sessions|), s.sessions + [session])
  {
    ResubscribeKeepsReplays(s, Some(|s.sessions|));
  }

  lemma AttachKeepsInv(s: State, replay: bool, offset: int)
    requires Inv(s) && Enabled(s, Attach(replay, offset))
    ensures Inv(Apply(s, Attach(replay, offset)))
  {
    var session := Session(if replay then Replaying else Live, offset, [], false, [], None, None, []);
    AttachKeepsReferences(s, session);
    AttachKeepsSessions(s, session);
    AttachKeepsReplays(s, session);
    AttachKeepsSubscriber(s, session);
  }

  lemma AttachKeepsSubscriber(s: State, session: Session)
    requires SubscriberInv(s) && WaiterInv(s) && !s.attached && session.phase != Gone
    ensures var s' := s.(attached := true, subscriber := Some(|s.sessions|), sessions := s.sessions + [session]);
            SubscriberInv(s') && WaiterInv(s')
  {
  }

  lemma ReplayQueryKeepsInv(s: State, k: nat)
    requires Inv(s) && Enabled(s, ReplayQuery(k))
    ensures Inv(Apply(s, ReplayQuery(k)))
  {
    var s' := Apply(s, ReplayQuery(k));
    SessionOf(s, k);
    assert s.log[s.discarded..|s.log|] == s.Rows();
    UpdateSession(s, k, s'.sessions[k]);
  }

  lemma TakeHead(session: Session)
    requires ChannelInv(session) && session.queue != []
    ensures ChannelInv(session.(queue := session.queue[1..], received := session.received + [session.queue[0]]))
    ensures session.queue[0] == Eof ==> Eof in Accepted(session.sends)
  {
    var head, tail := session.queue[0], session.queue[1..];
    assert session.queue == [head] + tail;
    assert session.received + session.queue == (session.received + [head]) + tail;
    if head == Eof {
      assert (session.received + session.queue)[|session.received|] == Eof;
    }
  }

  lemma ReceiveKeepsExit(eofTo: Option<nat>, waiter: Waiter, persisted: JobState, session: Session, k: nat,
                         present: bool)
    requires ChannelInv(session) && ExitInv(eofTo, waiter, persisted, session, k) && session.phase == Live
    requires session.queue != [] || session.closed
    ensures ChannelInv(Received(session, present, persisted))
    ensures ExitInv(eofTo, waiter, persisted, Received(session, present, persisted), k)
  {
    if session.queue != [] {
      TakeHead(session);
      EofAccepted(session.sends);
    }
  }

  lemma ReceiveKeepsInv(s: State, k: nat)
    requires Inv(s) && Enabled(s, Receive(k))
    ensures Inv(Apply(s, Receive(k)))
  {
    var session := Received(s.sessions[k], s.present, s.persisted);
    SessionOf(s, k);
    ReceiveKeepsExit(s.eofTo, s.waiter, s.persisted, s.sessions[k], k, s.present);
    ReplayIgnoresQueue(s.log, s.publications, s.subscriber, s.sessions[k], session, k);
    UpdateSession(s, k, session);
  }

  lemma LeaveKeepsInv(s: State, k: nat)
    requires Inv(s) && Enabled(s, Leave(k))
    ensures Inv(Apply(s, Leave(k)))
  {
    SessionOf(s, k);
    UpdateSession(s, k, Apply(s, Leave(k)).sessions[k]);
  }

  lemma DetachKeepsSubscriber(s: State, k: nat)
    requires Inv(s) && k < |s.sessions| && s.sessions[k].phase == Closing
    ensures SubscriberInv(Detached(s, k))
    ensures var s' := Detached(s, k); ReplaysInv(s.log, s.publications, s'.subscriber, s.sessions)
  {
    if s.subscriber == Some(k) {
      ResubscribeKeepsReplays(s, None);
    }
  }

  lemma DetachKeepsReplays(s: State, k: nat)
    requires Inv(s) && k < |s.sessions| && s.sessions[k].phase == Closing
    ensures var s' := Detached(s, k); ReplaysInv(s.log, s.publications, s'.subscriber, s'.sessions)
  {
    var s' := Detached(s, k);
    DetachKeepsSubscriber(s, k);
    UpdateReplay(s.log, s.publications, s'.subscriber, s.sessions, k, s.sessions[k].(phase := Gone));
  }

  lemma GoneKeepsSessions(s: State, k: nat, session: Session)
    requires Inv(s) && k < |s.sessions| && s.sessions[k].phase == Closing && session == s.sessions[k].(phase := Gone)
    ensures CapturesInv(s.log, s.publications, s.sessions[k := session], s.captures)
    ensures PublicationsInv(s.log, s.publications, s.captures, s.sessions[k := session])
    ensures AllSendsInv(s.log, s.publications, s.sessions[k := session])
  {
    UpdateQuietly(s, k, session);
  }

  lemma GoneKeepsChannel(s: State, k: nat, session: Session)
    requires Inv(s) && k < |s.sessions| && s.sessions[k].phase == Closing && session == s.sessions[k].(phase := Gone)
    ensures ChannelsInv(s.sessions[k := session])
    ensures ExitsInv(s.eofTo, s.waiter, s.persisted, s.sessions[k := session])
  {
    SessionOf(s, k);
    UpdateChannel(s.sessions, k, session);
    UpdateExit(s.eofTo, s.waiter, s.persisted, s.sessions, k, session);
  }

  /** The log, the waiter and the counters do not depend on who is subscribed. */
  lemma RestIgnoresSubscriber(s: State, sessions: seq<Session>, subscriber: Option<nat>, attached: bool)
    requires LogInv(s) && WaiterInv(s) && CountersInv(s) && |sessions| == |s.sessions|
    ensures var s' := s.(sessions := sessions, subscriber := subscriber, attached := attached);
            LogInv(s') && WaiterInv(s') && CountersInv(s')
  {
  }

  lemma DetachKeepsInv(s: State, k: nat)
    requires Inv(s) && k < |s.sessions| && s.sessions[k].phase == Closing
    ensures Inv(Detached(s, k))
  {
    var s', session := Detached(s, k), s.sessions[k].(phase := Gone);
    GoneKeepsSessions(s, k, session);
    GoneKeepsChannel(s, k, session);
    DetachKeepsSubscriber(s, k);
    DetachKeepsReplays(s, k);
    RestIgnoresSubscriber(s, s'.sessions, s'.subscriber, s'.attached);
  }

  /** Steps of the waiter up to the EOF publication move no session. */
  lemma WaiterStepKeepsExits(s: State, waiter: Waiter, persisted: JobState)
    requires Inv(s) && s.eofTo == None && s.waiter in {Waiting, Decided, Completed}
    requires waiter in {Decided, Completed, HoldsEof}
    ensures ExitsInv(s.eofTo, waiter, persisted, s.sessions)
    ensures ExitsInv(s.subscriber, HoldsEof, persisted, s.sessions)
  {
    forall k | 0 <= k < |s.sessions|
      ensures ExitInv(s.eofTo, waiter, persisted, s.sessions[k], k)
      ensures ExitInv(s.subscriber, HoldsEof, persisted, s.sessions[k], k)
    {
      assert ExitInv(s.eofTo, s.waiter, s.persisted, s.sessions[k], k);
    }
  }

  lemma WaiterStepKeepsInv(s: State, a: Action)
    requires Inv(s) && Enabled(s, a) && (a.TakeExit? || a.Complete? || a.ReadForEof?)
    ensures Inv(Apply(s, a))
  {
    var s' := Apply(s, a);
    WaiterStepKeepsExits(s, s'.waiter, s'.persisted);
    ResubscribeKeepsReplays(s, None);
  }

  lemma SendEofKeepsCaptures(s: State, k: nat, session: Session, sent: Sent)
    requires Inv(s) && k < |s.sessions| && session.sends == s.sessions[k].sends + [sent] && sent.event == Eof
    ensures CapturesInv(s.log, s.publications, s.sessions[k := session], s.captures)
    ensures PublicationsInv(s.log, s.publications, s.captures, s.sessions[k := session])
  {
    var sessions := s.sessions[k := session];
    forall c | c in s.captures ensures CaptureInv(s.log, s.publications, sessions, c, s.captures[c]) {
      SendKeepsCapture(s.log, s.publications, s.sessions, c, s.captures[c], k, session, sent);
    }
    forall i | 0 <= i < |s.log| ensures PublicationInv(s.log[i], s.publications[i], s.captures, sessions) {
      SendEofKeepsPublication(s.log[i], s.publications[i], s.captures, s.sessions, k, session, sent);
    }
  }

  lemma SendEofKeepsPublication(r: Record, p: Publication, captures: map<Source, Capture>, sessions: seq<Session>,
                                k: nat, session: Session, sent: Sent)
    requires PublicationInv(r, p, captures, sessions)
    requires k < |sessions| && session.sends == sessions[k].sends + [sent]
    ensures PublicationInv(r, p, captures, sessions[k := session])
  {
    if p.To? {
      WasSentAppend(sessions[k].sends, sent, r);
    }
  }

  lemma SendEofKeepsExits(s: State, k: nat, session: Session)
    requires ExitsInv(s.eofTo, HoldsEof, s.persisted, s.sessions) && s.eofTo == Some(k) && k < |s.sessions|
    requires session == Offer(s.sessions[k], Eof) && EofCount(session.sends) == EofCount(s.sessions[k].sends) + 1
    ensures ExitsInv(s.eofTo, SentEof, s.persisted, s.sessions[k := session])
  {
    var sessions := s.sessions[k := session];
    forall j | 0 <= j < |sessions| ensures ExitInv(s.eofTo, SentEof, s.persisted, sessions[j], j) {
      SendEofKeepsExit(s.persisted, s.sessions[j], sessions[j], j, k);
    }
  }

  lemma SendEofKeepsExit(persisted: JobState, a: Session, b: Session, j: nat, k: nat)
    requires ExitInv(Some(k), HoldsEof, persisted, a, j)
    requires if j == k then b == Offer(a, Eof) && EofCount(b.sends) == EofCount(a.sends) + 1 else b == a
    ensures ExitInv(Some(k), SentEof, persisted, b, j)
  {
  }

  lemma SendEofKeepsChannels(s: State, k: nat)
    requires Inv(s) && Enabled(s, SendEof) && s.eofTo == Some(k)
    ensures var sessions := s.sessions[k := Offer(s.sessions[k], Eof)];
            && ChannelsInv(sessions)
            && AllSendsInv(s.log, s.publications, sessions)
            && ReplaysInv(s.log, s.publications, s.subscriber, sessions)
  {
    var session := Offer(s.sessions[k], Eof);
    SessionOf(s, k);
    var sent := OfferKeepsChannel(s.sessions[k], Eof);
    SendsAppend(s.log, s.publications, s.sessions[k].sends, k, sent);
    UpdateChannel(s.sessions, k, session);
    ReplayIgnoresQueue(s.log, s.publications, s.subscriber, s.sessions[k], session, k);
  }

  lemma SendEofKeepsReferences(s: State, k: nat)
    requires Inv(s) && Enabled(s, SendEof) && s.eofTo == Some(k)
    ensures var sessions := s.sessions[k := Offer(s.sessions[k], Eof)];
            && ExitsInv(s.eofTo, SentEof, s.persisted, sessions)
            && CapturesInv(s.log, s.publications, sessions, s.captures)
            && PublicationsInv(s.log, s.publications, s.captures, sessions)
  {
    assert ChannelInv(s.sessions[k]);
    var sent := OfferKeepsChannel(s.sessions[k], Eof);
    SendEofKeepsCaptures(s, k, Offer(s.sessions[k], Eof), sent);
    SendEofKeepsExits(s, k, Offer(s.sessions[k], Eof));
  }

  lemma NoSubscriberKeepsExits(s: State)
    requires Inv(s) && s.eofTo == None
    ensures ExitsInv(None, Finished, s.persisted, s.sessions)
  {
    forall j | 0 <= j < |s.sessions| ensures ExitInv(None, Finished, s.persisted, s.sessions[j], j) {
      assert ExitInv(s.eofTo, s.waiter, s.persisted, s.sessions[j], j);
    }
  }

  lemma SendEofKeepsInv(s: State)
    requires Inv(s) && Enabled(s, SendEof)
    ensures Inv(Apply(s, SendEof)) && !Apply(s, SendEof).panicked
  {
    if s.eofTo.Some? {
      var k := s.eofTo.value;
      assert ExitInv(s.eofTo, s.waiter, s.persisted, s.sessions[k], k);
      SendEofKeepsChannels(s, k);
      SendEofKeepsReferences(s, k);
      UpdateSubscriber(s, k, Offer(s.sessions[k], Eof));
    } else {
      NoSubscriberKeepsExits(s);
    }
  }

  lemma CloseChannelKeepsExits(s: State, k: nat)
    requires Inv(s) && Enabled(s, CloseChannel) && s.eofTo == Some(k)
    ensures !s.sessions[k].closed
    ensures ExitsInv(s.eofTo, Finished, s.persisted, s.sessions[k := s.sessions[k].(closed := true)])
  {
    var sessions := s.sessions[k := s.sessions[k].(closed := true)];
    forall j | 0 <= j < |sessions| ensures ExitInv(s.eofTo, Finished, s.persisted, sessions[j], j) {
      assert ExitInv(s.eofTo, s.waiter, s.persisted, s.sessions[j], j);
    }
    assert ExitInv(s.eofTo, s.waiter, s.persisted, s.sessions[k], k);
  }

  lemma CloseChannelKeepsInv(s: State)
    requires Inv(s) && Enabled(s, CloseChannel)
    ensures Inv(Apply(s, CloseChannel)) && !Apply(s, CloseChannel).panicked
  {
    var k := s.eofTo.value;
    var session := s.sessions[k].(closed := true);
    SessionOf(s, k);
    CloseChannelKeepsExits(s, k);
    UpdateQuietly(s, k, session);
    UpdateChannel(s.sessions, k, session);
    UpdateReplay(s.log, s.publications, s.subscriber, s.sessions, k, session);
    UpdateSubscriber(s, k, session);
  }

  lemma CaptureActionKeepsInv(s: State, a: Action)
    requires Inv(s) && Enabled(s, a)
    requires a.AppendRow? || a.Count? || a.ReadSubscriber? || a.Send? || a.CaptureReturns?
    ensures Inv(Apply(s, a))
  {
    match a
    case AppendRow(source, data) => AppendRowKeepsInv(s, source, data);
    case Count(source) => CountKeepsInv(s, source);
    case ReadSubscriber(source) => ReadSubscriberKeepsInv(s, source);
    case Send(source) => SendKeepsInv(s, source);
    case CaptureReturns(source) => ReturnKeepsInv(s, source);
  }

  lemma SessionActionKeepsInv(s: State, a: Action)
    requires Inv(s) && Enabled(s, a)
    requires a.Attach? || a.ReplayQuery? || a.Receive? || a.Leave? || a.Detach?
    ensures Inv(Apply(s, a))
  {
    match a
    case Attach(replay, offset) => AttachKeepsInv(s, replay, offset);
    case ReplayQuery(k) => ReplayQueryKeepsInv(s, k);
    case Receive(k) => ReceiveKeepsInv(s, k);
    case Leave(k) => LeaveKeepsInv(s, k);
    case Detach(k) => DetachKeepsInv(s, k);
  }

  /** The invariant holds in every state of every run. */
  lemma {:induction false} ActionKeepsInv(s: State, a: Action)
    requires Inv(s) && Enabled(s, a)
    ensures Inv(Apply(s, a))
  {
    match a
    case AppendRow(_, _) | Count(_) | ReadSubscriber(_) | Send(_) | CaptureReturns(_) => CaptureActionKeepsInv(s, a);
    case Attach(_, _) | ReplayQuery(_) | Receive(_) | Leave(_) | Detach(_) => SessionActionKeepsInv(s, a);
    case TakeExit | Complete(_) | ReadForEof => WaiterStepKeepsInv(s, a);
    case SendEof => SendEofKeepsInv(s);
    case CloseChannel => CloseChannelKeepsInv(s);
    case RequestCancel | DiscardOutput | DeleteJob => HistoryActionKeepsInv(s, a);
  }

  lemma HistoryActionKeepsInv(s: State, a: Action)
    requires Inv(s) && Enabled(s, a) && (a.RequestCancel? || a.DiscardOutput? || a.DeleteJob?)
    ensures Inv(Apply(s, a))
  {
  }

  lemma {:induction false} RunKeepsInv(s: State, run: seq<Action>, s': State)
    requires Inv(s) && Exec(s, run) == Some(s')
    ensures Inv(s')
    decreases |run|
  {
    if run != [] {
      var before := Exec(s, run[..|run| - 1]).value;
      RunKeepsInv(s, run[..|run| - 1], before);
      ActionKeepsInv(before, run[|run| - 1]);
    }
  }
}
