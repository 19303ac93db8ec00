/** Concrete runs showing what the pipeline does not promise. */
module ProtocolWitnesses {
  import opened OutputLog
  import opened Wrappers
  import opened Jobs
  import opened Protocol
  import opened ProtocolTheorems

  lemma Next(sources: set<Source>, run: seq<Action>, s: State, a: Action) returns (run': seq<Action>, s': State)
    requires Exec(Init(sources), run) == Some(s) && Enabled(s, a)
    ensures run' == run + [a] && s' == Apply(s, a) && Exec(Init(sources), run') == Some(s')
  {
    ExecSnoc(Init(sources), run, a);
    run', s' := run + [a], Apply(s, a);
  }

  /** One record appended, one live session attached, and the subscriber read: the send is outstanding. */
  lemma OutstandingSend() returns (run: seq<Action>, s: State)
    ensures Exec(Init({Stdout}), run) == Some(s)
    ensures s.waiter == Waiting && s.subscriber == Some(0) && s.present && !s.panicked
    ensures s.captures == map[Stdout := Sending(Record(1, 0, Stdout, [104]), 0)]
    ensures s.sessions == [Session(Live, 0, [], false, [], None, None, [])]
  {
    var sources := {Stdout};
    run, s := [], Init(sources);
    run, s := Next(sources, run, s, AppendRow(Stdout, [104]));
    run, s := Next(sources, run, s, Attach(false, 0));
    run, s := Next(sources, run, s, Count(Stdout));
    run, s := Next(sources, run, s, ReadSubscriber(Stdout));
  }

  /** The process exits and its completion is written. */
  lemma ExitWritten(before: seq<Action>, m: State) returns (run: seq<Action>, s: State)
    requires Exec(Init({Stdout}), before) == Some(m)
    requires m.waiter == Waiting && m.present && !m.panicked
    ensures Exec(Init({Stdout}), run) == Some(s) && s.persisted != Running
    ensures s == m.(waiter := Completed, state := s.state, persisted := s.persisted)
  {
    run, s := Next({Stdout}, before, m, TakeExit);
    run, s := Next({Stdout}, run, s, Complete(true));
  }

  /** The waiter publishes EOF to the only session and closes its channel. */
  lemma EofPublished(before: seq<Action>, m: State) returns (run: seq<Action>, s: State)
    requires Exec(Init({Stdout}), before) == Some(m)
    requires m.waiter == Completed && m.subscriber == Some(0) && m.present && !m.panicked
    requires m.sessions == [Session(Live, 0, [], false, [], None, None, [])]
    ensures Exec(Init({Stdout}), run) == Some(s)
    ensures s.captures == m.captures && s.log == m.log && s.present && !s.panicked && s.persisted == m.persisted
    ensures s.sessions == [Session(Live, 0, [Eof], true, [], None, None, [Sent(Eof, true)])]
  {
    run, s := Next({Stdout}, before, m, ReadForEof);
    run, s := Next({Stdout}, run, s, SendEof);
    assert s.sessions[0] == Session(Live, 0, [Eof], false, [], None, None, [Sent(Eof, true)]);
    run, s := Next({Stdout}, run, s, CloseChannel);
  }

  /** The unsafe close happens: the waiter closes the channel between a capture goroutine's read of the
      subscriber and its send, and the send panics. */
  lemma PanicIsReachable()
    ensures exists run: seq<Action>, s: State :: Exec(Init({Stdout}), run) == Some(s) && s.panicked
  {
    var run, s := OutstandingSend();
    run, s := ExitWritten(run, s);
    run, s := EofPublished(run, s);
    run, s := Next({Stdout}, run, s, Send(Stdout));
  }

  /** An Exit does not imply that all output was seen: the session below, live from the start, has its
      Exit and received nothing, although a record is stored. */
  lemma ExitBeforeLastOutput()
    ensures exists run: seq<Action>, s: State ::
              && Exec(Init({Stdout}), run) == Some(s)
              && |s.log| == 1 && |s.sessions| == 1 && s.sessions[0].exit.Some?
              && ClientStream(s.sessions[0]) == []
  {
    var sources := {Stdout};
    var run, s := [], Init(sources);
    run, s := Next(sources, run, s, Attach(false, 0));
    run, s := ExitWritten(run, s);
    run, s := EofPublished(run, s);
    run, s := Next(sources, run, s, AppendRow(Stdout, [104]));
    run, s := Next(sources, run, s, Receive(0));
    assert s.sessions[0].received == [Eof];
    OutputsAppend([], Eof);
    assert [] + [Eof] == [Eof];
  }
}
