/** One execution's output pipeline as a step relation: the capture goroutines, the exit waiter, any
    number of attach sessions, cancel requests and history clean-up, interleaved at the granularity of
    the code's own atomic sections (a store transaction, a section under the execution's lock, one
    channel operation). */
module Protocol {
  import opened OutputLog
  import opened Wrappers
  import opened Jobs

  const QUEUE_CAPACITY := 256

  /** What a subscriber channel carries. */
  datatype Event = Output(record: Record) | Eof

  /** History: one non-blocking send, and whether the channel had room for it. */
  datatype Sent = Sent(event: Event, accepted: bool)

  /** History: where the publication of a record was directed when the subscriber was read. */
  datatype Publication = Pending | Nobody | To(session: nat)

  /** A capture goroutine: between chunks, holding one record on its way through `appendOutput`, or done
      because its reader closed and its last flush is over. */
  datatype Capture =
    | Idle
    | Stored(record: Record)                 // committed to the store
    | Counted(record: Record)                // in-memory counters updated
    | Sending(record: Record, session: nat)  // subscriber read and lock released; send outstanding
    | Returned

  /** The exit waiter. */
  datatype Waiter =
    | Waiting    // in waitFunc
    | Decided    // final state chosen under the lock
    | Completed  // CompleteJob was called
    | HoldsEof   // subscriber read and cleared; EOF not yet sent
    | SentEof    // EOF sent or dropped; channel not yet closed
    | Finished

  datatype Phase = Replaying | Live | Closing | Gone

  /** History: what the replay query returned, and which part of the log was in the table then. */
  datatype Snapshot = Snapshot(from: nat, upTo: nat, records: seq<Record>)

  datatype ExitOutcome = ExitEvent(state: JobState) | JobMissing

  /** An attach session together with the channel made for it. */
  datatype Session = Session(
    phase: Phase,
    offset: int,
    queue: seq<Event>,
    closed: bool,
    received: seq<Event>,
    replay: Option<Snapshot>,
    exit: Option<ExitOutcome>,
    sends: seq<Sent>)

  datatype State = State(
    // the store's rows for this job
    present: bool,
    persisted: JobState,
    discarded: nat,
    log: seq<Record>,
    // managedExecution
    state: JobState,
    outputSize: nat,
    cancelRequested: bool,
    attached: bool,
    subscriber: Option<nat>,
    // goroutines
    captures: map<Source, Capture>,
    waiter: Waiter,
    eofTo: Option<nat>,
    sessions: seq<Session>,
    panicked: bool,
    // history
    publications: seq<Publication>)
  {
    /** The rows in `job_output`: discarding and deleting remove a prefix of what was ever appended. */
    function Rows(): seq<Record>
      requires discarded <= |log|
    {
      log[discarded..]
    }
  }

  datatype Action =
    | AppendRow(source: Source, data: seq<byte>)
    | Count(source: Source)
    | ReadSubscriber(source: Source)
    | Send(source: Source)
    | CaptureReturns(source: Source)
    | Attach(replay: bool, offset: int)
    | ReplayQuery(session: nat)
    | Receive(session: nat)
    | Leave(session: nat)
    | Detach(session: nat)
    | RequestCancel
    | TakeExit
    | Complete(written: bool)
    | ReadForEof
    | SendEof
    | CloseChannel
    | DiscardOutput
    | DeleteJob

  /** The capture goroutine is in the middle of `appendOutput`. */
  predicate Holding(c: Capture) {
    c.Stored? || c.Counted? || c.Sending?
  }

  function Init(sources: set<Source>): State {
    State(true, Running, 0, [], Running, 0, false, false, None,
          map source | source in sources :: Idle, Waiting, None, [], false, [])
  }

  function LogSize(log: seq<Record>): nat {
    if log == [] then 0 else End(log[|log| - 1])
  }

  /** The attach session's channel: a buffered, non-blocking send. */
  function Offer(session: Session, event: Event): Session {
    if |session.queue| < QUEUE_CAPACITY
    then session.(queue := session.queue + [event], sends := session.sends + [Sent(event, true)])
    else session.(sends := session.sends + [Sent(event, false)])
  }

  predicate Enabled(s: State, a: Action) {
    && !s.panicked
    && match a
       case AppendRow(source, data) => source in s.captures && s.captures[source] == Idle && |data| > 0
       case Count(source) => source in s.captures && s.captures[source].Stored?
       case ReadSubscriber(source) =>
         && source in s.captures && s.captures[source].Counted?
         && 0 < s.captures[source].record.sequence <= |s.publications|
       case Send(source) =>
         && source in s.captures && s.captures[source].Sending?
         && s.captures[source].session < |s.sessions|
       case CaptureReturns(source) => source in s.captures && s.captures[source] == Idle
       case Attach(_, _) => !s.attached
       case ReplayQuery(k) => k < |s.sessions| && s.sessions[k].phase == Replaying && s.discarded <= |s.log|
       case Receive(k) =>
         && k < |s.sessions| && s.sessions[k].phase == Live
         && (s.sessions[k].queue != [] || s.sessions[k].closed)
       case Leave(k) => k < |s.sessions| && s.sessions[k].phase in {Replaying, Live}
       case Detach(k) => k < |s.sessions| && s.sessions[k].phase == Closing
       case RequestCancel => true
       case TakeExit => s.waiter == Waiting
       case Complete(_) => s.waiter == Decided
       case ReadForEof => s.waiter == Completed
       case SendEof => s.waiter == HoldsEof && (s.eofTo.Some? ==> s.eofTo.value < |s.sessions|)
       case CloseChannel => s.waiter == SentEof && s.eofTo.Some? && s.eofTo.value < |s.sessions|
       case DiscardOutput => s.persisted != Running
       case DeleteJob => s.present && s.persisted != Running
  }

  /** One capture-side publish step past the subscriber read. */
  function SendOutput(s: State, source: Source): State
    requires source in s.captures && s.captures[source].Sending? && s.captures[source].session < |s.sessions|
  {
    var k := s.captures[source].session;
    if s.sessions[k].closed then s.(panicked := true) // send on a closed channel
    else s.(sessions := s.sessions[k := Offer(s.sessions[k], Output(s.captures[source].record))],
            captures := s.captures[source := Idle])
  }

  /** One turn of the forwarding loop: an output event is passed on; EOF, or a closed and drained
      channel, ends the loop with an Exit that carries the job row's state at that time. */
  function Received(session: Session, present: bool, persisted: JobState): Session
    requires session.queue != [] || session.closed
  {
    var taken :=
      if session.queue == [] then session
      else session.(queue := session.queue[1..], received := session.received + [session.queue[0]]);
    if session.queue != [] && session.queue[0].Output? then taken
    else taken.(phase := Closing, exit := Some(if present then ExitEvent(persisted) else JobMissing))
  }

  /** The session ends, and stops being the subscriber if it was. */
  function Detached(s: State, k: nat): State
    requires k < |s.sessions|
  {
    var left := s.(sessions := s.sessions[k := s.sessions[k].(phase := Gone)]);
    if s.subscriber == Some(k) then left.(subscriber := None, attached := false) else left
  }

  function Apply(s: State, a: Action): State
    requires Enabled(s, a)
  {
    match a
    case AppendRow(source, data) =>
      if !s.present then s // AppendOutput reports not found and the bytes are dropped
      else
        var record := Record(|s.log| + 1, LogSize(s.log), source, data);
        s.(log := s.log + [record], publications := s.publications + [Pending],
           captures := s.captures[source := Stored(record)])
    case Count(source) =>
      var record := s.captures[source].record;
      s.(outputSize := s.outputSize + |record.data|, captures := s.captures[source := Counted(record)])
    case ReadSubscriber(source) =>
      var record := s.captures[source].record;
      match s.subscriber {
        case None =>
          s.(captures := s.captures[source := Idle],
             publications := s.publications[record.sequence - 1 := Nobody])
        case Some(k) =>
          s.(captures := s.captures[source := Sending(record, k)],
             publications := s.publications[record.sequence - 1 := To(k)])
      }
    case Send(source) => SendOutput(s, source)
    case CaptureReturns(source) => s.(captures := s.captures[source := Returned])
    case Attach(replay, offset) =>
      s.(attached := true, subscriber := Some(|s.sessions|),
         sessions := s.sessions + [Session(if replay then Replaying else Live, offset, [], false, [], None, None, [])])
    case ReplayQuery(k) =>
      var session := s.sessions[k];
      var from := if session.offset < 0 then 0 else session.offset;
      var snapshot := Snapshot(s.discarded, |s.log|, FromOffset(s.Rows(), from));
      s.(sessions := s.sessions[k := session.(phase := Live, replay := Some(snapshot))])
    case Receive(k) =>
      s.(sessions := s.sessions[k := Received(s.sessions[k], s.present, s.persisted)])
    case Leave(k) => s.(sessions := s.sessions[k := s.sessions[k].(phase := Closing)])
    case Detach(k) => Detached(s, k)
    case RequestCancel => s.(cancelRequested := true)
    case TakeExit => s.(state := if s.cancelRequested then Canceled else Exited, waiter := Decided)
    case Complete(written) =>
      s.(persisted := if written && s.present then s.state else s.persisted, waiter := Completed)
    case ReadForEof =>
      s.(eofTo := s.subscriber, subscriber := None, attached := false, waiter := HoldsEof)
    case SendEof =>
      match s.eofTo {
        case None => s.(waiter := Finished) // no subscriber: publish returns
        case Some(k) =>
          if s.sessions[k].closed then s.(panicked := true)
          else s.(sessions := s.sessions[k := Offer(s.sessions[k], Eof)], waiter := SentEof)
      }
    case CloseChannel =>
      var k := s.eofTo.value;
      if s.sessions[k].closed then s.(panicked := true)
      else s.(sessions := s.sessions[k := s.sessions[k].(closed := true)], waiter := Finished)
    case DiscardOutput => s.(discarded := |s.log|)
    case DeleteJob => s.(present := false, discarded := |s.log|)
  }

  /** The state after a run, or None when some action was not enabled. */
  function Exec(s: State, run: seq<Action>): Option<State> {
    if run == [] then Some(s)
    else
      match Exec(s, run[..|run| - 1])
      case None => None
      case Some(before) =>
        if Enabled(before, run[|run| - 1]) then Some(Apply(before, run[|run| - 1])) else None
  }
}
