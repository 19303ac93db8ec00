/** The running execution as the object the daemon updates in place. Each method is a stretch of code
    between two points where other goroutines may interleave, and is tied to the steps of module Protocol
    it performs; so what holds of every run holds of the object. */
module ManagedExecution {
  import opened Wrappers
  import opened OutputLog
  import opened Jobs
  import opened Protocol
  import opened ProtocolTheorems
  import opened ProtocolExit
  import H = History
  import S = Store

  /** A buffered channel of events. */
  class Channel {
    var queue: seq<Event>
    var closed: bool

    constructor ()
      ensures queue == [] && !closed
    {
      queue, closed := [], false;
    }

    /** `select { case ch <- evt: default: }` on an open channel. */
    method TrySend(event: Event)
      requires !closed
      modifies this`queue
      ensures queue == Accepting(old(queue), event)
    {
      if |queue| < QUEUE_CAPACITY {
        queue := queue + [event];
      }
    }

    method Receive() returns (event: Event, ok: bool)
      requires queue != [] || closed
      modifies this`queue
      ensures ok <==> old(queue) != []
      ensures ok ==> event == old(queue)[0] && queue == old(queue)[1..]
      ensures !ok ==> queue == []
    {
      ok := queue != [];
      event := Eof;
      if ok {
        event := queue[0];
        queue := queue[1..];
      }
    }
  }

  // ---------------------------------------------------------------- reachable protocol states

  ghost predicate Reached(s: State) {
    exists sources: set<Source>, run: seq<Action> :: Exec(Init(sources), run) == Some(s)
  }

  lemma ReachedStep(s: State, a: Action)
    requires Reached(s) && Enabled(s, a)
    ensures Reached(Apply(s, a))
  {
    var sources: set<Source>, run: seq<Action> :| Exec(Init(sources), run) == Some(s);
    ExecSnoc(Init(sources), run, a);
  }

  /** What the methods below need to know of a reachable state. */
  lemma ReachedShape(s: State)
    requires Reached(s)
    ensures |s.publications| == |s.log| && s.discarded <= |s.log|
    ensures s.attached <==> s.subscriber.Some?
    ensures s.subscriber.Some? ==>
              s.subscriber.value < |s.sessions| && !s.sessions[s.subscriber.value].closed
    ensures s.persisted == Running ==> s.present
    ensures s.waiter in {Waiting, Decided} ==> s.persisted == Running
  {
    var sources: set<Source>, run: seq<Action> :| Exec(Init(sources), run) == Some(s);
    ReachableInv(sources, run, s);
    if s.subscriber.Some? {
      SubscriberIsOpen(s);
    }
  }

  lemma ReachedRows(s: State)
    requires Reached(s)
    ensures s.discarded <= |s.log| && OnlyLastMayBeEmpty(s.Rows())
  {
    var sources: set<Source>, run: seq<Action> :| Exec(Init(sources), run) == Some(s);
    ReachableInv(sources, run, s);
    assert NoEmptyRecord(s.log);
  }

  lemma QueryRecords(s: State, k: nat)
    requires Reached(s) && !s.panicked && k < |s.sessions| && s.sessions[k].phase == Replaying
    ensures s.discarded <= |s.log| && Enabled(s, ReplayQuery(k))
    ensures var r := Apply(s, ReplayQuery(k));
            && k < |r.sessions| && r.sessions[k].replay.Some? && Enabled(r, Leave(k)) && Enabled(s, Leave(k))
            && r.sessions[k].replay.value.records == FromOffset(s.Rows(), S.Max0(s.sessions[k].offset))
  {
    ReachedShape(s);
  }

  // ---------------------------------------------------------------- the steps of whole methods

  /** What detaching shows outside: the subscriber, if it was this session's. */
  lemma DetachShows(s: State, k: nat)
    requires Enabled(s, Detach(k))
    ensures var r := Detached(s, k);
            && Apply(s, Detach(k)) == r && r.panicked == s.panicked
            && r.state == s.state && r.cancelRequested == s.cancelRequested && r.outputSize == s.outputSize
            && r.present == s.present && r.persisted == s.persisted && r.discarded == s.discarded
            && r.log == s.log && r.publications == s.publications
            && r.subscriber == (if s.subscriber == Some(k) then None else s.subscriber)
            && r.attached == (s.subscriber != Some(k) && s.attached)
            && |r.sessions| == |s.sessions|
            && forall j :: 0 <= j < |s.sessions| ==>
                 r.sessions[j].queue == s.sessions[j].queue && r.sessions[j].closed == s.sessions[j].closed
  {
  }

  ghost predicate SameMemory(a: State, b: State) {
    && a.state == b.state && a.cancelRequested == b.cancelRequested && a.outputSize == b.outputSize
    && a.attached == b.attached && a.subscriber == b.subscriber && a.sessions == b.sessions
  }

  /** `appendOutput` with nothing interleaved, up to its publication. */
  function StoreRun(s: State, source: Source, data: seq<byte>): seq<Action> {
    if s.present then [AppendRow(source, data), Count(source)] else [AppendRow(source, data)]
  }

  /** `publish` for an output event, with nothing interleaved. */
  function PublishRun(s: State, source: Source): seq<Action> {
    if s.subscriber.Some? then [ReadSubscriber(source), Send(source)] else [ReadSubscriber(source)]
  }

  /** `appendOutput` with nothing interleaved. */
  function AppendRun(s: State, source: Source, data: seq<byte>): seq<Action> {
    if data == [] then []
    else StoreRun(s, source, data) + if s.present then PublishRun(s, source) else []
  }

  class ManagedExecution {
    const id: string
    const owner: string
    var state: JobState
    var cancelRequested: bool
    var outputSizeBytes: nat
    var attached: bool
    var subscriber: Channel?
    ghost var proto: State
    ghost var channels: seq<Channel>

    /** The object and the store show the protocol state. */
    ghost predicate Valid(store: S.Store)
      reads this, store, channels
    {
      && Reached(proto) && !proto.panicked && |proto.publications| == |proto.log|
      && Consistent(store.Tables())
      && ShowsTables(id, store.Tables(), proto)
      && ShowsMemory()
    }

    ghost predicate ShowsMemory()
      reads this, channels
    {
      && state == proto.state
      && cancelRequested == proto.cancelRequested
      && outputSizeBytes == proto.outputSize
      && attached == proto.attached
      && |channels| == |proto.sessions|
      && (forall j, k :: 0 <= j < k < |channels| ==> channels[j] != channels[k])
      && (forall k :: 0 <= k < |channels| ==>
            channels[k].queue == proto.sessions[k].queue && channels[k].closed == proto.sessions[k].closed)
      && (proto.subscriber == None ==> subscriber == null)
      && (proto.subscriber.Some? ==>
            proto.subscriber.value < |channels| && subscriber == channels[proto.subscriber.value])
    }

    /** The channel that a publication may touch, if there is one. */
    ghost function Subscribed(): set<Channel>
      reads this
    {
      if subscriber == null then {} else {subscriber}
    }

    /** A new execution, once its row is created: nobody attached, nothing captured. */
    constructor (id: string, owner: string, ghost store: S.Store, ghost sources: set<Source>)
      requires Consistent(store.Tables()) && id in store.jobs
      requires store.jobs[id].state == Running && store.jobs[id].nextSequence == 0 && store.jobs[id].outputSize == 0
      ensures Valid(store) && proto == Init(sources) && channels == []
      ensures this.id == id && this.owner == owner && state == Running && !cancelRequested && !attached
    {
      this.id, this.owner := id, owner;
      state, cancelRequested, outputSizeBytes, attached, subscriber := Running, false, 0, false, null;
      proto, channels := Init(sources), [];
      new;
      assert Exec(Init(sources), []) == Some(proto);
      assert RowsMatch(store.jobs[id], RowsOf(store.output, id));
    }

    /** `e.mu.Lock(); e.cancelRequested = true`. */
    method RequestCancellation(ghost store: S.Store)
      requires Valid(store)
      modifies this
      ensures Valid(store) && channels == old(channels)
      ensures proto == Apply(old(proto), RequestCancel)
    {
      cancelRequested := true;
      ReachedStep(proto, RequestCancel);
      proto := Apply(proto, RequestCancel);
    }

    /** Finds the row, checks its owner and the map of live executions, then reserves the subscriber. */
    method Attach(store: S.Store, caller: string, registered: bool, ghost replay: bool, ghost offset: int)
      returns (r: Result<Channel, H.ManagerError>)
      requires Valid(store)
      modifies this
      ensures Valid(store)
      ensures r.Err? ==> proto == old(proto) && channels == old(channels)
      ensures r.Err? && r.error == H.ErrNotFound <==>
                id !in store.jobs || (store.jobs[id].owner == caller && !registered)
      ensures r.Err? && r.error == H.ErrForbidden <==> id in store.jobs && store.jobs[id].owner != caller
      ensures r.Ok? <==> id in store.jobs && store.jobs[id].owner == caller && registered && !old(attached)
      ensures r.Err? ==> r.error in {H.ErrNotFound, H.ErrForbidden, H.ErrAlreadyAttached}
      ensures r.Ok? ==>
                && proto == Apply(old(proto), Protocol.Attach(replay, offset))
                && fresh(r.value) && subscriber == r.value && channels == old(channels) + [r.value]
                && proto.sessions[|old(channels)|].phase == (if replay then Replaying else Live)
                && proto.sessions[|old(channels)|].offset == offset
    {
      if id !in store.jobs {
        return Err(H.ErrNotFound);
      }
      if store.jobs[id].owner != caller {
        return Err(H.ErrForbidden);
      }
      if !registered {
        return Err(H.ErrNotFound);
      }
      var reserved := Reserve(store, replay, offset);
      r := if reserved.Ok? then Ok(reserved.value) else Err(H.ErrAlreadyAttached);
    }

    /** The section under the lock: makes a new channel the only subscriber, or fails when there is one. */
    method Reserve(ghost store: S.Store, ghost replay: bool, ghost offset: int) returns (r: Result<Channel, ()>)
      requires Valid(store)
      modifies this
      ensures Valid(store)
      ensures r.Err? <==> old(attached)
      ensures r.Err? ==> proto == old(proto) && channels == old(channels)
      ensures r.Ok? ==>
                && proto == Apply(old(proto), Protocol.Attach(replay, offset))
                && fresh(r.value) && subscriber == r.value && channels == old(channels) + [r.value]
                && proto.sessions[|old(channels)|].phase == (if replay then Replaying else Live)
                && proto.sessions[|old(channels)|].offset == offset
    {
      if attached {
        return Err(());
      }
      var ch := new Channel();
      attached := true;
      subscriber := ch;
      ReachedStep(proto, Protocol.Attach(replay, offset));
      proto := Apply(proto, Protocol.Attach(replay, offset));
      channels := channels + [ch];
      return Ok(ch);
    }

    /** The replay of an attach session: one query, sent to a receiver that takes at most `limit` records.
        If the row is gone or the receiver fails, the session leaves. */
    method ReplayBuffered(store: S.Store, ghost k: nat, offset: int, limit: nat)
      returns (sent: seq<Record>, complete: bool)
      requires Valid(store) && k < |channels|
      requires proto.sessions[k].phase == Replaying && proto.sessions[k].offset == offset
      modifies this`proto
      ensures Valid(store)
      ensures var queried := Apply(old(proto), ReplayQuery(k));
              && (complete ==> proto == queried && sent == queried.sessions[k].replay.value.records)
              && (!complete ==> proto == Apply(if id in store.jobs then queried else old(proto), Protocol.Leave(k)))
              && sent <= queried.sessions[k].replay.value.records
    {
      QueryRecords(proto, k);
      sent, complete := [], false;
      if id in store.jobs {
        sent, complete := SendRows(store, offset, limit);
        QueryReplay(store, k);
      }
      if !complete {
        Leave(store, k);
      }
    }

    method SendRows(store: S.Store, offset: int, limit: nat) returns (sent: seq<Record>, complete: bool)
      requires Valid(store) && id in store.jobs
      ensures proto.discarded <= |proto.log|
      ensures sent <= FromOffset(proto.Rows(), S.Max0(offset))
      ensures complete ==> sent == FromOffset(proto.Rows(), S.Max0(offset))
    {
      ReachedRows(proto);
      sent, complete := store.StreamOutput(id, offset, limit);
    }

    ghost method QueryReplay(store: S.Store, k: nat)
      requires Valid(store) && Enabled(proto, ReplayQuery(k))
      modifies this`proto
      ensures Valid(store) && proto == Apply(old(proto), ReplayQuery(k))
    {
      ReachedStep(proto, ReplayQuery(k));
      proto := Apply(proto, ReplayQuery(k));
    }

    /** The session's handler returns; its deferred detach is still to come. */
    ghost method Leave(store: S.Store, k: nat)
      requires Valid(store) && Enabled(proto, Protocol.Leave(k))
      modifies this`proto
      ensures Valid(store) && proto == Apply(old(proto), Protocol.Leave(k))
    {
      ReachedStep(proto, Protocol.Leave(k));
      proto := Apply(proto, Protocol.Leave(k));
    }

    /** A capture goroutine ends after its last flush. */
    ghost method CaptureReturns(store: S.Store, source: Source)
      requires Valid(store) && source in proto.captures && proto.captures[source] == Idle
      modifies this`proto
      ensures Valid(store) && proto == Apply(old(proto), Protocol.CaptureReturns(source))
    {
      ReachedStep(proto, Protocol.CaptureReturns(source));
      proto := Apply(proto, Protocol.CaptureReturns(source));
    }

    /** The closure `Attach` returns: it unsubscribes its own channel and no other. */
    method Detach(ghost store: S.Store, ch: Channel, ghost k: nat)
      requires Valid(store)
      requires k < |channels| && channels[k] == ch && proto.sessions[k].phase == Closing
      modifies this
      ensures Valid(store) && channels == old(channels)
      ensures proto == Apply(old(proto), Protocol.Detach(k))
      ensures subscriber == if old(subscriber) == ch then null else old(subscriber)
    {
      if subscriber == ch {
        Unreserve(store, k);
      } else {
        Forget(store, k);
      }
    }

    method Unreserve(ghost store: S.Store, ghost k: nat)
      requires Valid(store) && Enabled(proto, Protocol.Detach(k)) && proto.subscriber == Some(k)
      modifies this`subscriber, this`attached, this`proto
      ensures Valid(store) && proto == Apply(old(proto), Protocol.Detach(k)) && subscriber == null
    {
      DetachShows(proto, k);
      ReachedStep(proto, Protocol.Detach(k));
      subscriber := null;
      attached := false;
      proto := Detached(proto, k);
    }

    ghost method Forget(store: S.Store, k: nat)
      requires Valid(store) && Enabled(proto, Protocol.Detach(k)) && proto.subscriber != Some(k)
      modifies this`proto
      ensures Valid(store) && proto == Apply(old(proto), Protocol.Detach(k))
    {
      DetachShows(proto, k);
      ReachedStep(proto, Protocol.Detach(k));
      proto := Detached(proto, k);
    }

    /** The store's transaction for one captured chunk. */
    method StoreRecord(store: S.Store, source: Source, data: seq<byte>) returns (appended: Result<Record, StoreError>)
      requires Valid(store) && source in proto.captures && proto.captures[source] == Idle && data != []
      modifies store, this`proto
      ensures Valid(store)
      ensures appended.Ok? <==> old(proto).present
      ensures store.Tables() == Jobs.Or(Jobs.AppendOutput(old(store.Tables()), id, source, data), old(store.Tables()))
      ensures proto == Apply(old(proto), AppendRow(source, data))
      ensures appended.Ok? ==> proto.captures == old(proto).captures[source := Stored(appended.value)]
      ensures appended.Ok? ==> id in old(store.jobs) && appended.value == NextRecord(old(store.jobs)[id], source, data)
    {
      AppendShowsTables(id, store.Tables(), proto, source, data);
      ghost var tables := store.Tables();
      appended := store.Append(id, source, data);
      assert store.Tables() == Jobs.Or(Jobs.AppendOutput(tables, id, source, data), tables);
      Quietly(AppendRow(source, data));
    }

    /** A protocol step that shows in the store alone. */
    ghost method Quietly(a: Action)
      requires Reached(proto) && Enabled(proto, a) && |proto.publications| == |proto.log| && ShowsMemory()
      requires SameMemory(proto, Apply(proto, a))
      modifies this`proto
      ensures proto == Apply(old(proto), a) && ShowsMemory()
      ensures Reached(proto) && |proto.publications| == |proto.log|
    {
      ReachedStep(proto, a);
      proto := Apply(proto, a);
      ReachedShape(proto);
    }

    /** The discard that may follow a read of the finished job; a row that is gone by then has nothing left. */
    method DiscardOutput(store: S.Store)
      requires Valid(store) && proto.persisted != Running
      modifies store`output, this`proto
      ensures Valid(store)
      ensures store.Tables() == Jobs.DeleteOutput(old(store.Tables()), id)
      ensures proto == Apply(old(proto), Protocol.DiscardOutput)
    {
      RowsOfWithout(store.output, {id}, id);
      store.RemoveOutput(id);
      Quietly(Protocol.DiscardOutput);
    }

    /** Deleting the job from history; the execution itself goes on. */
    method Delete(store: S.Store, caller: string) returns (refusal: Option<H.ManagerError>)
      requires Valid(store)
      modifies store, this`proto
      ensures Valid(store)
      ensures refusal == if id !in old(store.jobs) then Some(H.ErrNotFound)
                         else if old(store.jobs)[id].owner != caller then Some(H.ErrForbidden)
                         else if old(store.jobs)[id].state == Running then Some(H.ErrRunning)
                         else None
      ensures refusal.Some? ==> store.Tables() == old(store.Tables()) && proto == old(proto)
      ensures refusal.None? ==>
                && store.Tables() == Purge(old(store.Tables()), {id})
                && proto == Apply(old(proto), Protocol.DeleteJob) && !proto.present
    {
      if id !in store.jobs {
        return Some(H.ErrNotFound);
      }
      if store.jobs[id].owner != caller {
        return Some(H.ErrForbidden);
      }
      if store.jobs[id].state == Running {
        return Some(H.ErrRunning);
      }
      var _ := store.Remove(id);
      Quietly(Protocol.DeleteJob);
      return None;
    }

    /** The counters, under the execution's lock. */
    method CountRecord(ghost store: S.Store, ghost source: Source, record: Record)
      requires Valid(store) && source in proto.captures && proto.captures[source] == Stored(record)
      modifies this`outputSizeBytes, this`proto
      ensures Valid(store)
      ensures proto == Apply(old(proto), Count(source))
    {
      outputSizeBytes := outputSizeBytes + |record.data|;
      ReachedStep(proto, Count(source));
      proto := Apply(proto, Count(source));
    }

    /** Stores one captured chunk, counts it and offers it to the subscriber. */
    method AppendOutput(store: S.Store, source: Source, data: seq<byte>)
      requires Valid(store) && source in proto.captures && proto.captures[source] == Idle
      modifies store, this, channels
      ensures Valid(store) && channels == old(channels)
      ensures store.Tables() == if data == [] then old(store.Tables())
                                else Jobs.Or(Jobs.AppendOutput(old(store.Tables()), id, source, data),
                                             old(store.Tables()))
      ensures proto == Appended(old(proto), source, data)
      ensures subscriber == old(subscriber)
      ensures forall ch :: ch in channels ==>
                ch.closed == old(ch.closed) && (ch == subscriber || ch.queue == old(ch.queue))
      ensures subscriber != null ==>
                subscriber.queue ==
                if data == [] || id !in old(store.jobs) then old(subscriber.queue)
                else Accepting(old(subscriber.queue), Output(NextRecord(old(store.jobs)[id], source, data)))
    {
      if data == [] {
        return;
      }
      ReachedShape(proto);
      var appended := StoreRecord(store, source, data);
      if appended.Err? {
        return;
      }
      CountAndPublish(store, source, appended.value);
    }

    /** What follows the store's transaction. */
    method CountAndPublish(ghost store: S.Store, ghost source: Source, record: Record)
      requires Valid(store) && source in proto.captures && proto.captures[source] == Stored(record)
      requires 0 < record.sequence <= |proto.publications|
      modifies this`outputSizeBytes, this`proto, channels
      ensures Valid(store) && Enabled(old(proto), Count(source))
      ensures subscriber == old(subscriber) && channels == old(channels)
      ensures Apply(old(proto), Count(source)).subscriber == old(proto).subscriber
      ensures old(proto).subscriber.Some? ==> old(proto).subscriber.value < |old(proto).sessions|
      ensures proto == Published(Apply(old(proto), Count(source)), source)
      ensures subscriber != null ==> subscriber.queue == Accepting(old(subscriber.queue), Output(record))
      ensures forall ch :: ch in channels ==>
                ch.closed == old(ch.closed) && (ch == subscriber || ch.queue == old(ch.queue))
    {
      CountRecord(store, source, record);
      Publish(store, source, record);
    }

    /** `publish` for an output event, as one stretch: read the subscriber, then the non-blocking send. */
    method Publish(ghost store: S.Store, ghost source: Source, record: Record)
      requires Valid(store) && source in proto.captures && proto.captures[source] == Counted(record)
      requires 0 < record.sequence <= |proto.publications|
      modifies this`proto, channels
      ensures Valid(store)
      ensures source in proto.captures && proto == Published(old(proto), source)
      ensures subscriber != null ==> subscriber.queue == Accepting(old(subscriber.queue), Output(record))
      ensures forall ch :: ch in channels ==>
                ch.closed == old(ch.closed) && (ch == subscriber || ch.queue == old(ch.queue))
    {
      ReachedShape(proto);
      ghost var k := proto.subscriber;
      var ch := LookUpSubscriber(store, source, record);
      if ch != null {
        SendTo(store, source, record, ch, k.value);
      }
    }

    /** The section under the lock. */
    method LookUpSubscriber(ghost store: S.Store, ghost source: Source, ghost record: Record) returns (ch: Channel?)
      requires Valid(store) && source in proto.captures && proto.captures[source] == Counted(record)
      requires 0 < record.sequence <= |proto.publications|
      modifies this`proto
      ensures Valid(store) && proto == Apply(old(proto), ReadSubscriber(source))
      ensures ch == subscriber
    {
      ReachedStep(proto, ReadSubscriber(source));
      proto := Apply(proto, ReadSubscriber(source));
      ch := subscriber;
    }

    /** The send, after the lock was released. */
    method SendTo(ghost store: S.Store, ghost source: Source, record: Record, ch: Channel, ghost k: nat)
      requires Valid(store) && source in proto.captures && proto.captures[source] == Sending(record, k)
      requires k < |channels| && ch == channels[k] && !ch.closed
      modifies this`proto, ch`queue
      ensures Valid(store) && proto == Apply(old(proto), Send(source))
    {
      ReachedStep(proto, Send(source));
      ch.TrySend(Output(record));
      proto := Apply(proto, Send(source));
    }

    // -------------------------------------------------------------- exit

    /** The waiter's section under the lock. */
    method DecideState(ghost store: S.Store)
      requires Valid(store) && proto.waiter == Waiting
      modifies this`state, this`proto
      ensures Valid(store) && proto == Apply(old(proto), TakeExit)
    {
      if cancelRequested {
        state := Canceled;
      } else {
        state := Exited;
      }
      ReachedStep(proto, TakeExit);
      proto := Apply(proto, TakeExit);
    }

    /** `CompleteJob` with the state decided; not finding the row changes nothing. */
    method WriteCompletion(store: S.Store, at: int, code: int, signal: string)
      requires Valid(store) && proto.waiter == Decided
      modifies store`jobs, this`proto
      ensures Valid(store) && proto == Apply(old(proto), Complete(true))
      ensures store.Tables() ==
              Jobs.Or(Jobs.CompleteJob(old(store.Tables()), id, state, at, Some(code), signal, ""), old(store.Tables()))
    {
      ReachedShape(proto);
      var found := store.Complete(id, state, at, Some(code), signal, "");
      Quietly(Complete(true));
    }

    /** `publish` for EOF, under the lock: take the subscriber and unsubscribe it. */
    method Unsubscribe(ghost store: S.Store) returns (ch: Channel?)
      requires Valid(store) && proto.waiter == Completed
      modifies this`subscriber, this`attached, this`proto
      ensures Valid(store) && proto == Apply(old(proto), ReadForEof)
      ensures ch == old(subscriber) && subscriber == null && !attached
    {
      ch := subscriber;
      subscriber := null;
      attached := false;
      ReachedShape(proto);
      ReachedStep(proto, ReadForEof);
      proto := Apply(proto, ReadForEof);
    }

    /** `publish` for EOF, after the lock, without a subscriber: nothing to do. */
    method SendEofToNobody(ghost store: S.Store)
      requires Valid(store) && proto.waiter == HoldsEof && proto.eofTo == None
      modifies this`proto
      ensures Valid(store) && proto == Apply(old(proto), SendEof)
    {
      ReachedStep(proto, SendEof);
      proto := Apply(proto, SendEof);
    }

    /** `publish` for EOF, after the lock: send without blocking. */
    method SendEofTo(ghost store: S.Store, ch: Channel, ghost k: nat)
      requires Valid(store) && proto.waiter == HoldsEof && proto.eofTo == Some(k) && k < |channels|
      requires ch == channels[k] && !ch.closed
      modifies this`proto, ch`queue
      ensures Valid(store) && proto == Apply(old(proto), SendEof)
      ensures ch.queue == Accepting(old(ch.queue), Eof)
    {
      ReachedStep(proto, SendEof);
      ch.TrySend(Eof);
      proto := Apply(proto, SendEof);
    }

    /** `publish` for EOF, last: close the channel. */
    method CloseAfterEof(ghost store: S.Store, ch: Channel)
      requires Valid(store) && Enabled(proto, CloseChannel) && ch == channels[proto.eofTo.value]
      modifies this`proto, ch`closed
      ensures Valid(store) && proto == Apply(old(proto), CloseChannel)
      ensures ch.closed
    {
      EofChannelIsOpen(proto);
      ReachedStep(proto, CloseChannel);
      ch.closed := true;
      proto := Apply(proto, CloseChannel);
    }

    /** `publish` for EOF, after the lock, as one stretch. */
    method SendEofAndClose(ghost store: S.Store, ch: Channel, ghost k: nat)
      requires Valid(store) && proto.waiter == HoldsEof && proto.eofTo == Some(k) && k < |channels|
      requires ch == channels[k] && !ch.closed
      modifies this`proto, ch
      ensures Valid(store)
      ensures Enabled(old(proto), SendEof) && Enabled(Apply(old(proto), SendEof), CloseChannel)
      ensures proto == Apply(Apply(old(proto), SendEof), CloseChannel)
      ensures ch.closed && ch.queue == Accepting(old(ch.queue), Eof)
    {
      SendEofTo(store, ch, k);
      CloseAfterEof(store, ch);
    }

    /** `publish` for EOF, as one stretch. */
    method PublishEof(ghost store: S.Store)
      requires Valid(store) && proto.waiter == Completed && SubscriberOpen(proto)
      modifies this`subscriber, this`attached, this`proto, Subscribed()
      ensures Valid(store) && proto == AfterEof(old(proto))
      ensures subscriber == null && !attached
      ensures old(subscriber) != null ==>
                old(subscriber).closed && old(subscriber).queue == Accepting(old(subscriber.queue), Eof)
    {
      ghost var k := if proto.subscriber.Some? then proto.subscriber.value else 0;
      var ch := Unsubscribe(store);
      SendEofIfAny(store, ch, k);
    }

    /** `publish` for EOF, after the lock. */
    method SendEofIfAny(ghost store: S.Store, ch: Channel?, ghost k: nat)
      requires Valid(store) && proto.waiter == HoldsEof && proto.eofTo == (if ch == null then None else Some(k))
      requires ch != null ==> k < |channels| && ch == channels[k] && !ch.closed
      modifies this`proto, if ch == null then {} else {ch}
      ensures Valid(store) && proto == EofSent(old(proto))
      ensures ch != null ==> ch.closed && ch.queue == Accepting(old(ch.queue), Eof)
    {
      if ch == null {
        SendEofToNobody(store);
      } else {
        SendEofAndClose(store, ch, k);
      }
    }

    /** The waiter up to the EOF publication. */
    method FinishRow(store: S.Store, at: int, code: int, signal: string)
      requires Valid(store) && proto.waiter == Waiting
      modifies store`jobs, this`state, this`proto
      ensures Valid(store) && proto == RowFinished(old(proto))
      ensures state == if old(cancelRequested) then Canceled else Exited
      ensures store.Tables() ==
              Jobs.Or(Jobs.CompleteJob(old(store.Tables()), id, state, at, Some(code), signal, ""), old(store.Tables()))
    {
      DecideState(store);
      WriteCompletion(store, at, code, signal);
    }

    /** The whole of the waiter after the process ended: the row is finished before EOF is published. A failed
        wait that reports code zero counts as code -1. */
    method WaitForExit(store: S.Store, at: int, code: int, waitFailed: bool, signal: string)
      requires Valid(store) && proto.waiter == Waiting && SubscriberOpen(proto)
      modifies store`jobs, this`state, this`subscriber, this`attached, this`proto, Subscribed()
      ensures Valid(store) && proto == AfterEof(RowFinished(old(proto)))
      ensures subscriber == null && !attached
      ensures old(subscriber) != null ==>
                old(subscriber).closed && old(subscriber).queue == Accepting(old(subscriber.queue), Eof)
      ensures state == if old(cancelRequested) then Canceled else Exited
      ensures store.Tables() ==
              Jobs.Or(Jobs.CompleteJob(old(store.Tables()), id, state, at, Some(H.ExitCode(code, waitFailed)),
                                       signal, ""), old(store.Tables()))
      ensures id in store.jobs ==> H.ExitStored(store.jobs[id], state, at, code, waitFailed, signal)
    {
      var exitCode := code;
      if waitFailed && code == 0 {
        exitCode := -1;
      }
      FinishRow(store, at, exitCode, signal);
      PublishEof(store);
    }

    /** One receive of the forwarding loop. */
    method ReceiveEvent(ghost store: S.Store, ch: Channel, ghost k: nat) returns (event: Event, ok: bool)
      requires Valid(store) && k < |channels| && channels[k] == ch && Enabled(proto, Action.Receive(k))
      modifies this`proto, ch`queue
      ensures Valid(store) && proto == Apply(old(proto), Action.Receive(k))
      ensures ok <==> old(ch.queue) != []
      ensures ok ==> event == old(ch.queue)[0] && ch.queue == old(ch.queue)[1..]
    {
      ReachedStep(proto, Action.Receive(k));
      event, ok := ch.Receive();
      proto := Apply(proto, Action.Receive(k));
    }

    /** The forwarding loop of an attach session whose channel is closed: it passes on every event queued
        before EOF and ends with the job row as it then is. */
    method ForwardToExit(store: S.Store, ch: Channel, ghost k: nat) returns (sent: seq<Record>, exit: ExitOutcome)
      requires Valid(store) && k < |channels| && channels[k] == ch
      requires ch.closed && proto.sessions[k].phase == Live
      modifies this`proto, ch`queue
      ensures Valid(store) && proto == Drained(old(proto), k)
      ensures sent == Outputs(BeforeEof(old(ch.queue)))
      ensures exit == if id in store.jobs then ExitEvent(store.jobs[id].state) else JobMissing
    {
      sent := [];
      ghost var start, all := proto, Outputs(BeforeEof(ch.queue));
      while true
        invariant Valid(store) && proto.sessions[k].phase == Live && ch.closed
        invariant Drained(proto, k) == Drained(start, k)
        invariant sent + Outputs(BeforeEof(ch.queue)) == all
        decreases |ch.queue|
      {
        var event, more := ForwardOne(store, ch, k);
        if !more {
          exit := if id in store.jobs then ExitEvent(store.jobs[id].state) else JobMissing;
          return;
        }
        Regroup(sent, [event.record], Outputs(BeforeEof(ch.queue)));
        sent := sent + [event.record];
      }
    }

    /** One turn of that loop. */
    method ForwardOne(store: S.Store, ch: Channel, ghost k: nat) returns (event: Event, more: bool)
      requires Valid(store) && k < |channels| && channels[k] == ch
      requires ch.closed && proto.sessions[k].phase == Live
      modifies this`proto, ch`queue
      ensures Valid(store)
      ensures more ==> event.Output? && |ch.queue| < |old(ch.queue)| && proto.sessions[k].phase == Live
      ensures more ==> Drained(proto, k) == Drained(old(proto), k)
      ensures more ==> Outputs(BeforeEof(old(ch.queue))) == [event.record] + Outputs(BeforeEof(ch.queue))
      ensures !more ==> proto == Drained(old(proto), k) && Outputs(BeforeEof(old(ch.queue))) == []
    {
      ReceiveOne(proto, k);
      var ok;
      event, ok := ReceiveEvent(store, ch, k);
      more := ok && event != Eof;
    }
  }

  /** The state after the rest of `publish` for EOF, with nothing interleaved. */
  function EofSent(s: State): State
    requires Enabled(s, SendEof) && (s.eofTo.Some? ==> Enabled(Apply(s, SendEof), CloseChannel))
  {
    if s.eofTo.Some? then Apply(Apply(s, SendEof), CloseChannel) else Apply(s, SendEof)
  }

  /** A channel's queue after a non-blocking send: it holds at most 256 events. */
  function Accepting(queue: seq<Event>, event: Event): seq<Event> {
    if |queue| < 256 then queue + [event] else queue
  }

  /** The state after the waiter decided and wrote the completion, with nothing interleaved. */
  function RowFinished(s: State): (r: State)
    requires !s.panicked && s.waiter == Waiting
    ensures !r.panicked && r.waiter == Completed && r.subscriber == s.subscriber && r.sessions == s.sessions
  {
    Apply(Apply(s, TakeExit), Complete(true))
  }

  lemma EofChannelIsOpen(s: State)
    requires Reached(s)
    ensures s.waiter in {HoldsEof, SentEof} && s.eofTo.Some? ==>
              s.eofTo.value < |s.sessions| && !s.sessions[s.eofTo.value].closed
  {
    var sources: set<Source>, run: seq<Action> :| Exec(Init(sources), run) == Some(s);
    ReachableInv(sources, run, s);
    GuardsAreProgramCounters(s, Stdout);
  }

  /** The state after `publish` offered a counted record, with nothing interleaved. */
  function Published(s: State, source: Source): State
    requires source in s.captures && s.captures[source].Counted? && !s.panicked
    requires 0 < s.captures[source].record.sequence <= |s.publications|
    requires s.subscriber.Some? ==> s.subscriber.value < |s.sessions|
  {
    var read := Apply(s, ReadSubscriber(source));
    if s.subscriber.Some? then Apply(read, Send(source)) else read
  }

  /** The store's rows for the job are the protocol's log, as far as it was not discarded. */
  ghost predicate ShowsTables(id: string, db: Db, proto: State) {
    && proto.discarded <= |proto.log|
    && (id in db.jobs <==> proto.present)
    && (proto.present ==>
          && db.jobs[id].state == proto.persisted
          && db.jobs[id].nextSequence == |proto.log|
          && db.jobs[id].outputSize == LogSize(proto.log)
          && RowsOf(db.output, id) == proto.Rows())
  }

  lemma AppendShowsTables(id: string, db: Db, proto: State, source: Source, data: seq<byte>)
    requires ShowsTables(id, db, proto) && Enabled(proto, AppendRow(source, data))
    ensures proto.present ==>
              && ShowsTables(id, Jobs.AppendOutput(db, id, source, data).value, Apply(proto, AppendRow(source, data)))
              && NextRecord(db.jobs[id], source, data) == Record(|proto.log| + 1, LogSize(proto.log), source, data)
  {
    if proto.present {
      AppendAddsOneRecord(db, id, source, data, id);
      var record := NextRecord(db.jobs[id], source, data);
      assert (proto.log + [record])[proto.discarded..] == proto.log[proto.discarded..] + [record];
    }
  }

  /** The state after `appendOutput`, with nothing interleaved. */
  function Appended(s: State, source: Source, data: seq<byte>): State
    requires data != [] ==> Enabled(s, AppendRow(source, data)) && |s.publications| == |s.log|
    requires s.subscriber.Some? ==> s.subscriber.value < |s.sessions|
  {
    if data == [] then s
    else
      var stored := Apply(s, AppendRow(source, data));
      if s.present then Published(Apply(stored, Count(source)), source) else stored
  }

  /** Storing, counting and publishing, one after the other, is the run of `appendOutput`. */
  lemma {:induction false} AppendRunIs(s: State, source: Source, data: seq<byte>)
    requires Enabled(s, AppendRow(source, data)) && |s.publications| == |s.log|
    requires s.subscriber.Some? ==> s.subscriber.value < |s.sessions|
    ensures Exec(s, AppendRun(s, source, data)) == Some(Appended(s, source, data))
  {
    StoreRunIs(s, source, data);
    if s.present {
      var counted := Apply(Apply(s, AppendRow(source, data)), Count(source));
      PublishedIsRun(counted, source);
      ExecConcat(s, StoreRun(s, source, data), PublishRun(counted, source));
    } else {
      assert AppendRun(s, source, data) == StoreRun(s, source, data);
    }
  }

  lemma StoreRunIs(s: State, source: Source, data: seq<byte>)
    requires Enabled(s, AppendRow(source, data))
    ensures var stored := Apply(s, AppendRow(source, data));
            Exec(s, StoreRun(s, source, data)) == Some(if s.present then Apply(stored, Count(source)) else stored)
  {
    var stored := Apply(s, AppendRow(source, data));
    ExecStep(s, [], s, AppendRow(source, data));
    assert [] + [AppendRow(source, data)] == [AppendRow(source, data)];
    if s.present {
      ExecStep(s, [AppendRow(source, data)], stored, Count(source));
      assert [AppendRow(source, data)] + [Count(source)] == [AppendRow(source, data), Count(source)];
    }
  }

  lemma PublishedIsRun(s: State, source: Source)
    requires !s.panicked && source in s.captures && s.captures[source].Counted?
    requires 0 < s.captures[source].record.sequence <= |s.publications|
    requires s.subscriber.Some? ==> s.subscriber.value < |s.sessions|
    ensures Exec(s, PublishRun(s, source)) == Some(Published(s, source))
  {
    ExecStep(s, [], s, ReadSubscriber(source));
    assert [] + [ReadSubscriber(source)] == [ReadSubscriber(source)];
    if s.subscriber.Some? {
      ExecStep(s, [ReadSubscriber(source)], Apply(s, ReadSubscriber(source)), Send(source));
      assert [ReadSubscriber(source)] + [Send(source)] == [ReadSubscriber(source), Send(source)];
    }
  }
}
