/** The capture loops that cut byte streams into records, and the client that joins them again. */
module Capture {
  import opened Wrappers
  import opened OutputLog

  // ---------------------------------------------------------------- two loops, one log

  /** Why a record was emitted. */
  datatype Cause = Full | Ticked | Closed

  /** One loop: its buffer, everything read so far, and whether its reader is still open. */
  datatype Loop = Loop(pending: seq<byte>, read: seq<byte>, open: bool)

  datatype State = State(loops: map<Source, Loop>, log: seq<Record>, size: nat, causes: seq<Cause>)

  /** One action of one loop. Between the appends of a drain, actions of the other loop may come. */
  datatype Action =
    | Read(source: Source, chunk: seq<byte>)
    | Cut(source: Source)
    | Tick(source: Source)
    | Close(source: Source)

  function Init(sources: set<Source>): State {
    State(map source | source in sources :: Loop([], [], true), [], 0, [])
  }

  /** A loop that holds a full chunk drains before it looks at its channels again. */
  predicate Enabled(s: State, a: Action, chunkSize: nat) {
    && a.source in s.loops && s.loops[a.source].open
    && (a.Cut? <==> |s.loops[a.source].pending| >= chunkSize)
  }

  /** `data` leaves the front of a loop's buffer for the log. */
  function Emitted(s: State, source: Source, data: seq<byte>, rest: seq<byte>, cause: Cause): State
    requires source in s.loops
  {
    State(s.loops[source := s.loops[source].(pending := rest)],
          s.log + [Record(|s.log| + 1, s.size, source, data)], s.size + |data|, s.causes + [cause])
  }

  function Flushed(s: State, source: Source, cause: Cause): State
    requires source in s.loops
  {
    var pending := s.loops[source].pending;
    if pending == [] then s else Emitted(s, source, pending, [], cause)
  }

  function Apply(s: State, a: Action, chunkSize: nat): State
    requires Enabled(s, a, chunkSize)
  {
    var loop := s.loops[a.source];
    match a
    case Read(source, chunk) =>
      s.(loops := s.loops[source := loop.(pending := loop.pending + chunk, read := loop.read + chunk)])
    case Cut(source) =>
      Emitted(s, source, loop.pending[..chunkSize], loop.pending[chunkSize..], Full)
    case Tick(source) => Flushed(s, source, Ticked)
    case Close(source) =>
      var flushed := Flushed(s, source, Closed);
      flushed.(loops := flushed.loops[source := flushed.loops[source].(open := false)])
  }

  function Exec(s: State, run: seq<Action>, chunkSize: nat): Option<State> {
    if run == [] then Some(s)
    else
      match Exec(s, run[..|run| - 1], chunkSize)
      case None => None
      case Some(before) =>
        var a := run[|run| - 1];
        if Enabled(before, a, chunkSize) then Some(Apply(before, a, chunkSize)) else None
  }

  /** The log's records of one source. */
  function Of(log: seq<Record>, source: Source): seq<Record> {
    if log == [] then []
    else Of(log[..|log| - 1], source) + if log[|log| - 1].source == source then [log[|log| - 1]] else []
  }

  // ---------------------------------------------------------------- what every interleaving keeps

  /** Nothing is lost, doubled or moved to the other stream. */
  ghost predicate Conserved(loops: map<Source, Loop>, log: seq<Record>) {
    forall source :: source in loops ==> Bytes(Of(log, source)) + loops[source].pending == loops[source].read
  }

  /** Record sizes tell why a record was emitted: a full chunk, or less when a tick or the close cut it. */
  ghost predicate WellCut(log: seq<Record>, causes: seq<Cause>, chunkSize: nat) {
    && |causes| == |log|
    && (forall i :: 0 <= i < |log| ==>
          0 < |log[i].data| <= chunkSize && (|log[i].data| == chunkSize <==> causes[i] == Full))
  }

  ghost predicate ClosedAreEmpty(loops: map<Source, Loop>) {
    forall source :: source in loops && !loops[source].open ==> loops[source].pending == []
  }

  ghost predicate OnlyLoops(loops: map<Source, Loop>, log: seq<Record>) {
    forall i :: 0 <= i < |log| ==> log[i].source in loops
  }

  ghost predicate BytesInv(loops: map<Source, Loop>, log: seq<Record>) {
    Conserved(loops, log) && ClosedAreEmpty(loops) && OnlyLoops(loops, log)
  }

  ghost predicate CutInv(log: seq<Record>, size: nat, causes: seq<Cause>, chunkSize: nat) {
    WellCut(log, causes, chunkSize) && IsRun(log, |log|, size)
  }

  lemma BytesSnoc(rows: seq<Record>, r: Record)
    ensures Bytes(rows + [r]) == Bytes(rows) + r.data
  {
    assert (rows + [r])[..|rows|] == rows;
  }

  lemma OfAppend(log: seq<Record>, r: Record, source: Source)
    ensures Of(log + [r], source) == Of(log, source) + if r.source == source then [r] else []
    ensures Bytes(Of(log + [r], source)) == Bytes(Of(log, source)) + if r.source == source then r.data else []
  {
    assert (log + [r])[..|log|] == log;
    if r.source == source {
      BytesSnoc(Of(log, source), r);
    } else {
      assert Of(log, source) + [] == Of(log, source);
    }
  }

  /** Bytes that leave the front of a buffer for the log. */
  lemma EmitConservesOne(log: seq<Record>, r: Record, source: Source, pending: seq<byte>, rest: seq<byte>)
    requires r.source == source ==> pending == r.data + rest
    requires r.source != source ==> pending == rest
    ensures Bytes(Of(log + [r], source)) + rest == Bytes(Of(log, source)) + pending
  {
    OfAppend(log, r, source);
    if r.source == source {
      Regroup(Bytes(Of(log, source)), r.data, rest);
    }
  }

  lemma EmitConserves(loops: map<Source, Loop>, log: seq<Record>, r: Record, loop: Loop)
    requires Conserved(loops, log) && r.source in loops
    requires loop.read == loops[r.source].read && loops[r.source].pending == r.data + loop.pending
    ensures Conserved(loops[r.source := loop], log + [r])
  {
    var updated := loops[r.source := loop];
    forall source | source in updated
      ensures Bytes(Of(log + [r], source)) + updated[source].pending == updated[source].read
    {
      EmitConservesOne(log, r, source, loops[source].pending, updated[source].pending);
      assert Bytes(Of(log, source)) + loops[source].pending == loops[source].read;
    }
  }

  lemma EmitKeepsLoops(loops: map<Source, Loop>, log: seq<Record>, r: Record, loop: Loop)
    requires ClosedAreEmpty(loops) && OnlyLoops(loops, log) && r.source in loops && loop.open
    ensures ClosedAreEmpty(loops[r.source := loop]) && OnlyLoops(loops[r.source := loop], log + [r])
  {
  }

  lemma EmitKeepsBytes(loops: map<Source, Loop>, log: seq<Record>, r: Record, loop: Loop)
    requires BytesInv(loops, log) && r.source in loops && loop.open
    requires loop.read == loops[r.source].read && loops[r.source].pending == r.data + loop.pending
    ensures BytesInv(loops[r.source := loop], log + [r])
  {
    EmitConserves(loops, log, r, loop);
    EmitKeepsLoops(loops, log, r, loop);
  }

  lemma EmitKeepsCuts(log: seq<Record>, size: nat, causes: seq<Cause>, source: Source, data: seq<byte>,
                      cause: Cause, chunkSize: nat)
    requires CutInv(log, size, causes, chunkSize)
    requires 0 < |data| <= chunkSize && (|data| == chunkSize <==> cause == Full)
    ensures CutInv(log + [Record(|log| + 1, size, source, data)], size + |data|, causes + [cause], chunkSize)
  {
    RunAppend(log, |log|, size, source, data);
  }

  lemma ReadConserves(loops: map<Source, Loop>, log: seq<Record>, source: Source, chunk: seq<byte>)
    requires Conserved(loops, log) && source in loops
    ensures var loop := loops[source];
            Conserved(loops[source := loop.(pending := loop.pending + chunk, read := loop.read + chunk)], log)
  {
    Regroup(Bytes(Of(log, source)), loops[source].pending, chunk);
  }

  lemma EmittedKeepsBytes(s: State, source: Source, data: seq<byte>, rest: seq<byte>, cause: Cause)
    requires BytesInv(s.loops, s.log) && source in s.loops && s.loops[source].open
    requires s.loops[source].pending == data + rest
    ensures BytesInv(Emitted(s, source, data, rest, cause).loops, Emitted(s, source, data, rest, cause).log)
  {
    EmitKeepsBytes(s.loops, s.log, Record(|s.log| + 1, s.size, source, data), s.loops[source].(pending := rest));
  }

  lemma FlushKeepsBytes(s: State, source: Source, cause: Cause)
    requires BytesInv(s.loops, s.log) && source in s.loops && s.loops[source].open
    ensures BytesInv(Flushed(s, source, cause).loops, Flushed(s, source, cause).log)
  {
    var pending := s.loops[source].pending;
    if pending != [] {
      assert pending + [] == pending;
      EmittedKeepsBytes(s, source, pending, [], cause);
    }
  }

  lemma FlushEmpties(s: State, source: Source, cause: Cause)
    requires source in s.loops
    ensures var flushed := Flushed(s, source, cause); source in flushed.loops && flushed.loops[source].pending == []
  {
  }

  lemma CloseKeepsBytes(loops: map<Source, Loop>, log: seq<Record>, source: Source)
    requires BytesInv(loops, log) && source in loops && loops[source].pending == []
    ensures BytesInv(loops[source := loops[source].(open := false)], log)
  {
  }

  lemma CutKeepsBytes(s: State, source: Source, chunkSize: nat)
    requires BytesInv(s.loops, s.log) && source in s.loops && s.loops[source].open
    requires chunkSize <= |s.loops[source].pending|
    ensures var pending := s.loops[source].pending;
            var cut := Emitted(s, source, pending[..chunkSize], pending[chunkSize..], Full);
            BytesInv(cut.loops, cut.log)
  {
    var pending := s.loops[source].pending;
    assert pending == pending[..chunkSize] + pending[chunkSize..];
    EmittedKeepsBytes(s, source, pending[..chunkSize], pending[chunkSize..], Full);
  }

  lemma ActionKeepsBytes(s: State, a: Action, chunkSize: nat)
    requires BytesInv(s.loops, s.log) && Enabled(s, a, chunkSize)
    ensures BytesInv(Apply(s, a, chunkSize).loops, Apply(s, a, chunkSize).log)
  {
    match a
    case Read(source, chunk) => ReadConserves(s.loops, s.log, source, chunk);
    case Cut(source) => CutKeepsBytes(s, source, chunkSize);
    case Tick(source) => FlushKeepsBytes(s, source, Ticked);
    case Close(source) =>
      FlushKeepsBytes(s, source, Closed);
      FlushEmpties(s, source, Closed);
      var flushed := Flushed(s, source, Closed);
      CloseKeepsBytes(flushed.loops, flushed.log, source);
  }

  lemma FlushKeepsCuts(s: State, source: Source, cause: Cause, chunkSize: nat)
    requires CutInv(s.log, s.size, s.causes, chunkSize) && source in s.loops
    requires |s.loops[source].pending| < chunkSize && cause != Full
    ensures var s' := Flushed(s, source, cause); CutInv(s'.log, s'.size, s'.causes, chunkSize)
  {
    if s.loops[source].pending != [] {
      EmitKeepsCuts(s.log, s.size, s.causes, source, s.loops[source].pending, cause, chunkSize);
    }
  }

  lemma ActionKeepsCuts(s: State, a: Action, chunkSize: nat)
    requires chunkSize > 0 && CutInv(s.log, s.size, s.causes, chunkSize) && Enabled(s, a, chunkSize)
    ensures var s' := Apply(s, a, chunkSize); CutInv(s'.log, s'.size, s'.causes, chunkSize)
  {
    match a
    case Read(_, _) =>
    case Cut(source) =>
      EmitKeepsCuts(s.log, s.size, s.causes, source, s.loops[source].pending[..chunkSize], Full, chunkSize);
    case Tick(source) => FlushKeepsCuts(s, source, Ticked, chunkSize);
    case Close(source) => FlushKeepsCuts(s, source, Closed, chunkSize);
  }

  lemma InitBytes(sources: set<Source>)
    ensures BytesInv(Init(sources).loops, [])
  {
    assert forall source :: source in sources ==> Bytes(Of([], source)) + [] == [];
  }

  lemma {:induction false} EveryRunConserves(sources: set<Source>, run: seq<Action>, chunkSize: nat)
    requires Exec(Init(sources), run, chunkSize).Some?
    ensures var s := Exec(Init(sources), run, chunkSize).value; BytesInv(s.loops, s.log)
    decreases |run|
  {
    if run == [] {
      InitBytes(sources);
    } else {
      EveryRunConserves(sources, run[..|run| - 1], chunkSize);
      ActionKeepsBytes(Exec(Init(sources), run[..|run| - 1], chunkSize).value, run[|run| - 1], chunkSize);
    }
  }

  lemma {:induction false} EveryRunIsWellCut(sources: set<Source>, run: seq<Action>, chunkSize: nat)
    requires chunkSize > 0 && Exec(Init(sources), run, chunkSize).Some?
    ensures var s := Exec(Init(sources), run, chunkSize).value; CutInv(s.log, s.size, s.causes, chunkSize)
    decreases |run|
  {
    if run != [] {
      EveryRunIsWellCut(sources, run[..|run| - 1], chunkSize);
      ActionKeepsCuts(Exec(Init(sources), run[..|run| - 1], chunkSize).value, run[|run| - 1], chunkSize);
    }
  }

  /** Chunking conserves bytes. In every interleaving of the loops, for every chunk size: the records of
      each source concatenate, with what is still buffered, to the bytes its loop read; each record has 1
      to chunkSize bytes, exactly chunkSize unless a tick or the close emitted it; a closed loop has
      nothing buffered; and the log is one run of consecutive sequences and abutting offsets. */
  lemma {:induction false} ChunkingConservesBytes(sources: set<Source>, run: seq<Action>, chunkSize: nat)
    requires chunkSize > 0 && Exec(Init(sources), run, chunkSize).Some?
    ensures var s := Exec(Init(sources), run, chunkSize).value;
            BytesInv(s.loops, s.log) && CutInv(s.log, s.size, s.causes, chunkSize)
  {
    EveryRunConserves(sources, run, chunkSize);
    EveryRunIsWellCut(sources, run, chunkSize);
  }

  lemma {:induction false} LoopsStay(sources: set<Source>, run: seq<Action>, chunkSize: nat)
    requires Exec(Init(sources), run, chunkSize).Some?
    ensures Exec(Init(sources), run, chunkSize).value.loops.Keys == sources
    decreases |run|
  {
    if run != [] {
      LoopsStay(sources, run[..|run| - 1], chunkSize);
    }
  }

  /** Between actions on its channels a loop buffers less than one chunk: a drain always ends, after
      exactly as many cuts as there are whole chunks. */
  lemma {:induction false} DrainEnds(s: State, source: Source, chunkSize: nat) returns (cuts: seq<Action>)
    requires chunkSize > 0 && source in s.loops && s.loops[source].open
    ensures forall i :: 0 <= i < |cuts| ==> cuts[i] == Cut(source)
    ensures Exec(s, cuts, chunkSize).Some?
    ensures var after := Exec(s, cuts, chunkSize).value;
            && source in after.loops && after.loops[source].open
            && |after.loops[source].pending| < chunkSize
            && after.loops[source].read == s.loops[source].read
            && |s.loops[source].pending| == |cuts| * chunkSize + |after.loops[source].pending|
    decreases |s.loops[source].pending|
  {
    cuts := [];
    assert |cuts| * chunkSize == 0;
    if |s.loops[source].pending| >= chunkSize {
      var next := Apply(s, Cut(source), chunkSize);
      var rest := DrainEnds(next, source, chunkSize);
      ExecFrom(s, Cut(source), rest, chunkSize);
      cuts := [Cut(source)] + rest;
      assert (1 + |rest|) * chunkSize == chunkSize + |rest| * chunkSize;
    }
  }

  /** A tick, and the close, leave nothing buffered: what was there becomes one record at the log's end,
      and nothing is appended when nothing was there. */
  lemma {:induction false} FlushStoresTheBuffer(s: State, a: Action, chunkSize: nat)
    requires Enabled(s, a, chunkSize) && (a.Tick? || a.Close?)
    ensures var s', loop := Apply(s, a, chunkSize), s.loops[a.source];
            && a.source in s'.loops && s'.loops[a.source] == Loop([], loop.read, a.Tick?)
            && (loop.pending == [] ==> s'.log == s.log && s'.size == s.size)
            && (loop.pending != [] ==>
                  && s'.log == s.log + [Record(|s.log| + 1, s.size, a.source, loop.pending)]
                  && s'.size == s.size + |loop.pending|)
            && forall other :: other != a.source && other in s.loops ==>
                 other in s'.loops && s'.loops[other] == s.loops[other]
  {
  }

  lemma {:induction false} ExecFrom(s: State, a: Action, rest: seq<Action>, chunkSize: nat)
    requires Enabled(s, a, chunkSize)
    ensures Exec(s, [a] + rest, chunkSize) == Exec(Apply(s, a, chunkSize), rest, chunkSize)
    decreases |rest|
  {
    if rest == [] {
      assert [a] + rest == [a];
      assert [a][..0] == [];
    } else {
      ExecFrom(s, a, rest[..|rest| - 1], chunkSize);
      assert ([a] + rest)[..|rest|] == [a] + rest[..|rest| - 1];
    }
  }

  // ---------------------------------------------------------------- one loop, as the daemon runs it

  datatype Event = Chunk(data: seq<byte>) | TickerFired | ReaderClosed

  /** The payloads of the records, in order. */
  function Payloads(log: seq<Record>): (r: seq<seq<byte>>)
    ensures |r| == |log|
    ensures forall i :: 0 <= i < |log| ==> r[i] == log[i].data
  {
    if log == [] then [] else Payloads(log[..|log| - 1]) + [log[|log| - 1].data]
  }

  function BytesRead(events: seq<Event>): seq<byte> {
    if events == [] then []
    else BytesRead(events[..|events| - 1]) + if events[|events| - 1].Chunk? then events[|events| - 1].data else []
  }

  /** The whole chunks at the front of a buffer, and what is left after them. */
  function Cuts(pending: seq<byte>, chunkSize: nat): seq<seq<byte>>
    requires chunkSize > 0
  {
    if |pending| < chunkSize then [] else [pending[..chunkSize]] + Cuts(pending[chunkSize..], chunkSize)
  }

  function Remainder(pending: seq<byte>, chunkSize: nat): seq<byte>
    requires chunkSize > 0
  {
    if |pending| < chunkSize then pending else Remainder(pending[chunkSize..], chunkSize)
  }

  datatype Progress = Progress(appended: seq<seq<byte>>, pending: seq<byte>)

  function Handle(p: Progress, e: Event, chunkSize: nat): Progress
    requires chunkSize > 0
  {
    match e
    case Chunk(data) =>
      Progress(p.appended + Cuts(p.pending + data, chunkSize), Remainder(p.pending + data, chunkSize))
    case TickerFired | ReaderClosed => Progress(if p.pending == [] then p.appended else p.appended + [p.pending], [])
  }

  /** Exactly what is appended, event by event. */
  function HandleAll(events: seq<Event>, chunkSize: nat): Progress
    requires chunkSize > 0
  {
    if events == [] then Progress([], [])
    else Handle(HandleAll(events[..|events| - 1], chunkSize), events[|events| - 1], chunkSize)
  }

  lemma {:induction false} CutsConcat(a: seq<byte>, b: seq<byte>, chunkSize: nat)
    requires chunkSize > 0
    ensures Cuts(a + b, chunkSize) == Cuts(a, chunkSize) + Cuts(Remainder(a, chunkSize) + b, chunkSize)
    ensures Remainder(a + b, chunkSize) == Remainder(Remainder(a, chunkSize) + b, chunkSize)
    decreases |a|
  {
    if |a| >= chunkSize {
      CutsConcat(a[chunkSize..], b, chunkSize);
      assert (a + b)[..chunkSize] == a[..chunkSize] && (a + b)[chunkSize..] == a[chunkSize..] + b;
    }
  }

  /** How the stream happens to be cut into reads does not show: two reads in a row leave the same
      records and the same buffer as one read of both. */
  lemma {:induction false} ReadBoundariesDoNotShow(p: Progress, a: seq<byte>, b: seq<byte>, chunkSize: nat)
    requires chunkSize > 0
    ensures Handle(Handle(p, Chunk(a), chunkSize), Chunk(b), chunkSize) == Handle(p, Chunk(a + b), chunkSize)
  {
    CutsConcat(p.pending + a, b, chunkSize);
    Regroup(p.pending, a, b);
    Regroup(p.appended, Cuts(p.pending + a, chunkSize), Cuts(Remainder(p.pending + a, chunkSize) + b, chunkSize));
  }

  ghost predicate Matches(s: State, source: Source, pending: seq<byte>, appended: seq<seq<byte>>) {
    s.loops.Keys == {source} && s.loops[source].pending == pending && Payloads(s.log) == appended
  }

  lemma ExecStep(s: State, run: seq<Action>, m: State, a: Action, chunkSize: nat)
    requires Exec(s, run, chunkSize) == Some(m) && Enabled(m, a, chunkSize)
    ensures Exec(s, run + [a], chunkSize) == Some(Apply(m, a, chunkSize))
  {
    assert (run + [a])[..|run|] == run;
  }

  class CaptureLoop {
    const source: Source
    const chunkSize: nat
    var pending: seq<byte>
    var appended: seq<seq<byte>>
    ghost var run: seq<Action>
    ghost var state: State

    /** The loop's own history is a run of the machine above with this loop alone. */
    ghost predicate Valid()
      reads this
    {
      && chunkSize > 0
      && Exec(Init({source}), run, chunkSize) == Some(state)
      && Matches(state, source, pending, appended)
    }

    constructor (source: Source, chunkSize: nat)
      requires chunkSize > 0
      ensures Valid() && this.source == source && this.chunkSize == chunkSize
      ensures pending == [] && appended == [] && run == [] && state.loops[source].open
    {
      this.source, this.chunkSize := source, chunkSize;
      pending, appended, run, state := [], [], [], Init({source});
    }

    ghost method Note(a: Action)
      requires chunkSize > 0 && Exec(Init({source}), run, chunkSize) == Some(state) && Enabled(state, a, chunkSize)
      modifies this`run, this`state
      ensures Exec(Init({source}), run, chunkSize) == Some(state)
      ensures run == old(run) + [a] && state == Apply(old(state), a, chunkSize)
    {
      ExecStep(Init({source}), run, state, a, chunkSize);
      run, state := run + [a], Apply(state, a, chunkSize);
    }

    method AppendOutput(data: seq<byte>)
      modifies this`appended
      ensures appended == if data == [] then old(appended) else old(appended) + [data]
    {
      if data == [] {
        return;
      }
      appended := appended + [data];
    }

    method Flush()
      modifies this`pending, this`appended
      ensures pending == []
      ensures appended == if old(pending) == [] then old(appended) else old(appended) + [old(pending)]
      ensures Joined(appended) == Joined(old(appended)) + old(pending)
    {
      JoinedSnoc(appended, pending);
      if pending == [] {
        return;
      }
      var data := pending;
      pending := [];
      AppendOutput(data);
    }

    /** A chunk arrives: buffer it, then append every whole chunk the buffer holds. */
    method OnChunk(chunk: seq<byte>)
      requires Valid() && state.loops[source].open && |pending| < chunkSize
      modifies this
      ensures Valid() && state.loops[source].open && |pending| < chunkSize
      ensures Progress(appended, pending) == Handle(old(Progress(appended, pending)), Chunk(chunk), chunkSize)
      ensures old(appended) <= appended && forall i :: |old(appended)| <= i < |appended| ==> |appended[i]| == chunkSize
      ensures state.loops[source].read == old(state.loops[source].read) + chunk
    {
      Note(Action.Read(source, chunk));
      pending := pending + chunk;
      while |pending| >= chunkSize
        invariant Valid() && state.loops[source].open
        invariant state.loops[source].read == old(state.loops[source].read) + chunk
        invariant appended + Cuts(pending, chunkSize) == old(appended) + Cuts(old(pending) + chunk, chunkSize)
        invariant Remainder(pending, chunkSize) == Remainder(old(pending) + chunk, chunkSize)
        invariant old(appended) <= appended
        invariant forall i :: |old(appended)| <= i < |appended| ==> |appended[i]| == chunkSize
        decreases |pending|
      {
        Regroup(appended, [pending[..chunkSize]], Cuts(pending[chunkSize..], chunkSize));
        CutOne();
      }
    }

    /** One turn of the drain. */
    method CutOne()
      requires Valid() && state.loops[source].open && |pending| >= chunkSize
      modifies this
      ensures Valid() && state.loops[source].open && state.loops[source].read == old(state.loops[source].read)
      ensures appended == old(appended) + [old(pending[..chunkSize])] && pending == old(pending[chunkSize..])
    {
      var data := pending[..chunkSize];
      pending := pending[chunkSize..];
      Note(Cut(source));
      AppendOutput(data);
    }

    method OnTick()
      requires Valid() && state.loops[source].open && |pending| < chunkSize
      modifies this
      ensures Valid() && state.loops[source].open && |pending| < chunkSize
      ensures Progress(appended, pending) == Handle(old(Progress(appended, pending)), TickerFired, chunkSize)
      ensures pending == [] && Joined(appended) == Joined(old(appended)) + old(pending)
      ensures state.loops[source].read == old(state.loops[source].read)
    {
      Note(Tick(source));
      Flush();
    }

    method OnClose()
      requires Valid() && state.loops[source].open && |pending| < chunkSize
      modifies this
      ensures Valid() && !state.loops[source].open
      ensures Progress(appended, pending) == Handle(old(Progress(appended, pending)), ReaderClosed, chunkSize)
      ensures pending == [] && Joined(appended) == Joined(old(appended)) + old(pending)
      ensures state.loops[source].read == old(state.loops[source].read)
    {
      Note(Close(source));
      Flush();
    }

    /** One turn of the select loop; false when the loop is over. */
    method OnEvent(e: Event) returns (more: bool)
      requires Valid() && state.loops[source].open && |pending| < chunkSize
      modifies this
      ensures Valid() && |pending| < chunkSize && more == state.loops[source].open == (e != ReaderClosed)
      ensures Progress(appended, pending) == Handle(old(Progress(appended, pending)), e, chunkSize)
      ensures state.loops[source].read == old(state.loops[source].read) + if e.Chunk? then e.data else []
    {
      match e
      case Chunk(data) =>
        OnChunk(data);
        more := true;
      case TickerFired =>
        OnTick();
        more := true;
      case ReaderClosed =>
        OnClose();
        more := false;
    }

    /** The select loop over the events that come, until the reader closes. */
    method CaptureOutput(events: seq<Event>) returns (seen: nat)
      requires Valid() && state.loops[source].open && state.loops[source].read == []
      requires pending == [] && appended == []
      modifies this
      ensures Valid() && seen <= |events|
      ensures Progress(appended, pending) == HandleAll(events[..seen], chunkSize)
      ensures Joined(appended) + pending == BytesRead(events[..seen])
      ensures |pending| < chunkSize
      ensures forall i :: 0 <= i < |appended| ==> 0 < |appended[i]| <= chunkSize
      ensures if ReaderClosed in events
              then 0 < seen && events[seen - 1] == ReaderClosed && ReaderClosed !in events[..seen - 1]
              else seen == |events|
    {
      seen := 0;
      var more := true;
      while more && seen < |events|
        invariant 0 <= seen <= |events|
        invariant Valid() && more == state.loops[source].open && |pending| < chunkSize
        invariant Progress(appended, pending) == HandleAll(events[..seen], chunkSize)
        invariant state.loops[source].read == BytesRead(events[..seen])
        invariant if more then ReaderClosed !in events[..seen]
                  else 0 < seen && events[seen - 1] == ReaderClosed && ReaderClosed !in events[..seen - 1]
      {
        OneMoreEvent(events, seen, chunkSize);
        more := OnEvent(events[seen]);
        seen := seen + 1;
      }
      Conclude(source, run, chunkSize, state, pending, appended);
    }
  }

  lemma OneMoreEvent(events: seq<Event>, seen: nat, chunkSize: nat)
    requires seen < |events| && chunkSize > 0
    ensures HandleAll(events[..seen + 1], chunkSize) ==
            Handle(HandleAll(events[..seen], chunkSize), events[seen], chunkSize)
    ensures BytesRead(events[..seen + 1]) ==
            BytesRead(events[..seen]) + if events[seen].Chunk? then events[seen].data else []
    ensures ReaderClosed in events[..seen + 1] <==> ReaderClosed in events[..seen] || events[seen] == ReaderClosed
  {
    assert events[..seen + 1] == events[..seen] + [events[seen]];
    assert events[..seen + 1][..seen] == events[..seen];
  }

  function Joined(parts: seq<seq<byte>>): seq<byte> {
    if parts == [] then [] else Joined(parts[..|parts| - 1]) + parts[|parts| - 1]
  }

  lemma JoinedSnoc(parts: seq<seq<byte>>, last: seq<byte>)
    ensures Joined(parts + [last]) == Joined(parts) + last
  {
    assert (parts + [last])[..|parts|] == parts;
  }

  lemma {:induction false} JoinedPayloads(log: seq<Record>)
    ensures Joined(Payloads(log)) == Bytes(log)
  {
    if log != [] {
      JoinedPayloads(log[..|log| - 1]);
      assert Payloads(log)[..|log| - 1] == Payloads(log[..|log| - 1]);
    }
  }

  lemma {:induction false} OfOnlySource(log: seq<Record>, source: Source)
    requires forall i :: 0 <= i < |log| ==> log[i].source == source
    ensures Of(log, source) == log
  {
    if log != [] {
      OfOnlySource(log[..|log| - 1], source);
    }
  }

  lemma Conclude(source: Source, run: seq<Action>, chunkSize: nat, s: State, pending: seq<byte>,
                 appended: seq<seq<byte>>)
    requires chunkSize > 0 && Exec(Init({source}), run, chunkSize) == Some(s)
    requires Matches(s, source, pending, appended)
    ensures Joined(appended) + pending == s.loops[source].read
    ensures forall i :: 0 <= i < |appended| ==> 0 < |appended[i]| <= chunkSize
  {
    ChunkingConservesBytes({source}, run, chunkSize);
    LoopsStay({source}, run, chunkSize);
    ConcludeBytes(source, s.loops, s.log);
    ConcludeSizes(s.log, s.causes, chunkSize);
  }

  lemma ConcludeBytes(source: Source, loops: map<Source, Loop>, log: seq<Record>)
    requires BytesInv(loops, log) && loops.Keys == {source}
    ensures Joined(Payloads(log)) + loops[source].pending == loops[source].read
  {
    OfOnlySource(log, source);
    JoinedPayloads(log);
  }

  lemma ConcludeSizes(log: seq<Record>, causes: seq<Cause>, chunkSize: nat)
    requires WellCut(log, causes, chunkSize)
    ensures forall i :: 0 <= i < |log| ==> 0 < |Payloads(log)[i]| <= chunkSize
  {
  }

  // ---------------------------------------------------------------- the client splits the streams again

  /** A frame of the read-output stream; the last one carries no data and no source. */
  datatype Frame = Frame(eof: bool, source: Option<Source>, data: seq<byte>)

  function DataFrames(rows: seq<Record>): seq<Frame> {
    if rows == [] then []
    else DataFrames(rows[..|rows| - 1]) + [Frame(false, Some(rows[|rows| - 1].source), rows[|rows| - 1].data)]
  }

  function FramesOf(rows: seq<Record>): seq<Frame> {
    DataFrames(rows) + [Frame(true, None, [])]
  }

  /** The bytes of the frames that are, or are not, marked as standard error. */
  function Side(frames: seq<Frame>, isError: bool): seq<byte> {
    if frames == [] then []
    else
      var last := frames[|frames| - 1];
      Side(frames[..|frames| - 1], isError) +
      if !last.eof && (last.source == Some(Stderr)) == isError then last.data else []
  }

  method ExecCommand(output: seq<Frame>) returns (stdout: seq<byte>, stderr: seq<byte>)
    ensures stdout == Side(output, false) && stderr == Side(output, true)
  {
    var stdoutParts: seq<seq<byte>>, stderrParts: seq<seq<byte>> := [], [];
    var n := 0;
    while n < |output|
      invariant 0 <= n <= |output|
      invariant Joined(stdoutParts) == Side(output[..n], false)
      invariant Joined(stderrParts) == Side(output[..n], true)
    {
      var chunk := output[n];
      assert output[..n + 1][..n] == output[..n];
      n := n + 1;
      if chunk.eof {
        continue;
      }
      if chunk.source == Some(Stderr) {
        assert (stderrParts + [chunk.data])[..|stderrParts|] == stderrParts;
        stderrParts := stderrParts + [chunk.data];
      } else {
        assert (stdoutParts + [chunk.data])[..|stdoutParts|] == stdoutParts;
        stdoutParts := stdoutParts + [chunk.data];
      }
    }
    assert output[..n] == output;
    stdout, stderr := Joined(stdoutParts), Joined(stderrParts);
  }

  lemma SideSnoc(frames: seq<Frame>, last: Frame, isError: bool)
    ensures Side(frames + [last], isError) ==
            Side(frames, isError) + if !last.eof && (last.source == Some(Stderr)) == isError then last.data else []
  {
    assert (frames + [last])[..|frames|] == frames;
  }

  lemma {:induction false} SidesOfRecords(rows: seq<Record>)
    requires forall i :: 0 <= i < |rows| ==> rows[i].source in {Stdout, Stderr}
    ensures Side(DataFrames(rows), true) == Bytes(Of(rows, Stderr))
    ensures Side(DataFrames(rows), false) == Bytes(Of(rows, Stdout))
  {
    if rows != [] {
      var init, last := rows[..|rows| - 1], rows[|rows| - 1];
      SidesOfRecords(init);
      assert rows == init + [last];
      OfAppend(init, last, Stderr);
      OfAppend(init, last, Stdout);
      SideSnoc(DataFrames(init), Frame(false, Some(last.source), last.data), true);
      SideSnoc(DataFrames(init), Frame(false, Some(last.source), last.data), false);
    }
  }

  /** Streams separate again: in every interleaving of the two capture loops, at every moment, splitting
      the log by source gives for each stream exactly the bytes its loop has read so far, short of what
      the loop still buffers; once the loop has seen its stream close it buffers nothing. */
  lemma {:induction false} StreamsSeparateAgain(run: seq<Action>, chunkSize: nat)
    requires chunkSize > 0 && Exec(Init({Stdout, Stderr}), run, chunkSize).Some?
    ensures var s := Exec(Init({Stdout, Stderr}), run, chunkSize).value;
            && Stdout in s.loops && Stderr in s.loops
            && var out, err := s.loops[Stdout], s.loops[Stderr];
            && Side(FramesOf(s.log), false) + out.pending == out.read
            && Side(FramesOf(s.log), true) + err.pending == err.read
            && (!out.open ==> out.pending == []) && (!err.open ==> err.pending == [])
  {
    EveryRunConserves({Stdout, Stderr}, run, chunkSize);
    LoopsStay({Stdout, Stderr}, run, chunkSize);
    SidesOfLog(Exec(Init({Stdout, Stderr}), run, chunkSize).value.log);
  }

  /** The client that splits `m`'s log now has all that the loop of `source` will ever have read: however
      the loops go on, the stream comes out as the bytes the client holds. */
  ghost predicate HasWholeStream(m: State, source: Source, chunkSize: nat) {
    forall rest, s :: Exec(m, rest, chunkSize) == Some(s) ==>
      source in s.loops && s.loops[source].read == Side(FramesOf(m.log), source == Stderr)
  }

  /** When a client has a whole stream: exactly when its loop has seen it close. An empty buffer is not
      enough, for an open loop has always a way to go on to a byte that the client lacks. */
  lemma {:induction false} StreamIsWholeIffClosed(run: seq<Action>, m: State, source: Source, chunkSize: nat)
    requires chunkSize > 0 && Exec(Init({Stdout, Stderr}), run, chunkSize) == Some(m) && source in m.loops
    ensures HasWholeStream(m, source, chunkSize) <==> !m.loops[source].open
  {
    StreamsSeparateAgain(run, chunkSize);
    LoopsStay({Stdout, Stderr}, run, chunkSize);
    var got := Side(FramesOf(m.log), source == Stderr);
    assert got + m.loops[source].pending == m.loops[source].read;
    if m.loops[source].open {
      var rest, s := ReadsAnother(m, source, chunkSize);
      assert |s.loops[source].read| > |got|;
    } else {
      assert got + [] == got;
      forall rest, s | Exec(m, rest, chunkSize) == Some(s)
        ensures source in s.loops && s.loops[source].read == got
      {
        ClosedLoopStays(m, source, rest, chunkSize);
      }
    }
  }

  /** An open loop drains what it must and reads one byte more. */
  lemma ReadsAnother(m: State, source: Source, chunkSize: nat) returns (rest: seq<Action>, s: State)
    requires chunkSize > 0 && source in m.loops && m.loops[source].open
    ensures Exec(m, rest, chunkSize) == Some(s)
    ensures source in s.loops && s.loops[source].read == m.loops[source].read + [0]
  {
    var cuts := DrainEnds(m, source, chunkSize);
    var drained := Exec(m, cuts, chunkSize).value;
    ExecStep(m, cuts, drained, Action.Read(source, [0]), chunkSize);
    rest, s := cuts + [Action.Read(source, [0])], Apply(drained, Action.Read(source, [0]), chunkSize);
  }

  lemma {:induction false} ClosedLoopStays(m: State, source: Source, rest: seq<Action>, chunkSize: nat)
    requires Exec(m, rest, chunkSize).Some? && source in m.loops && !m.loops[source].open
    ensures var s := Exec(m, rest, chunkSize).value; source in s.loops && s.loops[source] == m.loops[source]
    decreases |rest|
  {
    if rest != [] {
      ClosedLoopStays(m, source, rest[..|rest| - 1], chunkSize);
    }
  }

  lemma {:induction false} SidesOfLog(log: seq<Record>)
    requires forall i :: 0 <= i < |log| ==> log[i].source in {Stdout, Stderr}
    ensures Side(FramesOf(log), false) == Bytes(Of(log, Stdout))
    ensures Side(FramesOf(log), true) == Bytes(Of(log, Stderr))
  {
    SidesOfRecords(log);
    SideSnoc(DataFrames(log), Frame(true, None, []), false);
    SideSnoc(DataFrames(log), Frame(true, None, []), true);
  }

  /** The split keeps every record and its place: a record of the log stands on its source's side after
      exactly the records of that source that came before it, and the two sides hold nothing else. */
  lemma {:induction false} SplitKeepsOrder(log: seq<Record>, i: nat)
    requires i < |log|
    ensures var side, before := Of(log, log[i].source), Of(log[..i], log[i].source);
            before <= side && |before| < |side| && side[|before|] == log[i]
    decreases |log|
  {
    var init, last := log[..|log| - 1], log[|log| - 1];
    if i < |init| {
      SplitKeepsOrder(init, i);
      assert init[..i] == log[..i];
    } else {
      assert log[..i] == init;
    }
  }

  lemma {:induction false} SplitLosesNoRecord(log: seq<Record>)
    requires forall i :: 0 <= i < |log| ==> log[i].source in {Stdout, Stderr}
    ensures |Of(log, Stdout)| + |Of(log, Stderr)| == |log|
    ensures forall r :: r in log <==> r in Of(log, Stdout) || r in Of(log, Stderr)
    ensures forall i :: 0 <= i < |log| ==>
              var side, before := Of(log, log[i].source), Of(log[..i], log[i].source);
              |before| < |side| && side[|before|] == log[i]
  {
    SidesHoldAll(log);
    forall i | 0 <= i < |log|
      ensures var side, before := Of(log, log[i].source), Of(log[..i], log[i].source);
              |before| < |side| && side[|before|] == log[i]
    {
      SplitKeepsOrder(log, i);
    }
  }

  lemma {:induction false} SidesHoldAll(log: seq<Record>)
    requires forall i :: 0 <= i < |log| ==> log[i].source in {Stdout, Stderr}
    ensures |Of(log, Stdout)| + |Of(log, Stderr)| == |log|
    ensures forall r :: r in log <==> r in Of(log, Stdout) || r in Of(log, Stderr)
  {
    if log != [] {
      var init, last := log[..|log| - 1], log[|log| - 1];
      SidesHoldAll(init);
      assert log == init + [last];
    }
  }
}
