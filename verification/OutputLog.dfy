/** The persisted output of one job: consecutive sequence numbers, abutting byte offsets. */
module OutputLog {
  import opened Wrappers

  newtype byte = x: int | 0 <= x < 256

  datatype Source = Stdout | Stderr | System

  /** One row of `job_output`, without its timestamp. */
  datatype Record = Record(sequence: nat, offset: nat, source: Source, data: seq<byte>)

  /** The offset one past the last byte of a record. */
  function End(r: Record): nat {
    r.offset + |r.data|
  }

  /** The bytes of the records, in row order. */
  function Bytes(rows: seq<Record>): seq<byte> {
    if rows == [] then [] else Bytes(rows[..|rows| - 1]) + rows[|rows| - 1].data
  }

  /** `rows` are consecutive and abutting, and stop at sequence `lastSequence` and offset `size`. */
  ghost predicate IsRun(rows: seq<Record>, lastSequence: nat, size: nat) {
    && |rows| <= lastSequence
    && (forall i :: 0 <= i < |rows| ==> rows[i].sequence == lastSequence - |rows| + i + 1)
    && (forall i, j :: 0 <= i && j == i + 1 < |rows| ==> rows[j].offset == End(rows[i]))
    && (|rows| > 0 ==> End(rows[|rows| - 1]) == size)
  }

  ghost predicate NoEmptyRecord(rows: seq<Record>) {
    forall i :: 0 <= i < |rows| ==> |rows[i].data| > 0
  }

  /** The rows that a replay from byte offset `from` selects. */
  function FromOffset(rows: seq<Record>, from: int): (r: seq<Record>)
    ensures |r| <= |rows|
  {
    if rows == [] then []
    else
      var init, last := rows[..|rows| - 1], rows[|rows| - 1];
      FromOffset(init, from) + if last.offset >= from then [last] else []
  }

  /** How many leading rows a replay from `from` skips. */
  function Skipped(rows: seq<Record>, from: int): (k: nat)
    ensures k <= |rows|
    ensures forall i :: 0 <= i < k ==> rows[i].offset < from
    ensures k < |rows| ==> rows[k].offset >= from
  {
    if rows == [] || rows[0].offset >= from then 0 else 1 + Skipped(rows[1..], from)
  }

  // ---------------------------------------------------------------- structure of a run

  lemma {:induction false} RunOffsetsGrow(rows: seq<Record>, lastSequence: nat, size: nat, i: nat, j: nat)
    requires IsRun(rows, lastSequence, size) && i < j < |rows|
    ensures End(rows[i]) <= rows[j].offset
    decreases j
  {
    if i + 1 < j {
      RunOffsetsGrow(rows, lastSequence, size, i, j - 1);
    }
  }

  /** Appending the record the store builds keeps the run. */
  lemma RunAppend(rows: seq<Record>, lastSequence: nat, size: nat, source: Source, data: seq<byte>)
    requires IsRun(rows, lastSequence, size)
    ensures IsRun(rows + [Record(lastSequence + 1, size, source, data)], lastSequence + 1, size + |data|)
  {
  }

  lemma RunSuffix(rows: seq<Record>, lastSequence: nat, size: nat, k: nat)
    requires IsRun(rows, lastSequence, size) && k <= |rows|
    ensures IsRun(rows[k..], lastSequence, size)
  {
  }

  lemma RunPrefix(rows: seq<Record>, lastSequence: nat, size: nat, k: nat)
    requires IsRun(rows, lastSequence, size) && 0 < k <= |rows|
    ensures IsRun(rows[..k], rows[k - 1].sequence, End(rows[k - 1]))
  {
  }

  lemma {:induction false} BytesConcat(a: seq<Record>, b: seq<Record>)
    ensures Bytes(a + b) == Bytes(a) + Bytes(b)
    decreases |b|
  {
    if b == [] {
      assert a + b == a;
    } else {
      var init, last := b[..|b| - 1], b[|b| - 1];
      BytesConcat(a, init);
      assert (a + b)[..|a + b| - 1] == a + init;
      assert (a + b)[|a + b| - 1] == last;
      Regroup(Bytes(a), Bytes(init), last.data);
    }
  }

  lemma BytesSplit(rows: seq<Record>, k: nat)
    requires k <= |rows|
    ensures Bytes(rows) == Bytes(rows[..k]) + Bytes(rows[k..])
  {
    BytesConcat(rows[..k], rows[k..]);
    assert rows == rows[..k] + rows[k..];
  }

  /** A non-empty run holds exactly the bytes between its first offset and its end. */
  lemma {:induction false} RunLength(rows: seq<Record>, lastSequence: nat, size: nat)
    requires IsRun(rows, lastSequence, size) && |rows| > 0
    ensures |Bytes(rows)| == size - rows[0].offset
  {
    var init, last := rows[..|rows| - 1], rows[|rows| - 1];
    if |rows| > 1 {
      RunPrefix(rows, lastSequence, size, |rows| - 1);
      RunLength(init, lastSequence - 1, last.offset);
    } else {
      assert Bytes(init) == [];
    }
  }

  // ---------------------------------------------------------------- replay from an offset

  lemma {:induction false} FromOffsetNone(rows: seq<Record>, from: int)
    requires forall i :: 0 <= i < |rows| ==> rows[i].offset < from
    ensures FromOffset(rows, from) == []
  {
    if rows != [] {
      FromOffsetNone(rows[..|rows| - 1], from);
    }
  }

  lemma {:induction false} FromOffsetMember(rows: seq<Record>, from: int, r: Record)
    ensures r in FromOffset(rows, from) <==> r in rows && r.offset >= from
  {
    if rows != [] {
      FromOffsetMember(rows[..|rows| - 1], from, r);
      assert rows == rows[..|rows| - 1] + [rows[|rows| - 1]];
    }
  }

  lemma {:induction false} FromOffsetSplit(rows: seq<Record>, from: int, k: nat)
    requires k <= |rows|
    requires forall i :: 0 <= i < k ==> rows[i].offset < from
    requires forall i :: k <= i < |rows| ==> rows[i].offset >= from
    ensures FromOffset(rows, from) == rows[k..]
    decreases |rows|
  {
    if k == |rows| {
      FromOffsetNone(rows, from);
      assert rows[k..] == [];
    } else {
      var init, last := rows[..|rows| - 1], rows[|rows| - 1];
      FromOffsetSplit(init, from, k);
      assert last == rows[k..][|rows| - 1 - k];
      assert rows[k..] == init[k..] + [last];
    }
  }

  /** A replay of a run is a suffix of it: it starts at the first record at or past the offset. */
  lemma {:induction false} FromOffsetIsSuffix(rows: seq<Record>, lastSequence: nat, size: nat, from: int)
    requires IsRun(rows, lastSequence, size)
    ensures FromOffset(rows, from) == rows[Skipped(rows, from)..]
  {
    var k := Skipped(rows, from);
    forall i | k <= i < |rows| ensures rows[i].offset >= from {
      if k < i {
        RunOffsetsGrow(rows, lastSequence, size, k, i);
      }
    }
    FromOffsetSplit(rows, from, k);
  }

  /** `from` is the offset of some record, or the end of the run. */
  ghost predicate IsBoundary(rows: seq<Record>, size: nat, from: int) {
    from == size || exists i :: 0 <= i < |rows| && rows[i].offset == from
  }

  lemma SkippedIsExactIffBoundary(rows: seq<Record>, lastSequence: nat, size: nat, from: nat)
    requires IsRun(rows, lastSequence, size) && |rows| > 0
    requires rows[0].offset <= from <= size
    ensures var k := Skipped(rows, from);
            IsBoundary(rows, size, from) <==> (if k < |rows| then rows[k].offset else size) == from
  {
    var k := Skipped(rows, from);
    if k < |rows| && rows[k].offset != from {
      forall i | 0 <= i < |rows| ensures rows[i].offset != from {
        if k < i {
          RunOffsetsGrow(rows, lastSequence, size, k, i);
        }
      }
      if k < |rows| - 1 {
        RunOffsetsGrow(rows, lastSequence, size, k, |rows| - 1);
      }
    }
  }

  /** A replay yields exactly the bytes at or past the offset if and only if the offset is a record
      boundary: from inside a record, that record's tail is skipped. */
  lemma {:induction false} ReplayIsByteSuffixIffBoundary(rows: seq<Record>, lastSequence: nat, size: nat, from: nat)
    requires IsRun(rows, lastSequence, size) && |rows| > 0
    requires rows[0].offset <= from <= size
    ensures |Bytes(rows)| == size - rows[0].offset
    ensures Bytes(FromOffset(rows, from)) == Bytes(rows)[from - rows[0].offset..] <==> IsBoundary(rows, size, from)
  {
    RunLength(rows, lastSequence, size);
    FromOffsetIsSuffix(rows, lastSequence, size, from);
    SkippedIsExactIffBoundary(rows, lastSequence, size, from);
    var k := Skipped(rows, from);
    BytesSplit(rows, k);
    if k < |rows| {
      RunSuffix(rows, lastSequence, size, k);
      RunLength(rows[k..], lastSequence, size);
    } else {
      assert rows[k..] == [];
    }
  }

  // ---------------------------------------------------------------- resumable reading

  /** What may happen to a log and one reader: an append, or a read whose client stops after at
      most `limit` records. Each read starts at the end of the last record received. */
  datatype LogEvent = Append(source: Source, data: seq<byte>) | Read(limit: nat)

  datatype Reading = Reading(log: seq<Record>, size: nat, received: seq<Record>)

  function ResumePoint(received: seq<Record>): nat {
    if received == [] then 0 else End(received[|received| - 1])
  }

  function Step(s: Reading, e: LogEvent): Reading {
    match e
    case Append(source, data) =>
      s.(log := s.log + [Record(|s.log| + 1, s.size, source, data)], size := s.size + |data|)
    case Read(limit) =>
      var replay := FromOffset(s.log, ResumePoint(s.received));
      s.(received := s.received + replay[..if limit < |replay| then limit else |replay|])
  }

  function Play(events: seq<LogEvent>): Reading {
    if events == [] then Reading([], 0, [])
    else Step(Play(events[..|events| - 1]), events[|events| - 1])
  }

  ghost predicate NoEmptyAppend(events: seq<LogEvent>) {
    forall i :: 0 <= i < |events| && events[i].Append? ==> |events[i].data| > 0
  }

  ghost predicate GoodReading(s: Reading) {
    && IsRun(s.log, |s.log|, s.size)
    && NoEmptyRecord(s.log)
    && s.received <= s.log
  }

  lemma ResumeAfterPrefix(s: Reading)
    requires GoodReading(s)
    ensures FromOffset(s.log, ResumePoint(s.received)) == s.log[|s.received|..]
  {
    var k := |s.received|;
    var from := ResumePoint(s.received);
    if k > 0 {
      assert from == End(s.log[k - 1]);
      forall i | 0 <= i < k ensures s.log[i].offset < from {
        if i < k - 1 {
          RunOffsetsGrow(s.log, |s.log|, s.size, i, k - 1);
        }
      }
      forall i | k <= i < |s.log| ensures s.log[i].offset >= from {
        RunOffsetsGrow(s.log, |s.log|, s.size, k - 1, i);
      }
    }
    FromOffsetSplit(s.log, from, k);
  }

  lemma StepKeepsGoodReading(s: Reading, e: LogEvent)
    requires GoodReading(s)
    requires e.Append? ==> |e.data| > 0
    ensures GoodReading(Step(s, e))
    ensures e.Read? && e.limit >= |s.log| ==> Step(s, e).received == s.log
  {
    match e
    case Append(source, data) =>
      RunAppend(s.log, |s.log|, s.size, source, data);
    case Read(limit) =>
      ResumeAfterPrefix(s);
      PrefixGrows(s.received, s.log, if limit < |s.log| - |s.received| then limit else |s.log| - |s.received|);
  }

  lemma PrefixGrows(received: seq<Record>, log: seq<Record>, n: nat)
    requires received <= log && |received| + n <= |log|
    ensures received + log[|received|..][..n] == log[..|received| + n]
  {
  }

  /** For every interleaving of appends with resumed, possibly cut-off reads, the records received are
      a prefix of the log; a read that is not cut off brings the reader up to date. */
  lemma {:induction false} ResumedReadsArePrefix(events: seq<LogEvent>)
    requires NoEmptyAppend(events)
    ensures GoodReading(Play(events))
    ensures var s := Play(events);
            forall limit :: limit >= |s.log| ==> Step(s, Read(limit)).received == s.log
    decreases |events|
  {
    if events != [] {
      ResumedReadsArePrefix(events[..|events| - 1]);
      StepKeepsGoodReading(Play(events[..|events| - 1]), events[|events| - 1]);
    }
    var s := Play(events);
    forall limit | limit >= |s.log| ensures Step(s, Read(limit)).received == s.log {
      StepKeepsGoodReading(s, Read(limit));
    }
  }

  /** The same law in bytes: what the reader holds is a prefix of the log's bytes. */
  lemma {:induction false} ResumedBytesArePrefix(events: seq<LogEvent>)
    requires NoEmptyAppend(events)
    ensures Bytes(Play(events).received) <= Bytes(Play(events).log)
  {
    ResumedReadsArePrefix(events);
    var s := Play(events);
    BytesSplit(s.log, |s.received|);
    assert s.received == s.log[..|s.received|];
  }
}
