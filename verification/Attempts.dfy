/** The append-only table of recovery attempts. A row is written at the start of
    an attempt and completed once by its outcome. */
module Attempts {
  import opened Text

  const I64_MAX := 0x7FFF_FFFF_FFFF_FFFF

  datatype Snapshot = Snapshot(retryCount: nat, loopCount: nat, edgeLoopCounts: map<string, nat>,
                               context: map<string, string>, status: string)

  /** Canonical JSON and digest, as the source uses them. */
  datatype Codec = Codec(encode: Snapshot -> Option<string>, decode: string -> Option<Snapshot>,
                         digest: string -> string)
  {
    ghost predicate RoundTrips() { forall s :: encode(s).Some? ==> decode(encode(s).value) == Some(s) }
  }

  datatype Start = Start(runId: string, epoch: nat, source: Option<int>, operationId: string, stepId: string,
                         capsuleVersion: nat, capsuleDigest: string, snapshot: Snapshot, startedAt: nat)

  datatype Outcome = Outcome(status: string, snapshot: Snapshot, runnerResult: Option<string>,
                             checkpointDigest: Option<string>, finalizedAt: nat)

  datatype Row = Row(id: int, runId: string, epoch: nat, source: Option<int>, operationId: string, stepId: string,
                     status: string, capsuleVersion: nat, capsuleDigest: string, json: string, digest: string,
                     checkpointDigest: Option<string>, runnerResult: Option<string>, startedAt: nat,
                     finalizedAt: Option<nat>)

  /** What was recorded, in the order of ids: every start, and the one outcome some of them got. */
  datatype History = History(started: map<int, Start>, finished: map<int, Outcome>)
  {
    ghost predicate Open(id: int) { id in started && id !in finished }

    function SnapshotOf(id: int): Snapshot
      requires id in started
    {
      if id in finished then finished[id].snapshot else started[id].snapshot
    }
  }

  /** The row an attempt must have: identity from its start, the rest from the outcome once there is one. */
  function Expected(c: Codec, id: int, s: Start, o: Option<Outcome>): Row
  {
    var snapshot := if o.Some? then o.value.snapshot else s.snapshot;
    var json := if c.encode(snapshot).Some? then c.encode(snapshot).value else "";
    Row(id, s.runId, if s.epoch > I64_MAX then I64_MAX else s.epoch, s.source, s.operationId, s.stepId,
        if o.Some? then o.value.status else "started", s.capsuleVersion, s.capsuleDigest,
        json, c.digest(json), if o.Some? then o.value.checkpointDigest else None,
        if o.Some? then o.value.runnerResult else None, s.startedAt,
        if o.Some? then Some(o.value.finalizedAt) else None)
  }

  function OutcomeOf(h: History, id: int): Option<Outcome> { if id in h.finished then Some(h.finished[id]) else None }

  datatype Lookup = Absent | Found(row: Row, snapshot: Snapshot) | Corrupt

  function Loaded(c: Codec, row: Row): Lookup
  {
    match c.decode(row.json)
    case None => Corrupt
    case Some(s) => Found(row, s)
  }

  predicate VerifySnapshotDigest(c: Codec, row: Row) { c.digest(row.json) == row.digest }

  /** The table holds exactly the expected rows, by increasing id. */
  ghost predicate Represents(c: Codec, rows: seq<Row>, lastId: int, h: History)
  {
    && c.RoundTrips()
    && 0 <= lastId
    && (forall i, j :: 0 <= i < j < |rows| ==> rows[i].id < rows[j].id)
    && (forall id :: id in h.started ==> HasRow(rows, id))
    && h.finished.Keys <= h.started.Keys
    && (forall i :: 0 <= i < |rows| ==> RowFits(c, rows[i], lastId, h))
  }

  ghost predicate HasRow(rows: seq<Row>, id: int) { exists i :: 0 <= i < |rows| && rows[i].id == id }

  ghost predicate RowFits(c: Codec, row: Row, lastId: int, h: History)
  {
    && 0 < row.id <= lastId && row.id in h.started
    && c.encode(h.SnapshotOf(row.id)).Some?
    && row == Expected(c, row.id, h.started[row.id], OutcomeOf(h, row.id))
  }

  lemma RowOf(c: Codec, rows: seq<Row>, lastId: int, h: History, id: int) returns (i: nat)
    requires Represents(c, rows, lastId, h) && id in h.started
    ensures i < |rows| && rows[i].id == id
  {
    assert HasRow(rows, id);
    i :| 0 <= i < |rows| && rows[i].id == id;
  }

  lemma LoadedBack(c: Codec, row: Row, lastId: int, h: History)
    requires c.RoundTrips() && RowFits(c, row, lastId, h)
    ensures Loaded(c, row) == Found(row, h.SnapshotOf(row.id)) && VerifySnapshotDigest(c, row)
  {}

  lemma StartRepresents(c: Codec, rows: seq<Row>, lastId: int, h: History, id: int, s: Start)
    requires Represents(c, rows, lastId, h) && id > lastId && c.encode(s.snapshot).Some?
    ensures Represents(c, rows + [Expected(c, id, s, None)], id, h.(started := h.started[id := s]))
    ensures StartsAttempt(h, h.(started := h.started[id := s]), id)
  {
    var k := h.(started := h.started[id := s]);
    var row := Expected(c, id, s, None);
    var all := rows + [row];
    forall x | x in h.started ensures x <= lastId {
      var i := RowOf(c, rows, lastId, h, x);
    }
    forall i | 0 <= i < |all| ensures RowFits(c, all[i], id, k) {
      if i < |rows| { assert RowFits(c, rows[i], lastId, h); }
    }
    forall x | x in k.started ensures HasRow(all, x) {
      if x == id {
        assert all[|rows|].id == x;
      } else {
        var i := RowOf(c, rows, lastId, h, x);
        assert all[i].id == x;
      }
    }
  }

  lemma FinishRepresents(c: Codec, rows: seq<Row>, lastId: int, h: History, i: nat, o: Outcome)
    requires Represents(c, rows, lastId, h) && i < |rows| && h.Open(rows[i].id) && c.encode(o.snapshot).Some?
    ensures var id := rows[i].id;
      var k := h.(finished := h.finished[id := o]);
      Represents(c, rows[i := Expected(c, id, h.started[id], Some(o))], lastId, k) && FinishesAttempt(h, k, id)
  {
    var id := rows[i].id;
    var k := h.(finished := h.finished[id := o]);
    var all := rows[i := Expected(c, id, h.started[id], Some(o))];
    assert RowFits(c, rows[i], lastId, h);
    forall j | 0 <= j < |all| ensures RowFits(c, all[j], lastId, k) && all[j].id == rows[j].id {
      assert RowFits(c, rows[j], lastId, h);
      assert j < i ==> rows[j].id < id;
      assert i < j ==> id < rows[j].id;
      if j != i { OthersFit(c, rows[j], lastId, h, id, o); }
    }
    forall x | x in k.started ensures HasRow(all, x) {
      var j := RowOf(c, rows, lastId, h, x);
      assert all[j].id == x;
    }
  }

  lemma OthersFit(c: Codec, row: Row, lastId: int, h: History, id: int, o: Outcome)
    requires RowFits(c, row, lastId, h) && row.id != id
    ensures RowFits(c, row, lastId, h.(finished := h.finished[id := o]))
  {}

  class AttemptStore {
    const codec: Codec
    var rows: seq<Row>
    var lastId: int
    ghost var history: History

    ghost predicate Valid()
      reads this
    {
      Represents(codec, rows, lastId, history)
    }

    constructor (codec: Codec)
      requires codec.RoundTrips()
      ensures Valid() && this.codec == codec && history == History(map[], map[]) && lastId == 0
    {
      this.codec := codec;
      rows, lastId, history := [], 0, History(map[], map[]);
    }

    /** Reserve an attempt; `gap` is how many ids the table leaves out. */
    method RecordAttemptStart(s: Start, gap: nat) returns (id: Option<int>)
      requires Valid()
      modifies this
      ensures Valid()
      ensures id.Some? <==> codec.encode(s.snapshot).Some?
      ensures id.None? ==> history == old(history) && rows == old(rows) && lastId == old(lastId)
      ensures id.Some? ==> id.value > old(lastId) && id.value == lastId
                           && history == old(history).(started := old(history).started[id.value := s])
                           && StartsAttempt(old(history), history, id.value)
                           && rows == old(rows) + [Expected(codec, id.value, s, None)]
    {
      var json := codec.encode(s.snapshot);
      if json.None? {
        return None;
      }
      var next := lastId + 1 + gap;
      StartRepresents(codec, rows, lastId, history, next, s);
      rows := rows + [Row(next, s.runId, if s.epoch > I64_MAX then I64_MAX else s.epoch, s.source,
                          s.operationId, s.stepId,
                          "started", s.capsuleVersion, s.capsuleDigest, json.value, codec.digest(json.value),
                          None, None, s.startedAt, None)];
      lastId := next;
      history := history.(started := history.started[next := s]);
      return Some(next);
    }

    /** Complete an open attempt; anything else is refused and changes nothing. */
    method AppendAttemptOutcome(id: int, o: Outcome) returns (ok: bool)
      requires Valid()
      modifies this
      ensures Valid() && lastId == old(lastId)
      ensures ok <==> codec.encode(o.snapshot).Some? && old(history).Open(id)
      ensures !ok ==> history == old(history) && rows == old(rows)
      ensures ok ==> history == old(history).(finished := old(history).finished[id := o])
                     && FinishesAttempt(old(history), history, id)
      ensures |rows| == |old(rows)|
      ensures forall i :: 0 <= i < |rows| && (rows[i].id != id || !ok) ==> rows[i] == old(rows)[i]
    {
      var json := codec.encode(o.snapshot);
      if json.None? {
        return false;
      }
      var i := 0;
      while i < |rows| && !(rows[i].id == id && rows[i].finalizedAt.None?)
        invariant 0 <= i <= |rows|
        invariant forall j :: 0 <= j < i ==> !(rows[j].id == id && rows[j].finalizedAt.None?)
      {
        i := i + 1;
      }
      if i == |rows| {
        if history.Open(id) {
          var j := RowOf(codec, rows, lastId, history, id);
          assert false;
        }
        return false;
      }
      assert RowFits(codec, rows[i], lastId, history);
      FinishRepresents(codec, rows, lastId, history, i, o);
      rows := rows[i := rows[i].(status := o.status, json := json.value, digest := codec.digest(json.value),
                                 runnerResult := o.runnerResult, checkpointDigest := o.checkpointDigest,
                                 finalizedAt := Some(o.finalizedAt))];
      history := history.(finished := history.finished[id := o]);
      return true;
    }

    /** The newest completed attempt of a step, with the snapshot its outcome recorded. */
    method LatestForStep(runId: string, stepId: string) returns (r: Lookup)
      requires Valid()
      ensures r != Corrupt
      ensures r.Absent? <==> forall id :: id in history.finished ==> !OfStep(history, id, runId, stepId)
      ensures r.Found? ==> r.row.id in history.finished && OfStep(history, r.row.id, runId, stepId)
                           && r.row == Expected(codec, r.row.id, history.started[r.row.id],
                                                OutcomeOf(history, r.row.id))
                           && r.snapshot == history.finished[r.row.id].snapshot
                           && forall id :: id in history.finished && OfStep(history, id, runId, stepId) ==>
                             id <= r.row.id
    {
      var i := |rows|;
      while i > 0
        invariant 0 <= i <= |rows|
        invariant forall j :: i <= j < |rows| ==>
          !(rows[j].runId == runId && rows[j].stepId == stepId && rows[j].finalizedAt.Some?)
      {
        i := i - 1;
        if rows[i].runId == runId && rows[i].stepId == stepId && rows[i].finalizedAt.Some? {
          assert RowFits(codec, rows[i], lastId, history);
          forall id | id in history.finished && OfStep(history, id, runId, stepId)
            ensures id <= rows[i].id
          {
            var j := RowOf(codec, rows, lastId, history, id);
            assert RowFits(codec, rows[j], lastId, history);
          }
          LoadedBack(codec, rows[i], lastId, history);
          return Loaded(codec, rows[i]);
        }
      }
      forall id | id in history.finished
        ensures !OfStep(history, id, runId, stepId)
      {
        var j := RowOf(codec, rows, lastId, history, id);
        assert RowFits(codec, rows[j], lastId, history);
      }
      return Absent;
    }

    /** The newest attempt of an operation that still lacks its outcome; there is
        one exactly when some start of the operation got none. */
    method LoadUnfinalizedForOperation(operationId: string) returns (r: Lookup)
      requires Valid()
      ensures r != Corrupt
      ensures r.Found? <==> exists id :: history.Open(id) && history.started[id].operationId == operationId
      ensures r.Found? ==> history.Open(r.row.id) && history.started[r.row.id].operationId == operationId
                           && r.row == Expected(codec, r.row.id, history.started[r.row.id], None)
                           && r.snapshot == history.started[r.row.id].snapshot
                           && forall id :: history.Open(id) && history.started[id].operationId == operationId ==>
                             id <= r.row.id
    {
      var i := |rows|;
      while i > 0
        invariant 0 <= i <= |rows|
        invariant forall j :: i <= j < |rows| ==> !(rows[j].operationId == operationId && rows[j].finalizedAt.None?)
      {
        i := i - 1;
        if rows[i].operationId == operationId && rows[i].finalizedAt.None? {
          assert RowFits(codec, rows[i], lastId, history);
          forall id | history.Open(id) && history.started[id].operationId == operationId
            ensures id <= rows[i].id
          {
            var j := RowOf(codec, rows, lastId, history, id);
            assert RowFits(codec, rows[j], lastId, history);
          }
          LoadedBack(codec, rows[i], lastId, history);
          return Loaded(codec, rows[i]);
        }
      }
      forall id | history.Open(id)
        ensures history.started[id].operationId != operationId
      {
        var j := RowOf(codec, rows, lastId, history, id);
        assert RowFits(codec, rows[j], lastId, history);
      }
      return Absent;
    }
  }

  /** What a row says of its attempt: it is started until an outcome gives it that
      outcome's status, result and time; its epoch is the recorded one, as far as a
      signed 64-bit column holds it. */
  lemma RowsTell(c: Codec, rows: seq<Row>, lastId: int, h: History, i: nat)
    requires Represents(c, rows, lastId, h) && i < |rows|
    ensures var row, s := rows[i], h.started[rows[i].id];
      && (row.finalizedAt.None? <==> h.Open(row.id))
      && (h.Open(row.id) ==> row.status == "started" && row.runnerResult.None? && row.checkpointDigest.None?)
      && (row.id in h.finished ==>
            var o := h.finished[row.id];
            row.status == o.status && row.runnerResult == o.runnerResult && row.finalizedAt == Some(o.finalizedAt)
            && row.checkpointDigest == o.checkpointDigest)
      && row.epoch <= I64_MAX && (s.epoch <= I64_MAX ==> row.epoch == s.epoch)
      && (row.epoch < s.epoch ==> row.epoch == I64_MAX)
      && row.runId == s.runId && row.stepId == s.stepId && row.operationId == s.operationId && row.source == s.source
      && row.startedAt == s.startedAt && row.capsuleVersion == s.capsuleVersion && row.capsuleDigest == s.capsuleDigest
  {
    assert RowFits(c, rows[i], lastId, h);
  }

  /** Every stored row passes its digest check and reads back as last recorded. */
  lemma RowsVerify(c: Codec, rows: seq<Row>, lastId: int, h: History)
    requires Represents(c, rows, lastId, h)
    ensures forall i :: 0 <= i < |rows| ==>
      VerifySnapshotDigest(c, rows[i]) && Loaded(c, rows[i]) == Found(rows[i], h.SnapshotOf(rows[i].id))
  {
    forall i | 0 <= i < |rows|
      ensures VerifySnapshotDigest(c, rows[i]) && Loaded(c, rows[i]) == Found(rows[i], h.SnapshotOf(rows[i].id))
    {
      assert RowFits(c, rows[i], lastId, h);
      LoadedBack(c, rows[i], lastId, h);
    }
  }

  ghost predicate OfStep(h: History, id: int, runId: string, stepId: string)
  {
    id in h.started && h.started[id].runId == runId && h.started[id].stepId == stepId
  }

  // ----- over every sequence of starts and outcomes

  /** A new start under an id larger than all before. */
  ghost predicate StartsAttempt(h: History, k: History, id: int)
  {
    && (forall x :: x in h.started ==> x < id)
    && id in k.started && k == h.(started := h.started[id := k.started[id]])
  }

  /** The one outcome of an open attempt. */
  ghost predicate FinishesAttempt(h: History, k: History, id: int)
  {
    h.Open(id) && id in k.finished && k == h.(finished := h.finished[id := k.finished[id]])
  }

  /** What one call may do. */
  ghost predicate Follows(h: History, k: History)
  {
    k == h || (exists id :: StartsAttempt(h, k, id)) || (exists id :: FinishesAttempt(h, k, id))
  }

  ghost predicate Grows(hs: seq<History>) { forall i :: 0 <= i < |hs| - 1 ==> Follows(hs[i], hs[i + 1]) }

  /** Nothing recorded is lost or changed, and every new id is larger than all before. */
  ghost predicate Preserves(h: History, k: History)
  {
    && (forall id :: id in h.started ==> id in k.started && k.started[id] == h.started[id])
    && (forall id :: id in h.finished ==> id in k.finished && k.finished[id] == h.finished[id])
    && (forall id, x :: id in k.started && id !in h.started && x in h.started ==> x < id)
  }

  lemma {:induction false} HistoryPreserved(hs: seq<History>, i: nat, j: nat)
    requires Grows(hs) && i <= j < |hs|
    ensures Preserves(hs[i], hs[j])
    decreases j
  {
    if i < j {
      HistoryPreserved(hs, i, j - 1);
      assert Follows(hs[j - 1], hs[j - 1 + 1]);
    }
  }

  /** From the moment an attempt is recorded its identity and capsule columns
      stay as they are, and from its outcome on the whole row is frozen. */
  lemma RowsFrozen(c: Codec, hs: seq<History>, i: nat, j: nat, id: int)
    requires Grows(hs) && i <= j < |hs| && id in hs[i].started
    ensures id in hs[j].started
    ensures var r := Expected(c, id, hs[i].started[id], OutcomeOf(hs[i], id));
      var t := Expected(c, id, hs[j].started[id], OutcomeOf(hs[j], id));
      && t == r.(status := t.status, json := t.json, digest := t.digest, checkpointDigest := t.checkpointDigest,
                 runnerResult := t.runnerResult, finalizedAt := t.finalizedAt)
      && (r.finalizedAt.Some? ==> t == r)
  {
    HistoryPreserved(hs, i, j);
  }
}
