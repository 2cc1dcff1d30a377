/** Launch records: a run row and its immutable execution capsule, written in one
    transaction. */
module Launches {
  import opened Text
  import opened Numbers
  import opened Envelope

  datatype Capsule = Capsule(fields: Fields, envelopeDigest: string, workflowDigest: string, configDigest: string,
                             createdAt: nat)

  /** Text coding of capsules and byte strings, and the digest, as the source uses them. */
  datatype Codec = Codec(encode: Capsule -> Option<string>, decode: string -> Option<Capsule>, digest: bytes -> string)
  {
    ghost predicate RoundTrips() { forall c :: encode(c).Some? ==> decode(encode(c).value) == Some(c) }
  }

  const SUPPORTED := 1

  /** Supported versions, and the digest is that of the frame. */
  predicate Sealed(codec: Codec, c: Capsule)
  {
    && c.fields.schema == SUPPORTED && c.fields.canonicalization == SUPPORTED
    && c.fields.domain == SUPPORTED && c.fields.provenance == SUPPORTED
    && codec.digest(Frame(c.fields)) == c.envelopeDigest
  }

  /** A sealed capsule cannot be altered under its digest, short of a digest collision. */
  lemma SealBinds(codec: Codec, c: Capsule, d: Capsule)
    requires Sealed(codec, c) && Sealed(codec, d) && c.envelopeDigest == d.envelopeDigest
    requires Fits(c.fields) && Fits(d.fields)
    ensures c.fields == d.fields
        || (Frame(c.fields) != Frame(d.fields) && codec.digest(Frame(c.fields)) == codec.digest(Frame(d.fields)))
  {
    if Frame(c.fields) == Frame(d.fields) { FrameInjective(c.fields, d.fields); }
  }

  /** A stored capsule: the JSON and the columns kept beside it. */
  datatype CapsuleRow = CapsuleRow(schema: int, canonicalization: int, domain: int, provenance: int, json: string,
                                   envelopeDigest: string, workflowDigest: string, configDigest: string, createdAt: nat)

  datatype Run = Run(runId: bytes, details: string)

  datatype Fault = NoFault | BeginFails | RunInsertFails | CapsuleInsertFails | CommitFails

  datatype PersistResult = Inserted | Constraint | Failed

  datatype LaunchResult = Persisted | RunCollision(runId: bytes) | CapsuleCollision(runId: bytes)
                        | Database(runId: bytes)

  datatype LoadResult = Loaded(capsule: Capsule) | Missing | Corrupt

  function RowFor(c: Capsule, json: string): CapsuleRow
  {
    CapsuleRow(c.fields.schema, c.fields.canonicalization, c.fields.domain, c.fields.provenance, json,
               c.envelopeDigest, c.workflowDigest, c.configDigest, c.createdAt)
  }

  /** A signed 64-bit column read as an unsigned 32-bit value. */
  function Truncated(n: int): u32 { n % (U32_MAX + 1) }

  predicate ColumnsAgree(runId: bytes, c: Capsule, row: CapsuleRow)
  {
    && c.fields.runId == runId
    && c.fields.schema == Truncated(row.schema) && c.fields.canonicalization == Truncated(row.canonicalization)
    && c.fields.domain == Truncated(row.domain) && c.fields.provenance == Truncated(row.provenance)
    && c.envelopeDigest == row.envelopeDigest && c.workflowDigest == row.workflowDigest
    && c.configDigest == row.configDigest
  }

  ghost predicate Stored(codec: Codec, id: bytes, c: Capsule, row: CapsuleRow)
  {
    Sealed(codec, c) && c.fields.runId == id && codec.encode(c).Some? && row == RowFor(c, codec.encode(c).value)
  }

  /** The capsule table holds exactly the rows of the capsules stored. */
  ghost predicate AllStored(codec: Codec, capsules: map<bytes, CapsuleRow>, stored: map<bytes, Capsule>)
  {
    stored.Keys == capsules.Keys && forall id :: id in stored ==> Stored(codec, id, stored[id], capsules[id])
  }

  lemma StoredAgrees(codec: Codec, id: bytes, c: Capsule, row: CapsuleRow)
    requires Stored(codec, id, c, row) && codec.RoundTrips()
    ensures ColumnsAgree(id, c, row) && codec.decode(row.json) == Some(c)
  {
    assert 1 % 0x1_0000_0000 == 1;
  }

  datatype Launch = Launch(run: Run, capsule: Capsule, fault: Fault)

  datatype Tables = Tables(runs: map<bytes, Run>, stored: map<bytes, Capsule>)

  predicate Storable(codec: Codec, c: Capsule) { Sealed(codec, c) && codec.encode(c).Some? }

  predicate Succeeds(codec: Codec, t: Tables, l: Launch)
  {
    && l.fault == NoFault && l.run.runId !in t.runs && l.capsule.fields.runId !in t.stored && Storable(codec, l.capsule)
  }

  /** The tables after a launch: both rows are added, or nothing is. */
  function After(codec: Codec, t: Tables, l: Launch): Tables
  {
    if Succeeds(codec, t, l)
    then Tables(t.runs[l.run.runId := l.run], t.stored[l.capsule.fields.runId := l.capsule]) else t
  }

  class LaunchStore {
    const codec: Codec
    var runs: map<bytes, Run>
    var capsules: map<bytes, CapsuleRow>
    /** Every capsule ever stored. */
    ghost var stored: map<bytes, Capsule>

    ghost predicate Valid()
      reads this
    {
      codec.RoundTrips() && AllStored(codec, capsules, stored)
    }

    ghost function Now(): Tables reads this { Tables(runs, stored) }

    constructor (codec: Codec)
      requires codec.RoundTrips()
      ensures Valid() && this.codec == codec && runs == map[] && stored == map[]
    {
      this.codec := codec;
      runs, capsules, stored := map[], map[], map[];
    }

    method PersistCapsule(c: Capsule, faulty: bool) returns (r: PersistResult)
      requires Valid()
      modifies `capsules, `stored
      ensures Valid()
      ensures r == if faulty || !Storable(codec, c) then Failed
                   else if c.fields.runId in old(stored) then Constraint else Inserted
      ensures r == Inserted ==> stored == old(stored)[c.fields.runId := c]
      ensures r != Inserted ==> stored == old(stored) && capsules == old(capsules)
    {
      if !Sealed(codec, c) {
        return Failed;
      }
      var json := codec.encode(c);
      if json.None? || faulty {
        return Failed;
      }
      if c.fields.runId in capsules {
        return Constraint;
      }
      capsules := capsules[c.fields.runId := RowFor(c, json.value)];
      stored := stored[c.fields.runId := c];
      return Inserted;
    }

    /** Both rows or neither; whatever fails, both tables are as they were. */
    method PersistLaunchAtomically(run: Run, c: Capsule, fault: Fault) returns (r: LaunchResult)
      requires Valid()
      modifies this
      ensures Valid()
      ensures r == Persisted <==> Succeeds(codec, old(Now()), Launch(run, c, fault))
      ensures Now() == After(codec, old(Now()), Launch(run, c, fault))
      ensures r != Persisted ==> capsules == old(capsules)
      ensures r.RunCollision? ==> run.runId in old(runs)
      ensures r.CapsuleCollision? ==> run.runId !in old(runs) && c.fields.runId in old(stored)
      ensures fault == NoFault && Storable(codec, c) ==> !r.Database?
    {
      if fault == BeginFails {
        return Database(run.runId);
      }
      var runsBefore, capsulesBefore := runs, capsules;
      ghost var storedBefore := stored;
      if fault == RunInsertFails {
        return Database(run.runId);
      }
      if run.runId in runs {
        return RunCollision(run.runId);
      }
      runs := runs[run.runId := run];
      var inserted := PersistCapsule(c, fault == CapsuleInsertFails);
      if inserted == Inserted && fault != CommitFails {
        return Persisted;
      }
      runs, capsules, stored := runsBefore, capsulesBefore, storedBefore;
      return if inserted == Constraint then CapsuleCollision(run.runId) else Database(run.runId);
    }

    /** What was persisted is what is loaded, for every run id. */
    method LoadCapsule(runId: bytes) returns (r: LoadResult)
      requires Valid()
      ensures r == if runId in stored then Loaded(stored[runId]) else Missing
    {
      if runId !in capsules {
        return Missing;
      }
      StoredAgrees(codec, runId, stored[runId], capsules[runId]);
      r := CheckRow(codec, runId, capsules[runId]);
    }
  }

  /** Reading one row back; anything that does not fit together is refused. */
  method CheckRow(codec: Codec, runId: bytes, row: CapsuleRow) returns (r: LoadResult)
    ensures r.Loaded? <==> codec.decode(row.json).Some? && ColumnsAgree(runId, codec.decode(row.json).value, row)
                           && Sealed(codec, codec.decode(row.json).value)
    ensures r.Loaded? ==> Some(r.capsule) == codec.decode(row.json)
    ensures r.Loaded? || r == Corrupt
  {
    var capsule := codec.decode(row.json);
    if capsule.None? || !ColumnsAgree(runId, capsule.value, row) || !Sealed(codec, capsule.value) {
      return Corrupt;
    }
    return Loaded(capsule.value);
  }

  // ----- over every sequence of launches

  function AfterAll(codec: Codec, t: Tables, ls: seq<Launch>): Tables
    decreases |ls|
  {
    if ls == [] then t else AfterAll(codec, After(codec, t, ls[0]), ls[1..])
  }

  ghost predicate Paired(t: Tables) { t.runs.Keys == t.stored.Keys }

  /** A launch keeps run rows and capsules in step exactly when it fails or is
      given a capsule made for its run. */
  lemma LaunchPairs(codec: Codec, t: Tables, l: Launch)
    requires Paired(t)
    ensures Paired(After(codec, t, l)) <==> !Succeeds(codec, t, l) || l.capsule.fields.runId == l.run.runId
  {
    var u := After(codec, t, l);
    if Succeeds(codec, t, l) {
      assert u.runs.Keys == t.runs.Keys + {l.run.runId} && u.stored.Keys == t.stored.Keys + {l.capsule.fields.runId};
      if l.capsule.fields.runId != l.run.runId {
        assert l.run.runId in u.runs.Keys && l.run.runId !in u.stored.Keys;
      }
    }
  }

  /** Over every sequence of launches a run row exists exactly when its capsule
      does, and neither ever changes. */
  lemma {:induction false} LaunchesPairedAndFrozen(codec: Codec, t: Tables, ls: seq<Launch>)
    requires Paired(t) && forall l :: l in ls ==> l.capsule.fields.runId == l.run.runId
    ensures Paired(AfterAll(codec, t, ls))
    ensures forall id :: id in t.stored ==>
      id in AfterAll(codec, t, ls).stored && AfterAll(codec, t, ls).stored[id] == t.stored[id]
    ensures forall id :: id in t.runs ==>
      id in AfterAll(codec, t, ls).runs && AfterAll(codec, t, ls).runs[id] == t.runs[id]
    decreases |ls|
  {
    if ls != [] {
      LaunchPairs(codec, t, ls[0]);
      LaunchesPairedAndFrozen(codec, After(codec, t, ls[0]), ls[1..]);
    }
  }

  // ----- what is accepted, and when a launch succeeds

  /** The capsule of these fields under the one supported version of everything. */
  function Seal(codec: Codec, f: Fields, workflowDigest: string, configDigest: string, createdAt: nat): Capsule
  {
    var supported :=
      f.(schema := SUPPORTED, canonicalization := SUPPORTED, domain := SUPPORTED, provenance := SUPPORTED);
    Capsule(supported, codec.digest(Frame(supported)), workflowDigest, configDigest, createdAt)
  }

  /** The sealed capsules are just those that sealing gives. */
  lemma SealedExactly(codec: Codec, c: Capsule)
    ensures Sealed(codec, c) <==> c == Seal(codec, c.fields, c.workflowDigest, c.configDigest, c.createdAt)
  {}

  function Reduced(n: int): int { n % 0x1_0000_0000 }

  /** The columns of a row fit a capsule exactly when they are those written for it,
      up to the creation time and whole multiples of 2^32 in the versions. */
  lemma ColumnsExactly(runId: bytes, c: Capsule, row: CapsuleRow)
    ensures ColumnsAgree(runId, c, row) <==>
      c.fields.runId == runId
      && row.(schema := Reduced(row.schema), canonicalization := Reduced(row.canonicalization),
              domain := Reduced(row.domain), provenance := Reduced(row.provenance), createdAt := c.createdAt)
         == RowFor(c, row.json)
  {}

  /** The run row of a launch appears exactly when its capsule does: for a sealed
      capsule that can be encoded, if nothing fails and neither id is taken. Nothing
      else appears, and nothing disappears. */
  lemma LaunchAddsBoth(codec: Codec, t: Tables, l: Launch)
    ensures var u := After(codec, t, l);
      var taken := l.run.runId in t.runs || l.capsule.fields.runId in t.stored;
      && (u != t <==> !taken && l.fault == NoFault && codec.encode(l.capsule).Some?
                      && l.capsule == Seal(codec, l.capsule.fields, l.capsule.workflowDigest, l.capsule.configDigest,
                                           l.capsule.createdAt))
      && (u != t ==> u.runs == t.runs[l.run.runId := l.run]
                     && u.stored == t.stored[l.capsule.fields.runId := l.capsule])
  {
    SealedExactly(codec, l.capsule);
    assert l.run.runId !in t.runs ==> t.runs[l.run.runId := l.run] != t.runs;
  }
}
