/** The byte frame whose digest seals an execution capsule: four versions and
    six length-prefixed fields. */
module Envelope {
  import opened Text
  import opened Numbers

  type byte = n: nat | n < 256
  type bytes = seq<byte>

  datatype Fields = Fields(schema: u32, canonicalization: u32, domain: u32, provenance: u32,
                           runId: bytes, configRoot: bytes, workflow: bytes, config: bytes,
                           provenanceDigest: bytes, baseRef: bytes)

  function BigEndian(n: u32): (b: bytes)
    ensures |b| == 4
  {
    [n / 0x100_0000, n / 0x1_0000 % 0x100, n / 0x100 % 0x100, n % 0x100]
  }

  /** A length that does not fit is written as the largest one that does. */
  function Prefixed(field: bytes): bytes
  {
    BigEndian(if |field| > U32_MAX then U32_MAX else |field|) + field
  }

  /** The frame from the run id on. */
  function FieldsFrame(f: Fields): bytes
  {
    Prefixed(f.runId) + (Prefixed(f.configRoot) + (Prefixed(f.workflow) + (Prefixed(f.config)
    + (Prefixed(f.provenanceDigest) + Prefixed(f.baseRef)))))
  }

  function Frame(f: Fields): bytes
  {
    BigEndian(f.schema)
    + (BigEndian(f.canonicalization) + (BigEndian(f.domain) + (BigEndian(f.provenance) + FieldsFrame(f))))
  }

  method BuildEnvelopeFrame(f: Fields) returns (buf: bytes)
    ensures buf == Frame(f)
  {
    ghost var whole := Frame(f);
    ghost var f6 := Prefixed(f.baseRef);
    ghost var f5 := Prefixed(f.provenanceDigest) + f6;
    ghost var f4 := Prefixed(f.config) + f5;
    ghost var f3 := Prefixed(f.workflow) + f4;
    ghost var f2 := Prefixed(f.configRoot) + f3;
    ghost var f1 := Prefixed(f.runId) + f2;
    buf := Extend([], BigEndian(f.schema),
                  BigEndian(f.canonicalization) + (BigEndian(f.domain) + (BigEndian(f.provenance) + f1)), whole);
    buf := Extend(buf, BigEndian(f.canonicalization), BigEndian(f.domain) + (BigEndian(f.provenance) + f1), whole);
    buf := Extend(buf, BigEndian(f.domain), BigEndian(f.provenance) + f1, whole);
    buf := Extend(buf, BigEndian(f.provenance), f1, whole);
    buf := WriteLenPrefixed(buf, f.runId, f2, whole);
    buf := WriteLenPrefixed(buf, f.configRoot, f3, whole);
    buf := WriteLenPrefixed(buf, f.workflow, f4, whole);
    buf := WriteLenPrefixed(buf, f.config, f5, whole);
    buf := WriteLenPrefixed(buf, f.provenanceDigest, f6, whole);
    assert f6 == f6 + [];
    buf := WriteLenPrefixed(buf, f.baseRef, [], whole);
    assert buf + [] == buf;
  }

  /** One part more; `rest` is what `whole` still lacks. */
  method Extend(buf: bytes, part: bytes, ghost rest: bytes, ghost whole: bytes) returns (longer: bytes)
    requires buf + (part + rest) == whole
    ensures longer == buf + part && longer + rest == whole
  {
    longer := buf + part;
    assert longer + rest == buf + (part + rest);
  }

  method WriteLenPrefixed(buf: bytes, field: bytes, ghost rest: bytes, ghost whole: bytes) returns (longer: bytes)
    requires buf + (Prefixed(field) + rest) == whole
    ensures longer == buf + Prefixed(field) && longer + rest == whole
  {
    var len := if |field| > U32_MAX then U32_MAX else |field|;
    longer := buf + BigEndian(len);
    longer := longer + field;
    assert longer == buf + Prefixed(field);
    assert longer + rest == buf + (Prefixed(field) + rest);
  }

  // ----- reading a frame back

  function Read32(s: bytes): Option<(nat, bytes)>
  {
    if |s| < 4 then None
    else
      var high: nat, low: nat := s[0] as nat * 0x100 + s[1] as nat, s[2] as nat * 0x100 + s[3] as nat;
      Some((high * 0x1_0000 + low, s[4..]))
  }

  function ReadField(s: bytes): Option<(bytes, bytes)>
  {
    match Read32(s)
    case None => None
    case Some((n, rest)) => if n > |rest| then None else Some((rest[..n], rest[n..]))
  }

  lemma Read32Back(n: u32, rest: bytes)
    ensures Read32(BigEndian(n) + rest) == Some((n, rest))
  {
    var s := BigEndian(n) + rest;
    assert s[4..] == rest;
    var high := n / 0x100;
    var top := high / 0x100;
    assert n / 0x1_0000 == top && n / 0x100_0000 == top / 0x100;
    assert n == high * 0x100 + n % 0x100 && high == top * 0x100 + high % 0x100;
    assert top == top / 0x100 * 0x100 + top % 0x100;
  }

  lemma ReadFieldBack(field: bytes, rest: bytes)
    requires |field| <= U32_MAX
    ensures ReadField(Prefixed(field) + rest) == Some((field, rest))
  {
    Read32Back(|field|, field + rest);
    assert Prefixed(field) + rest == BigEndian(|field|) + (field + rest);
    assert (field + rest)[..|field|] == field && (field + rest)[|field|..] == rest;
  }

  predicate Within(f: Fields, most: nat)
  {
    && |f.runId| <= most && |f.configRoot| <= most && |f.workflow| <= most
    && |f.config| <= most && |f.provenanceDigest| <= most && |f.baseRef| <= most
  }

  predicate Fits(f: Fields) { Within(f, U32_MAX) }

  /** Frames of fields whose lengths fit 32 bits are unambiguous. */
  lemma FrameInjective(f: Fields, g: Fields)
    requires Fits(f) && Fits(g) && Frame(f) == Frame(g)
    ensures f == g
  {
    var f1, g1 := FieldsFrame(f), FieldsFrame(g);
    Same32(f.schema, g.schema, BigEndian(f.canonicalization) + (BigEndian(f.domain) + (BigEndian(f.provenance) + f1)),
           BigEndian(g.canonicalization) + (BigEndian(g.domain) + (BigEndian(g.provenance) + g1)));
    Same32(f.canonicalization, g.canonicalization, BigEndian(f.domain) + (BigEndian(f.provenance) + f1),
           BigEndian(g.domain) + (BigEndian(g.provenance) + g1));
    Same32(f.domain, g.domain, BigEndian(f.provenance) + f1, BigEndian(g.provenance) + g1);
    Same32(f.provenance, g.provenance, f1, g1);
    FieldsInjective(f, g);
  }

  lemma FieldsInjective(f: Fields, g: Fields)
    requires Fits(f) && Fits(g) && FieldsFrame(f) == FieldsFrame(g)
    ensures f.runId == g.runId && f.configRoot == g.configRoot && f.workflow == g.workflow
    ensures f.config == g.config && f.provenanceDigest == g.provenanceDigest && f.baseRef == g.baseRef
  {
    var f6, g6 := Prefixed(f.baseRef), Prefixed(g.baseRef);
    var f5, g5 := Prefixed(f.provenanceDigest) + f6, Prefixed(g.provenanceDigest) + g6;
    var f4, g4 := Prefixed(f.config) + f5, Prefixed(g.config) + g5;
    var f3, g3 := Prefixed(f.workflow) + f4, Prefixed(g.workflow) + g4;
    var f2, g2 := Prefixed(f.configRoot) + f3, Prefixed(g.configRoot) + g3;
    SameField(f.runId, g.runId, f2, g2);
    SameField(f.configRoot, g.configRoot, f3, g3);
    SameField(f.workflow, g.workflow, f4, g4);
    SameField(f.config, g.config, f5, g5);
    SameField(f.provenanceDigest, g.provenanceDigest, f6, g6);
    assert f6 + [] == f6 && g6 + [] == g6;
    SameField(f.baseRef, g.baseRef, [], []);
  }

  lemma Same32(m: u32, n: u32, s: bytes, t: bytes)
    requires BigEndian(m) + s == BigEndian(n) + t
    ensures m == n && s == t
  {
    Read32Back(m, s);
    Read32Back(n, t);
  }

  lemma SameField(a: bytes, b: bytes, s: bytes, t: bytes)
    requires |a| <= U32_MAX && |b| <= U32_MAX && Prefixed(a) + s == Prefixed(b) + t
    ensures a == b && s == t
  {
    ReadFieldBack(a, s);
    ReadFieldBack(b, t);
  }

  // ----- past the bound

  function Zeros(n: nat): (b: bytes)
    ensures |b| == n
  {
    seq(n, i => 0)
  }

  function OnlyFields(runId: bytes, configRoot: bytes, workflow: bytes): Fields
  {
    Fields(0, 0, 0, 0, runId, configRoot, workflow, [], [], [])
  }

  /** A config root that reads as the end of the length before it, an empty
      config root and the start of a workflow. */
  function Disguised(tail: bytes): bytes { [0] + (BigEndian(0xFF_FFFF) + tail) }

  /** A run id one byte too long swallows the first byte of the next length. */
  lemma BorderMoves(runId: bytes, tail: bytes)
    requires |runId| == U32_MAX && |tail| == 0x100_0000 - 5
    ensures Frame(OnlyFields(runId, Disguised(tail), []))
         == Frame(OnlyFields(runId + [1], [], tail + [0, 0, 0, 0]))
  {
    var f, g := OnlyFields(runId, Disguised(tail), []), OnlyFields(runId + [1], [], tail + [0, 0, 0, 0]);
    var rest := Prefixed([]) + (Prefixed([]) + Prefixed([]));
    var c, w := Disguised(tail), tail + [0, 0, 0, 0];
    BorderBytes(runId, tail, rest);
    assert FieldsFrame(f) == Prefixed(runId) + (Prefixed(c) + (Prefixed([]) + rest));
    assert FieldsFrame(g) == Prefixed(runId + [1]) + (Prefixed([]) + (Prefixed(w) + rest));
  }

  lemma BorderBytes(runId: bytes, tail: bytes, rest: bytes)
    requires |runId| == U32_MAX && |tail| == 0x100_0000 - 5
    ensures Prefixed(runId) + (Prefixed(Disguised(tail)) + (Prefixed([]) + rest))
         == Prefixed(runId + [1]) + (Prefixed([]) + (Prefixed(tail + [0, 0, 0, 0]) + rest))
  {
    var c, w := Disguised(tail), tail + [0, 0, 0, 0];
    var top := BigEndian(U32_MAX);
    assert |c| == 0x100_0000 && |w| == 0xFF_FFFF;
    assert Prefixed([]) == [0, 0, 0, 0];
    assert Prefixed(c) == [1] + ([0, 0, 0, 0] + (BigEndian(0xFF_FFFF) + tail));
    assert Prefixed(w) == BigEndian(0xFF_FFFF) + (tail + [0, 0, 0, 0]);
    var left := [0, 0, 0, 0] + (BigEndian(0xFF_FFFF) + tail);
    assert Prefixed(c) + (Prefixed([]) + rest) == [1] + (left + ([0, 0, 0, 0] + rest));
    assert left + ([0, 0, 0, 0] + rest) == [0, 0, 0, 0] + (Prefixed(w) + rest);
    assert Prefixed(runId) + ([1] + (left + ([0, 0, 0, 0] + rest)))
        == Prefixed(runId + [1]) + (left + ([0, 0, 0, 0] + rest));
  }

  /** Frames over fields of up to so many bytes are unambiguous exactly when every
      length fits 32 bits. */
  lemma InjectiveExactly(most: nat)
    ensures (forall f, g :: Within(f, most) && Within(g, most) && Frame(f) == Frame(g) ==> f == g) <==> most <= U32_MAX
  {
    if most <= U32_MAX {
      forall f, g | Within(f, most) && Within(g, most) && Frame(f) == Frame(g) ensures f == g {
        FrameInjective(f, g);
      }
    } else {
      var runId, tail := Zeros(U32_MAX), Zeros(0x100_0000 - 5);
      BorderMoves(runId, tail);
      var f, g := OnlyFields(runId, Disguised(tail), []), OnlyFields(runId + [1], [], tail + [0, 0, 0, 0]);
      assert |f.runId| != |g.runId|;
      assert Within(f, most) && Within(g, most);
    }
  }
}
