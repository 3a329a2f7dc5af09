/** The record written out byte for byte, apart from the encoder and the decoders, and what follows
    for them. */
module CanonicalLayout {
  import opened Wrappers
  import opened Numbers
  import opened CanonicalCodec
  import opened CanonicalLabels
  import opened CanonicalRecord
  import opened CanonicalLaws

  // ------------------------------------------------------------------------ the bytes

  /** One is a proper first part of the other, or smaller at the first byte that differs. */
  ghost predicate Precedes(a: Bytes, b: Bytes) {
    exists k: nat :: k <= |a| && k < |b| && a[..k] == b[..k] && (k == |a| || a[k] < b[k])
  }

  lemma HeadOfPrefix(a: Bytes, b: Bytes, k: nat)
    requires 0 < k <= |a| && k <= |b| && a[..k] == b[..k]
    ensures a[0] == b[0]
  {
    assert a[..k][0] == b[..k][0];
  }

  lemma {:induction false} LessIsLexicographic(a: Bytes, b: Bytes)
    ensures Less(a, b) <==> Precedes(a, b)
  {
    if a != [] && b != [] && a[0] == b[0] {
      LessIsLexicographic(a[1..], b[1..]);
      if Precedes(a[1..], b[1..]) {
        var k: nat :| k <= |a[1..]| && k < |b[1..]| && a[1..][..k] == b[1..][..k]
                      && (k == |a[1..]| || a[1..][k] < b[1..][k]);
        assert a[..k + 1] == [a[0]] + a[1..][..k] && b[..k + 1] == [b[0]] + b[1..][..k];
        assert a[..k + 1] == b[..k + 1];
      }
      if Precedes(a, b) {
        var k: nat :| k <= |a| && k < |b| && a[..k] == b[..k] && (k == |a| || a[k] < b[k]);
        assert k > 0 && a[1..][..k - 1] == a[..k][1..] && b[1..][..k - 1] == b[..k][1..];
        assert a[1..][..k - 1] == b[1..][..k - 1];
      }
    } else if b != [] && (a == [] || a[0] < b[0]) {
      assert a[..0] == b[..0];
    } else {
      forall k: nat | k <= |a| && k < |b| && a[..k] == b[..k] ensures k < |a| && !(a[k] < b[k]) {
        if k > 0 { HeadOfPrefix(a, b, k); }
      }
    }
  }

  /** What a record can hold. */
  ghost predicate Storable(v: EvidenceBinding, utf8: Bytes -> bool) {
    && |v.candidateId| < 0x1_0000_0000 && utf8(v.candidateId) && |v.rawPath| < 0x1_0000_0000
    && v.logicalBytes < TWO64
    && (v.observedAt.Some? ==>
          -0x8000_0000_0000_0000 <= v.observedAt.value.seconds < 0x8000_0000_0000_0000
          && v.observedAt.value.nanos < 1_000_000_000)
    && |v.labels| < 0x1_0000_0000 && (forall l :: l in v.labels ==> |l| < 0x1_0000_0000 && utf8(l))
    && (forall i, j :: 0 <= i < |v.labels| && 0 <= j < |v.labels| && j == i + 1 ==> Precedes(v.labels[i], v.labels[j]))
  }

  function Prefixed(b: Bytes): Bytes
    requires |b| < 0x1_0000_0000
  {
    Four(|b|) + b
  }

  function LabelBytes(ls: Labels): Bytes
    requires forall l :: l in ls ==> |l| < 0x1_0000_0000
  {
    if ls == [] then [] else Prefixed(ls[0]) + LabelBytes(ls[1..])
  }

  function TimeBytes(o: Option<Timestamp>): Bytes
    requires o.Some? ==> TimestampFits(o.value)
  {
    match o
    case None => [0]
    case Some(t) => [1] + Eight(if t.seconds < 0 then t.seconds + TWO64 else t.seconds) + Four(t.nanos)
  }

  /** Every length and number fits in its bytes. */
  predicate Sized(v: EvidenceBinding) {
    && |v.candidateId| < 0x1_0000_0000 && |v.rawPath| < 0x1_0000_0000 && v.logicalBytes < TWO64
    && (v.observedAt.Some? ==> TimestampFits(v.observedAt.value))
    && |v.labels| < 0x1_0000_0000 && forall l :: l in v.labels ==> |l| < 0x1_0000_0000
  }

  /** `DPCB`, version 1, and the fields in their order. */
  function Layout(v: EvidenceBinding): Bytes
    requires Sized(v)
  {
    [0x44, 0x50, 0x43, 0x42, 0, 1]
    + Prefixed(v.candidateId) + Prefixed(v.rawPath) + Eight(v.logicalBytes) + TimeBytes(v.observedAt)
    + (match v.activity case Absent => [0] case Unknown => [1] case Inactive => [2] case Active => [3])
    + (match v.coverage
       case Unknown => [0] case Complete => [1] case Partial => [2] case Unreadable => [3] case Failed => [4])
    + Four(|v.labels|) + LabelBytes(v.labels)
  }

  // -------------------------------------------------------------- the same as the fields

  lemma PrefixedIsBlob(b: Bytes)
    requires |b| < 0x1_0000_0000
    ensures WriteBlob(b) == Prefixed(b)
  {
    FourBytes(|b|);
  }

  lemma {:induction false} LabelsAreWritten(ls: Labels)
    requires forall l :: l in ls ==> |l| < 0x1_0000_0000
    ensures WriteMany(ls) == LabelBytes(ls)
  {
    if ls != [] {
      PrefixedIsBlob(ls[0]);
      LabelsAreWritten(ls[1..]);
    }
  }

  lemma TimeIsWritten(o: Option<Timestamp>)
    requires o.Some? ==> TimestampFits(o.value)
    ensures WriteObservedAt(o) == TimeBytes(o)
  {
    hide Four;
    hide Eight;
    if o.Some? {
      EightBytes(FromSigned(o.value.seconds));
      FourBytes(o.value.nanos);
    }
    hide BigEndian;
  }

  lemma VersionIsWritten()
    ensures MAGIC + BigEndian(VERSION, 2) == [0x44, 0x50, 0x43, 0x42, 0, 1]
  {
    assert BigEndian(0, 1) == [0];
    assert BigEndian(1, 2) == [0, 1];
  }

  lemma FieldsAreLaidOut(v: EvidenceBinding)
    requires Sized(v)
    ensures Fields(v) == Layout(v)
  {
    hide BigEndian;
    hide WriteBlob;
    hide WriteMany;
    hide WriteObservedAt;
    hide Prefixed;
    hide LabelBytes;
    hide TimeBytes;
    hide Four;
    hide Eight;
    VersionIsWritten();
    PrefixedIsBlob(v.candidateId);
    PrefixedIsBlob(v.rawPath);
    EightBytes(v.logicalBytes);
    TimeIsWritten(v.observedAt);
    FourBytes(|v.labels|);
    LabelsAreWritten(v.labels);
  }

  lemma StorableMeansFits(v: EvidenceBinding, utf8: Bytes -> bool)
    ensures Storable(v, utf8) <==> Fits(v, utf8) && Typed(v, utf8)
  {
    forall a: Bytes, b: Bytes ensures Less(a, b) <==> Precedes(a, b) {
      LessIsLexicographic(a, b);
    }
    hide Less;
    hide Precedes;
  }

  // -------------------------------------------------------------------- main results

  /** The decoders accept exactly the laid out records, and read what is written in them. */
  lemma DecodesExactlyTheLayouts(s: Bytes, v: EvidenceBinding, utf8: Bytes -> bool)
    ensures Decode(s, utf8) == Ok(v) <==> Storable(v, utf8) && s == Layout(v)
  {
    hide Decode;
    hide Fields;
    hide CanonicalForm;
    hide Layout;
    hide Ascending;
    StorableMeansFits(v, utf8);
    hide Storable;
    if Decode(s, utf8) == Ok(v) {
      DecodeIsStrict(s, utf8);
      EncodeIsFields(v, utf8);
      StorableIsSized(v, utf8);
      FieldsAreLaidOut(v);
    }
    if Storable(v, utf8) {
      StorableIsSized(v, utf8);
      FieldsAreLaidOut(v);
      CanonicalFormIsIdempotent(v.labels);
      EncodeIsFields(v, utf8);
      if s == Layout(v) {
        RoundTrip(v, utf8);
      }
    }
  }

  lemma StorableIsSized(v: EvidenceBinding, utf8: Bytes -> bool)
    requires Storable(v, utf8)
    ensures Sized(v)
  {
  }

  /** Encoding lays out the binding, with each label once and the labels in lexicographic order. */
  lemma EncodingIsLaidOut(v: EvidenceBinding, utf8: Bytes -> bool)
    requires Typed(v, utf8) && Encode(v).Ok?
    ensures Storable(Canonical(v), utf8) && Encode(v) == Ok(Layout(Canonical(v)))
    ensures Canonical(v) == v.(labels := Canonical(v).labels)
    ensures forall l :: l in Canonical(v).labels <==> l in v.labels
  {
    EncodeIsFields(v, utf8);
    StorableMeansFits(Canonical(v), utf8);
    CanonicalFormIsAscending(v.labels);
    assert forall l :: l in CanonicalForm(v.labels) <==> l in Members(CanonicalForm(v.labels));
    assert forall l :: l in v.labels <==> l in Members(v.labels);
    hide CanonicalForm;
    hide Encode;
    hide Fields;
    hide Layout;
    StorableIsSized(Canonical(v), utf8);
    hide Storable;
    FieldsAreLaidOut(Canonical(v));
  }

  /** The eight bytes of the seconds, as a number, differ from the seconds by a multiple of 2^64: two's
      complement. This is so in what is written and in what is read. */
  lemma SecondsAreTwosComplement(s: Bytes, v: EvidenceBinding, utf8: Bytes -> bool)
    requires Decode(s, utf8) == Ok(v) && v.observedAt.Some?
    ensures var at := 10 + |v.candidateId| + 4 + |v.rawPath| + 8 + 1;
      && at + 8 <= |s|
      && (Value(s[at..at + 8]) - v.observedAt.value.seconds) % 0x1_0000_0000_0000_0000 == 0
  {
    hide *;
    DecodesExactlyTheLayouts(s, v, utf8);
    StorableIsSized(v, utf8);
    SecondsOfLayout(v);
  }

  lemma SecondsOfLayout(v: EvidenceBinding)
    requires Sized(v) && v.observedAt.Some?
    ensures var at := 10 + |v.candidateId| + 4 + |v.rawPath| + 8 + 1;
      && at + 8 <= |Layout(v)|
      && (Value(Layout(v)[at..at + 8]) - v.observedAt.value.seconds) % 0x1_0000_0000_0000_0000 == 0
  {
    hide Layout;
    hide Value;
    hide Eight;
    var i := v.observedAt.value.seconds;
    var n: nat := if i < 0 then i + TWO64 else i;
    EightMeans(n);
    LayoutHasSeconds(v, n);
    assert (n - i) % 0x1_0000_0000_0000_0000 == 0;
  }

  lemma EightMeans(n: nat)
    requires n < TWO64
    ensures Value(Eight(n)) == n
  {
    EightBytes(n);
    Widths();
    ValueOfBigEndian(n, 8);
  }

  lemma LayoutHasSeconds(v: EvidenceBinding, n: nat)
    requires Sized(v) && v.observedAt.Some?
    requires n == v.observedAt.value.seconds + if v.observedAt.value.seconds < 0 then TWO64 else 0
    ensures var at := 10 + |v.candidateId| + 4 + |v.rawPath| + 8 + 1;
      at + 8 <= |Layout(v)| && Layout(v)[at..at + 8] == Eight(n)
  {
    hide LabelBytes;
    hide Four;
    hide Eight;
    var start := [0x44, 0x50, 0x43, 0x42, 0, 1];
    var before := start + Prefixed(v.candidateId) + Prefixed(v.rawPath) + Eight(v.logicalBytes);
    var at := 10 + |v.candidateId| + 4 + |v.rawPath| + 8 + 1;
    assert |before| + 1 == at;
    var rest := Layout(v)[|before|..];
    assert TimeBytes(v.observedAt) == [1] + Eight(n) + Four(v.observedAt.value.nanos);
    hide Prefixed;
    assert Layout(v)[..|before|] == before;
    assert rest[..1] == [1] && rest[1..9] == Eight(n);
    assert Layout(v)[at..at + 8] == rest[1..9];
  }

  /** The separator of the digest is the text `diskplan/evidence/v1` and a zero byte. */
  lemma DomainIsText()
    ensures var text := "diskplan/evidence/v1";
      && |EVIDENCE_DOMAIN| == |text| + 1 && EVIDENCE_DOMAIN[|text|] == 0
      && forall i :: 0 <= i < |text| ==> EVIDENCE_DOMAIN[i] == text[i] as int
  {
  }

  // ------------------------------------------------------------------- the shared record

  // The binding of `proto/fixtures/canonical-binary-v1`, its labels out of order and repeated.
  const CACHE: Bytes := [0x63, 0x61, 0x63, 0x68, 0x65]
  const DECOMPOSED: Bytes := [0x65, 0xcc, 0x81]
  const SWIFT: Bytes := [0x73, 0x77, 0x69, 0x66, 0x74]
  const COMPOSED: Bytes := [0xc3, 0xa9]
  const SHARED := EvidenceBinding(
    [0x63, 0x61, 0x6e, 0x64, 0x69, 0x64, 0x61, 0x74, 0x65, 0x2d, 0x61, 0x6c, 0x70, 0x68, 0x61],
    [0xff, 0x74, 0x61, 0x72, 0x67, 0x65, 0x74, 0x2f, 0x63, 0x61, 0x63, 0x68, 0x65],
    4_294_967_297,
    Some(Timestamp(1_700_000_000, 123_456_789)),
    Activity.Unknown,
    Complete,
    [SWIFT, CACHE, CACHE, COMPOSED, DECOMPOSED, COMPOSED, DECOMPOSED])
  const IN_ORDER: Labels := [CACHE, DECOMPOSED, SWIFT, COMPOSED]

  // Its hundred bytes, field by field.
  const GOLDEN_LABELS: Bytes :=
    ([0x00, 0x00, 0x00, 0x05] + CACHE)
    + (([0x00, 0x00, 0x00, 0x03] + DECOMPOSED)
       + (([0x00, 0x00, 0x00, 0x05] + SWIFT)
          + ([0x00, 0x00, 0x00, 0x02] + COMPOSED)))
  const GOLDEN: Bytes :=
    [0x44, 0x50, 0x43, 0x42, 0x00, 0x01]
    + ([0x00, 0x00, 0x00, 0x0f] + SHARED.candidateId)
    + ([0x00, 0x00, 0x00, 0x0d] + SHARED.rawPath)
    + ([0x00, 0x00, 0x00, 0x01] + [0x00, 0x00, 0x00, 0x01])
    + ([0x01] + ([0x00, 0x00, 0x00, 0x00] + [0x65, 0x53, 0xf1, 0x00]) + [0x07, 0x5b, 0xcd, 0x15])
    + [0x01] + [0x01]
    + [0x00, 0x00, 0x00, 0x04] + GOLDEN_LABELS

  lemma SharedLabels()
    ensures CanonicalForm(SHARED.labels) == IN_ORDER
  {
    CanonicalFormIsAscending(SHARED.labels);
    hide CanonicalForm;
    assert Less(CACHE, DECOMPOSED) && Less(DECOMPOSED, SWIFT) && Less(SWIFT, COMPOSED);
    assert Ascending(IN_ORDER);
    assert Members(SHARED.labels) == {CACHE, DECOMPOSED, SWIFT, COMPOSED} == Members(IN_ORDER);
    AscendingIsUnique(CanonicalForm(SHARED.labels), IN_ORDER);
  }

  lemma SharedNumbers()
    ensures Four(15) == [0x00, 0x00, 0x00, 0x0f] && Four(13) == [0x00, 0x00, 0x00, 0x0d]
    ensures Four(5) == [0x00, 0x00, 0x00, 0x05] && Four(4) == [0x00, 0x00, 0x00, 0x04]
    ensures Four(3) == [0x00, 0x00, 0x00, 0x03] && Four(2) == [0x00, 0x00, 0x00, 0x02]
    ensures Four(123_456_789) == [0x07, 0x5b, 0xcd, 0x15]
    ensures Eight(4_294_967_297) == [0x00, 0x00, 0x00, 0x01] + [0x00, 0x00, 0x00, 0x01]
    ensures Eight(1_700_000_000) == [0x00, 0x00, 0x00, 0x00] + [0x65, 0x53, 0xf1, 0x00]
  {
    assert Four(1) == [0x00, 0x00, 0x00, 0x01] && Four(0) == [0x00, 0x00, 0x00, 0x00];
    assert Four(1_700_000_000) == [0x65, 0x53, 0xf1, 0x00];
  }

  lemma SharedLabelBytes()
    ensures LabelBytes(IN_ORDER) == GOLDEN_LABELS
  {
    SharedNumbers();
    hide Four;
    FirstLabel(COMPOSED, []);
    FirstLabel(SWIFT, [COMPOSED]);
    FirstLabel(DECOMPOSED, [SWIFT, COMPOSED]);
    FirstLabel(CACHE, [DECOMPOSED, SWIFT, COMPOSED]);
    hide LabelBytes;
    assert [SWIFT] + [COMPOSED] == [SWIFT, COMPOSED];
    assert [DECOMPOSED] + [SWIFT, COMPOSED] == [DECOMPOSED, SWIFT, COMPOSED];
    assert [CACHE] + [DECOMPOSED, SWIFT, COMPOSED] == IN_ORDER;
  }

  lemma FirstLabel(l: Bytes, ls: Labels)
    requires |l| < 0x1_0000_0000 && forall m :: m in ls ==> |m| < 0x1_0000_0000
    ensures LabelBytes([l] + ls) == Prefixed(l) + LabelBytes(ls)
  {
    assert ([l] + ls)[1..] == ls;
  }

  lemma SharedLayout()
    ensures Layout(SHARED.(labels := IN_ORDER)) == GOLDEN
  {
    hide Four;
    hide Eight;
    hide LabelBytes;
    SharedNumbers();
    SharedLabelBytes();
  }

  /** Both languages agree on this record byte for byte. */
  lemma SharedRecord(utf8: Bytes -> bool)
    requires Typed(SHARED, utf8)
    ensures Encode(SHARED) == Ok(GOLDEN)
    ensures Decode(GOLDEN, utf8) == Ok(SHARED.(labels := IN_ORDER))
  {
    hide CanonicalForm;
    hide Decode;
    hide Layout;
    hide Fields;
    SharedLabels();
    SharedLayout();
    assert Encode(SHARED).Ok?;
    EncodingIsLaidOut(SHARED, utf8);
    RoundTrip(SHARED, utf8);
  }
}
