/** The canonical evidence record: its fields, its encoding and its decoding. */
module CanonicalRecord {
  import opened Wrappers
  import opened Numbers
  import opened CanonicalCodec
  import opened CanonicalLabels

  datatype Timestamp = Timestamp(seconds: int, nanos: nat)

  datatype Activity = Absent | Unknown | Inactive | Active

  datatype Coverage = Unknown | Complete | Partial | Unreadable | Failed

  /** Text is its bytes in UTF-8. */
  datatype EvidenceBinding = EvidenceBinding(
    candidateId: Bytes,
    rawPath: Bytes,
    logicalBytes: nat,
    observedAt: Option<Timestamp>,
    activity: Activity,
    coverage: Coverage,
    labels: Labels)

  function ActivityCode(a: Activity): (n: Byte)
    ensures n < 4 && ActivityFrom(n) == a
  {
    match a case Absent => 0 case Unknown => 1 case Inactive => 2 case Active => 3
  }

  function ActivityFrom(n: nat): Activity {
    if n == 0 then Absent else if n == 1 then Activity.Unknown else if n == 2 then Inactive else Active
  }

  function CoverageCode(c: Coverage): (n: Byte)
    ensures n < 5 && CoverageFrom(n) == c
  {
    match c case Unknown => 0 case Complete => 1 case Partial => 2 case Unreadable => 3 case Failed => 4
  }

  function CoverageFrom(n: nat): Coverage {
    if n == 0 then Coverage.Unknown else if n == 1 then Complete else if n == 2 then Partial
    else if n == 3 then Unreadable else Failed
  }

  // ------------------------------------------------------------------ single fields

  const MAGIC: Bytes := [0x44, 0x50, 0x43, 0x42]
  const VERSION: nat := 1
  const NANOS_PER_SECOND: nat := 1_000_000_000

  function ReadMagic(s: Bytes): Step<()> {
    match Take(s, 4, Magic)
    case Stop(e) => Stop(e)
    case Got(b, r) => if b == MAGIC then Got((), r) else Stop(InvalidMagic)
  }

  function ReadVersion(s: Bytes): Step<()> {
    match ReadNumber(s, 2, Version)
    case Stop(e) => Stop(e)
    case Got(n, r) => if n == VERSION then Got((), r) else Stop(UnsupportedVersion(n))
  }

  function ReadByte(s: Bytes, field: Field): Step<Byte> {
    match Take(s, 1, field)
    case Stop(e) => Stop(e)
    case Got(b, r) => Got(b[0], r)
  }

  /** A one-byte code below `count`. */
  function ReadCode(s: Bytes, field: Field, count: nat): Step<Byte> {
    match ReadByte(s, field)
    case Stop(e) => Stop(e)
    case Got(n, r) => if n < count then Got(n, r) else Stop(UnknownVariant(field, n))
  }

  function ReadTimestamp(s: Bytes): Step<Timestamp> {
    match ReadNumber(s, 8, ObservedAtSeconds)
    case Stop(e) => Stop(e)
    case Got(seconds, r) =>
      (match ReadNumber(r, 4, ObservedAtNanos)
       case Stop(e) => Stop(e)
       case Got(nanos, q) =>
         if nanos >= NANOS_PER_SECOND then Stop(InvalidNanoseconds) else Got(Timestamp(ToSigned(seconds), nanos), q))
  }

  function ReadObservedAt(s: Bytes): Step<Option<Timestamp>> {
    match ReadByte(s, ObservedAtVariant)
    case Stop(e) => Stop(e)
    case Got(n, r) =>
      if n == 0 then Got(None, r)
      else if n == 1 then
        (match ReadTimestamp(r) case Stop(e) => Stop(e) case Got(t, q) => Got(Some(t), q))
      else Stop(UnknownVariant(ObservedAt, n))
  }

  predicate TimestampFits(t: Timestamp) {
    -TWO63 <= t.seconds < TWO63 && t.nanos < NANOS_PER_SECOND
  }

  predicate ObservedAtFits(o: Option<Timestamp>) {
    o.Some? ==> TimestampFits(o.value)
  }

  function WriteTimestamp(t: Timestamp): Bytes
    requires -TWO63 <= t.seconds < TWO63
  {
    BigEndian(FromSigned(t.seconds), 8) + BigEndian(t.nanos, 4)
  }

  function WriteObservedAt(o: Option<Timestamp>): Bytes
    requires o.Some? ==> -TWO63 <= o.value.seconds < TWO63
  {
    if o.None? then [0] else [1] + WriteTimestamp(o.value)
  }

  function ReadMany(s: Bytes, count: nat, utf8: Bytes -> bool): Step<Labels> {
    if count == 0 then Got([], s)
    else match ReadText(s, Label, utf8)
         case Stop(e) => Stop(e)
         case Got(l, r) =>
           (match ReadMany(r, count - 1, utf8) case Stop(e) => Stop(e) case Got(ls, q) => Got([l] + ls, q))
  }

  function WriteMany(ls: Labels): Bytes {
    if ls == [] then [] else WriteBlob(ls[0]) + WriteMany(ls[1..])
  }

  /** The count, refused early when the rest is too short for it; the labels; then their order. */
  function ReadLabels(s: Bytes, utf8: Bytes -> bool): Step<Labels> {
    match ReadNumber(s, 4, LabelCount)
    case Stop(e) => Stop(e)
    case Got(n, r) =>
      if n > |r| / 4 then Stop(Truncated(LabelCount))
      else match ReadMany(r, n, utf8)
           case Stop(e) => Stop(e)
           case Got(ls, q) => if Ascending(ls) then Got(ls, q) else Stop(NonCanonicalLabels)
  }

  function WriteLabels(ls: Labels): Bytes {
    BigEndian(|ls|, 4) + WriteMany(ls)
  }

  predicate LabelsFit(ls: Labels, utf8: Bytes -> bool) {
    |ls| < LIMIT32 && Ascending(ls) && forall l :: l in ls ==> TextFits(l, utf8)
  }

  // ------------------------------------------------------------------- the whole record

  /** What the types of both languages guarantee of a binding. */
  predicate Typed(v: EvidenceBinding, utf8: Bytes -> bool) {
    && utf8(v.candidateId) && (forall l :: l in v.labels ==> utf8(l))
    && v.logicalBytes < TWO64
    && (v.observedAt.Some? ==> -TWO63 <= v.observedAt.value.seconds < TWO63 && v.observedAt.value.nanos < LIMIT32)
  }

  function Canonical(v: EvidenceBinding): EvidenceBinding {
    v.(labels := CanonicalForm(v.labels))
  }

  function Fields(v: EvidenceBinding): Bytes
    requires v.observedAt.Some? ==> -TWO63 <= v.observedAt.value.seconds < TWO63
  {
    MAGIC + BigEndian(VERSION, 2) + WriteBlob(v.candidateId) + WriteBlob(v.rawPath) + BigEndian(v.logicalBytes, 8)
    + WriteObservedAt(v.observedAt) + [ActivityCode(v.activity)] + [CoverageCode(v.coverage)] + WriteLabels(v.labels)
  }

  function Encode(v: EvidenceBinding): Result<Bytes, CanonicalError>
    requires v.observedAt.Some? ==> -TWO63 <= v.observedAt.value.seconds < TWO63
  {
    if v.observedAt.Some? && v.observedAt.value.nanos >= NANOS_PER_SECOND then Err(InvalidNanoseconds)
    else if |v.candidateId| >= LIMIT32 then Err(FieldTooLong(CandidateId))
    else if |v.rawPath| >= LIMIT32 then Err(FieldTooLong(RawPath))
    else if |CanonicalForm(v.labels)| >= LIMIT32 then Err(FieldTooLong(LabelCount))
    else if exists l :: l in v.labels && |l| >= LIMIT32 then Err(FieldTooLong(Label))
    else Ok(Fields(Canonical(v)))
  }

  type Tail = (Option<Timestamp>, (Byte, (Byte, Labels)))
  type Parts = ((), ((), (Bytes, (Bytes, (nat, Tail)))))

  function MagicCodec(): Codec<()> {
    Codec(s => ReadMagic(s), (u: ()) => MAGIC, (u: ()) => true)
  }

  function VersionCodec(): Codec<()> {
    Codec(s => ReadVersion(s), (u: ()) => BigEndian(VERSION, 2), (u: ()) => true)
  }

  function CodeCodec(field: Field, count: nat): Codec<Byte> {
    Codec(s => ReadCode(s, field, count), (n: Byte) => [n], (n: Byte) => n < count)
  }

  function ObservedAtCodec(): Codec<Option<Timestamp>> {
    Codec(s => ReadObservedAt(s), o => if ObservedAtFits(o) then WriteObservedAt(o) else [], o => ObservedAtFits(o))
  }

  function LabelsCodec(utf8: Bytes -> bool): Codec<Labels> {
    Codec(s => ReadLabels(s, utf8), ls => WriteLabels(ls), ls => LabelsFit(ls, utf8))
  }

  function TailCodec(utf8: Bytes -> bool): Codec<Tail> {
    Both(ObservedAtCodec(), Both(CodeCodec(ActivityField, 4), Both(CodeCodec(CoverageField, 5), LabelsCodec(utf8))))
  }

  function Record(utf8: Bytes -> bool): Codec<Parts> {
    Both(MagicCodec(), Both(VersionCodec(), Both(Text(CandidateId, utf8), Both(Blob(RawPath),
      Both(Number(8, LogicalBytes), TailCodec(utf8))))))
  }

  function PartsOf(v: EvidenceBinding): Parts {
    ((), ((), (v.candidateId, (v.rawPath, (v.logicalBytes,
      (v.observedAt, (ActivityCode(v.activity), (CoverageCode(v.coverage), v.labels))))))))
  }

  function BindingOf(p: Parts): EvidenceBinding {
    var q := p.1.1;
    var t := q.1.1.1;
    EvidenceBinding(q.0, q.1.0, q.1.1.0, t.0, ActivityFrom(t.1.0), CoverageFrom(t.1.1.0), t.1.1.1)
  }

  function Decode(s: Bytes, utf8: Bytes -> bool): Result<EvidenceBinding, CanonicalError> {
    match Record(utf8).read(s)
    case Stop(e) => Err(e)
    case Got(p, rest) => if rest != [] then Err(TrailingBytes) else Ok(BindingOf(p))
  }

  /** The domain separator that precedes a record in its digest: `diskplan/evidence/v1` and a zero. */
  const EVIDENCE_DOMAIN: Bytes := [
    0x64, 0x69, 0x73, 0x6b, 0x70, 0x6c, 0x61, 0x6e, 0x2f,
    0x65, 0x76, 0x69, 0x64, 0x65, 0x6e, 0x63, 0x65, 0x2f, 0x76, 0x31, 0x00]

  function Digest(record: Bytes, sha256: Bytes -> Bytes): Bytes {
    sha256(EVIDENCE_DOMAIN + record)
  }

  // --------------------------------------------------------------- laws of the fields

  lemma MagicIsLawful()
    ensures Lawful(MagicCodec())
  {
    var c := MagicCodec();
    forall v: (), x: Bytes | c.fits(v) ensures c.read(c.write(v) + x) == Got(v, x) {
      assert v == ();
      assert (MAGIC + x)[..4] == MAGIC && (MAGIC + x)[4..] == x;
    }
    forall s | c.read(s).Got? ensures c.fits(c.read(s).value) && s == c.write(c.read(s).value) + c.read(s).rest {
      assert s == s[..4] + s[4..];
    }
  }

  lemma VersionIsLawful()
    ensures Lawful(VersionCodec())
  {
    hide BigEndian;
    var c := VersionCodec();
    Widths();
    forall v: (), x: Bytes | c.fits(v) ensures c.read(c.write(v) + x) == Got(v, x) {
      assert v == ();
      NumberReadsBack(VERSION, x, 2, Version);
    }
    forall s | c.read(s).Got? ensures c.fits(c.read(s).value) && s == c.write(c.read(s).value) + c.read(s).rest {
      NumberIsStrict(s, 2, Version);
    }
  }

  lemma CodeIsLawful(field: Field, count: nat)
    ensures Lawful(CodeCodec(field, count))
  {
    var c := CodeCodec(field, count);
    forall v: Byte, x: Bytes | c.fits(v) ensures c.read(c.write(v) + x) == Got(v, x) {
      assert ([v] + x)[..1] == [v] && ([v] + x)[1..] == x;
    }
    forall s | c.read(s).Got? ensures c.fits(c.read(s).value) && s == c.write(c.read(s).value) + c.read(s).rest {
      assert s == [s[0]] + s[1..];
    }
  }

  lemma TimestampReadsBack(t: Timestamp, x: Bytes)
    requires TimestampFits(t)
    ensures ReadTimestamp(WriteTimestamp(t) + x) == Got(t, x)
  {
    hide BigEndian;
    hide ReadNumber;
    Widths();
    var seconds, nanos := BigEndian(FromSigned(t.seconds), 8), BigEndian(t.nanos, 4);
    SignedRoundTrips(0, t.seconds);
    NumberReadsBack(FromSigned(t.seconds), nanos + x, 8, ObservedAtSeconds);
    NumberReadsBack(t.nanos, x, 4, ObservedAtNanos);
    assert WriteTimestamp(t) + x == seconds + (nanos + x);
  }

  lemma TimestampIsStrict(s: Bytes)
    requires ReadTimestamp(s).Got?
    ensures TimestampFits(ReadTimestamp(s).value)
    ensures s == WriteTimestamp(ReadTimestamp(s).value) + ReadTimestamp(s).rest
  {
    hide BigEndian;
    hide ReadNumber;
    Widths();
    NumberIsStrict(s, 8, ObservedAtSeconds);
    var seconds, r := ReadNumber(s, 8, ObservedAtSeconds).value, ReadNumber(s, 8, ObservedAtSeconds).rest;
    NumberIsStrict(r, 4, ObservedAtNanos);
    SignedRoundTrips(seconds, 0);
  }

  lemma TimestampEndsEarly(t: Timestamp, k: nat)
    requires TimestampFits(t) && k < 12
    ensures ReadTimestamp(WriteTimestamp(t)[..k]).Stop? && ReadTimestamp(WriteTimestamp(t)[..k]).error.Truncated?
  {
    Widths();
    hide Pow256;
    hide Value;
    if k >= 8 {
      var seconds, nanos := BigEndian(FromSigned(t.seconds), 8), BigEndian(t.nanos, 4);
      SignedRoundTrips(0, t.seconds);
      hide BigEndian;
      NumberReadsBack(FromSigned(t.seconds), nanos[..k - 8], 8, ObservedAtSeconds);
      assert WriteTimestamp(t)[..k] == seconds + nanos[..k - 8];
    }
  }

  lemma ObservedAtIsLawful()
    ensures Lawful(ObservedAtCodec())
  {
    hide ReadTimestamp;
    hide WriteTimestamp;
    var c := ObservedAtCodec();
    forall v, x: Bytes | c.fits(v) ensures c.read(c.write(v) + x) == Got(v, x) {
      ObservedAtReadsBack(v, x);
    }
    forall s | c.read(s).Got? ensures c.fits(c.read(s).value) && s == c.write(c.read(s).value) + c.read(s).rest {
      ObservedAtIsStrict(s);
    }
    forall v, k: nat | c.fits(v) && k < |c.write(v)|
      ensures c.read(c.write(v)[..k]).Stop? && c.read(c.write(v)[..k]).error.Truncated?
    {
      ObservedAtEndsEarly(v, k);
    }
  }

  lemma ObservedAtReadsBack(o: Option<Timestamp>, x: Bytes)
    requires ObservedAtFits(o)
    ensures ReadObservedAt(WriteObservedAt(o) + x) == Got(o, x)
  {
    hide ReadTimestamp;
    hide WriteTimestamp;
    var s := WriteObservedAt(o) + x;
    if o.None? {
      assert s[1..] == x;
    } else {
      assert s[1..] == WriteTimestamp(o.value) + x;
      TimestampReadsBack(o.value, x);
    }
  }

  lemma ObservedAtIsStrict(s: Bytes)
    requires ReadObservedAt(s).Got?
    ensures ObservedAtFits(ReadObservedAt(s).value)
    ensures s == WriteObservedAt(ReadObservedAt(s).value) + ReadObservedAt(s).rest
  {
    hide ReadTimestamp;
    hide WriteTimestamp;
    assert s == [s[0]] + s[1..];
    if s[0] == 1 {
      TimestampIsStrict(s[1..]);
    }
  }

  lemma ObservedAtEndsEarly(o: Option<Timestamp>, k: nat)
    requires ObservedAtFits(o) && k < |WriteObservedAt(o)|
    ensures ReadObservedAt(WriteObservedAt(o)[..k]).Stop? && ReadObservedAt(WriteObservedAt(o)[..k]).error.Truncated?
  {
    hide ReadTimestamp;
    if k > 0 {
      assert WriteObservedAt(o)[..k][1..] == WriteTimestamp(o.value)[..k - 1];
      TimestampEndsEarly(o.value, k - 1);
    }
  }

  // -------------------------------------------------------------------- label lists

  lemma {:induction false} ManyReadsBack(ls: Labels, x: Bytes, utf8: Bytes -> bool)
    requires forall l :: l in ls ==> TextFits(l, utf8)
    ensures ReadMany(WriteMany(ls) + x, |ls|, utf8) == Got(ls, x)
  {
    hide ReadBlob;
    hide WriteBlob;
    if ls == [] {
      assert WriteMany(ls) + x == x;
    } else {
      var rest := WriteMany(ls[1..]) + x;
      assert WriteMany(ls) + x == WriteBlob(ls[0]) + rest;
      assert ls[0] in ls;
      BlobReadsBack(ls[0], rest, Label);
      ManyReadsBack(ls[1..], x, utf8);
      assert ls == [ls[0]] + ls[1..];
    }
  }

  lemma {:induction false} ManyIsStrict(s: Bytes, count: nat, utf8: Bytes -> bool)
    requires ReadMany(s, count, utf8).Got?
    ensures var ls := ReadMany(s, count, utf8).value;
            |ls| == count && (forall l :: l in ls ==> TextFits(l, utf8))
            && s == WriteMany(ls) + ReadMany(s, count, utf8).rest
    decreases count
  {
    hide ReadBlob;
    hide WriteBlob;
    if count > 0 {
      BlobIsStrict(s, Label);
      var l, r := ReadText(s, Label, utf8).value, ReadText(s, Label, utf8).rest;
      ManyIsStrict(r, count - 1, utf8);
      var ls := ReadMany(r, count - 1, utf8).value;
      assert ([l] + ls)[1..] == ls;
      assert WriteMany([l] + ls) == WriteBlob(l) + WriteMany(ls);
    }
  }

  lemma {:induction false} ManyEndsEarly(ls: Labels, k: nat, utf8: Bytes -> bool)
    requires (forall l :: l in ls ==> TextFits(l, utf8)) && k < |WriteMany(ls)|
    ensures ReadMany(WriteMany(ls)[..k], |ls|, utf8).Stop? && ReadMany(WriteMany(ls)[..k], |ls|, utf8).error.Truncated?
  {
    hide ReadBlob;
    hide WriteBlob;
    var first, rest := WriteBlob(ls[0]), WriteMany(ls[1..]);
    assert ls[0] in ls;
    if k < |first| {
      assert WriteMany(ls)[..k] == first[..k];
      BlobEndsEarly(ls[0], k, Label);
    } else {
      assert WriteMany(ls)[..k] == first + rest[..k - |first|];
      BlobReadsBack(ls[0], rest[..k - |first|], Label);
      ManyEndsEarly(ls[1..], k - |first|, utf8);
    }
  }

  lemma {:induction false} ManyIsLongEnough(ls: Labels)
    ensures |WriteMany(ls)| >= 4 * |ls|
  {
    if ls != [] {
      ManyIsLongEnough(ls[1..]);
    }
  }

  /** The early check refuses only counts that the label loop itself would refuse. */
  lemma EarlyCheckRefusesNothingMore(s: Bytes, count: nat, utf8: Bytes -> bool)
    ensures count > |s| / 4 ==> ReadMany(s, count, utf8).Stop?
  {
    if ReadMany(s, count, utf8).Got? {
      ManyIsStrict(s, count, utf8);
      ManyIsLongEnough(ReadMany(s, count, utf8).value);
    }
  }

  /** The label loop blames a label, never the count. */
  lemma {:induction false} ErrorsOfMany(s: Bytes, count: nat, utf8: Bytes -> bool)
    ensures ReadMany(s, count, utf8).Stop? ==>
      ReadMany(s, count, utf8).error == Truncated(Label) || ReadMany(s, count, utf8).error == InvalidUtf8(Label)
    decreases count
  {
    if count > 0 && ReadText(s, Label, utf8).Got? {
      ErrorsOfMany(ReadText(s, Label, utf8).rest, count - 1, utf8);
    }
  }

  /** The reader without the early check. */
  function ReadLabelsUnchecked(s: Bytes, utf8: Bytes -> bool): Step<Labels> {
    match ReadNumber(s, 4, LabelCount)
    case Stop(e) => Stop(e)
    case Got(n, r) =>
      match ReadMany(r, n, utf8)
      case Stop(e) => Stop(e)
      case Got(ls, q) => if Ascending(ls) then Got(ls, q) else Stop(NonCanonicalLabels)
  }

  /** The early check never changes whether labels are accepted. It changes the answer exactly when
      it fires, for then it blames the count where the loop would have blamed a label. */
  lemma EarlyCheckShowsExactlyWhen(s: Bytes, utf8: Bytes -> bool)
    ensures ReadLabels(s, utf8).Got? <==> ReadLabelsUnchecked(s, utf8).Got?
    ensures ReadLabels(s, utf8) != ReadLabelsUnchecked(s, utf8) <==> |s| >= 4 && Value(s[..4]) > |s[4..]| / 4
  {
    if |s| >= 4 {
      EarlyCheckRefusesNothingMore(s[4..], Value(s[..4]), utf8);
      ErrorsOfMany(s[4..], Value(s[..4]), utf8);
      hide ReadMany;
      hide Value;
    }
  }

  /** It can hide that a label is invalid text, which comes before the bytes run out. */
  lemma EarlyCheckCanChangeTheError(b: Byte, utf8: Bytes -> bool)
    requires !utf8([b])
    ensures ReadMany([0, 0, 0, 1, b], 2, utf8) == Stop(InvalidUtf8(Label))
    ensures ReadLabels([0, 0, 0, 2] + [0, 0, 0, 1, b], utf8) == Stop(Truncated(LabelCount))
  {
    Widths();
    var one, two := BigEndian(1, 4), BigEndian(2, 4);
    assert BigEndian(0, 3) == [0, 0, 0] by {
      assert BigEndian(0, 1) == [0] && BigEndian(0, 2) == [0, 0];
    }
    assert one == [0, 0, 0, 1] && two == [0, 0, 0, 2];
    hide BigEndian;
    hide Value;
    assert [0, 0, 0, 1, b] == one + [b];
    NumberReadsBack(1, [b], 4, Label);
    assert [b][..1] == [b];
    NumberReadsBack(2, [0, 0, 0, 1, b], 4, LabelCount);
  }

  lemma LabelsAreLawful(utf8: Bytes -> bool)
    ensures Lawful(LabelsCodec(utf8))
  {
    hide ReadLabels;
    hide WriteLabels;
    hide LabelsFit;
    var c := LabelsCodec(utf8);
    forall v, x: Bytes | c.fits(v) ensures c.read(c.write(v) + x) == Got(v, x) {
      LabelsReadBack(v, x, utf8);
    }
    forall s | c.read(s).Got? ensures c.fits(c.read(s).value) && s == c.write(c.read(s).value) + c.read(s).rest {
      LabelsAreStrict(s, utf8);
    }
    forall v, k: nat | c.fits(v) && k < |c.write(v)|
      ensures c.read(c.write(v)[..k]).Stop? && c.read(c.write(v)[..k]).error.Truncated?
    {
      LabelsEndEarly(v, k, utf8);
    }
  }

  lemma LabelsReadBack(ls: Labels, x: Bytes, utf8: Bytes -> bool)
    requires LabelsFit(ls, utf8)
    ensures ReadLabels(WriteLabels(ls) + x, utf8) == Got(ls, x)
  {
    hide ReadMany;
    hide WriteMany;
    hide BigEndian;
    hide ReadNumber;
    Widths();
    var rest := WriteMany(ls) + x;
    assert WriteLabels(ls) + x == BigEndian(|ls|, 4) + rest;
    NumberReadsBack(|ls|, rest, 4, LabelCount);
    ManyIsLongEnough(ls);
    ManyReadsBack(ls, x, utf8);
  }

  lemma LabelsAreStrict(s: Bytes, utf8: Bytes -> bool)
    requires ReadLabels(s, utf8).Got?
    ensures LabelsFit(ReadLabels(s, utf8).value, utf8)
    ensures s == WriteLabels(ReadLabels(s, utf8).value) + ReadLabels(s, utf8).rest
  {
    hide ReadMany;
    hide WriteMany;
    hide BigEndian;
    hide ReadNumber;
    Widths();
    NumberIsStrict(s, 4, LabelCount);
    ManyIsStrict(ReadNumber(s, 4, LabelCount).rest, ReadNumber(s, 4, LabelCount).value, utf8);
  }

  lemma LabelsEndEarly(ls: Labels, k: nat, utf8: Bytes -> bool)
    requires LabelsFit(ls, utf8) && k < |WriteLabels(ls)|
    ensures ReadLabels(WriteLabels(ls)[..k], utf8).Stop? && ReadLabels(WriteLabels(ls)[..k], utf8).error.Truncated?
  {
    hide ReadMany;
    hide WriteMany;
    hide BigEndian;
    if k >= 4 {
      hide ReadNumber;
      Widths();
      var rest := WriteMany(ls)[..k - 4];
      assert WriteLabels(ls)[..k] == BigEndian(|ls|, 4) + rest;
      NumberReadsBack(|ls|, rest, 4, LabelCount);
      ManyEndsEarly(ls, k - 4, utf8);
    }
  }
}
