/** What a record with one bad field is refused for, whatever follows that field. */
module CanonicalFaults {
  import opened Wrappers
  import opened Numbers
  import opened CanonicalCodec
  import opened CanonicalLabels
  import opened CanonicalRecord
  import opened CanonicalSteps
  import opened CanonicalLayout

  /** The record up to the logical size. */
  function Head(id: Bytes, path: Bytes, size: nat): Bytes
    requires |id| < 0x1_0000_0000 && |path| < 0x1_0000_0000 && size < TWO64
  {
    [0x44, 0x50, 0x43, 0x42, 0, 1] + Prefixed(id) + Prefixed(path) + Eight(size)
  }

  lemma StartIsRead(x: Bytes)
    ensures ReadMagic([0x44, 0x50, 0x43, 0x42, 0, 1] + x) == Got((), [0, 1] + x)
    ensures ReadVersion([0, 1] + x) == Got((), x)
  {
    var s := [0x44, 0x50, 0x43, 0x42, 0, 1] + x;
    assert s[..4] == MAGIC && s[4..] == [0, 1] + x;
    VersionIsWritten();
    Widths();
    assert BigEndian(VERSION, 2) == (MAGIC + BigEndian(VERSION, 2))[4..] == [0, 1];
    hide BigEndian;
    hide Value;
    NumberReadsBack(VERSION, x, 2, Version);
  }

  lemma PrefixedIsRead(b: Bytes, x: Bytes, field: Field)
    requires |b| < 0x1_0000_0000
    ensures ReadBlob(Prefixed(b) + x, field) == Got(b, x)
  {
    PrefixedIsBlob(b);
    BlobReadsBack(b, x, field);
  }

  lemma EightIsRead(n: nat, x: Bytes, field: Field)
    requires n < TWO64
    ensures ReadNumber(Eight(n) + x, 8, field) == Got(n, x)
  {
    EightBytes(n);
    Widths();
    NumberReadsBack(n, x, 8, field);
  }

  lemma FourIsRead(n: nat, x: Bytes, field: Field)
    requires n < 0x1_0000_0000
    ensures ReadNumber(Four(n) + x, 4, field) == Got(n, x)
  {
    FourBytes(n);
    Widths();
    NumberReadsBack(n, x, 4, field);
  }

  lemma HeadIsRead(id: Bytes, path: Bytes, size: nat, x: Bytes, utf8: Bytes -> bool)
    requires |id| < 0x1_0000_0000 && utf8(id) && |path| < 0x1_0000_0000 && size < TWO64
    ensures Decode(Head(id, path, size) + x, utf8) ==
      ThenObservedAt(EMPTY.(candidateId := id, rawPath := path, logicalBytes := size), x, utf8)
  {
    hide Decode;
    hide Prefixed;
    hide Eight;
    hide ReadMagic;
    hide ReadVersion;
    hide ReadBlob;
    hide ReadNumber;
    hide ThenObservedAt;
    var fromSize := Eight(size) + x;
    var fromPath := Prefixed(path) + fromSize;
    var fromId := Prefixed(id) + fromPath;
    DecodeIsFieldByField(Head(id, path, size) + x, utf8);
    assert Head(id, path, size) + x == [0x44, 0x50, 0x43, 0x42, 0, 1] + fromId;
    StartIsRead(fromId);
    PrefixedIsRead(id, fromPath, CandidateId);
    PrefixedIsRead(path, fromSize, RawPath);
    EightIsRead(size, x, LogicalBytes);
  }

  lemma TimeIsRead(o: Option<Timestamp>, x: Bytes)
    requires o.Some? ==> TimestampFits(o.value)
    ensures ReadObservedAt(TimeBytes(o) + x) == Got(o, x)
  {
    hide ReadObservedAt;
    TimeIsWritten(o);
    hide TimeBytes;
    hide WriteObservedAt;
    ObservedAtReadsBack(o, x);
  }

  // -------------------------------------------------------------------- main results

  /** Before anything else: the four bytes `DPCB`, and version 1. */
  lemma BadStart(s: Bytes, utf8: Bytes -> bool)
    ensures |s| < 4 ==> Decode(s, utf8) == Err(Truncated(Magic))
    ensures |s| >= 4 && s[..4] != [0x44, 0x50, 0x43, 0x42] ==> Decode(s, utf8) == Err(InvalidMagic)
    ensures 4 <= |s| < 6 && s[..4] == [0x44, 0x50, 0x43, 0x42] ==> Decode(s, utf8) == Err(Truncated(Version))
    ensures |s| >= 6 && s[..4] == [0x44, 0x50, 0x43, 0x42] && s[4..6] != [0, 1] ==>
      Decode(s, utf8) == Err(UnsupportedVersion(256 * (s[4] as int) + s[5]))
  {
    hide Decode;
    hide ThenCandidateId;
    DecodeIsFieldByField(s, utf8);
    if |s| >= 6 {
      var b := s[4..][..2];
      assert b == [s[4], s[5]] == s[4..6];
      assert b[..1] == [s[4]] && b[..1][..0] == [];
      assert Value(b[..1]) == s[4];
    }
  }

  lemma BadIdentifier(id: Bytes, x: Bytes, utf8: Bytes -> bool)
    requires |id| < 0x1_0000_0000 && !utf8(id)
    ensures Decode([0x44, 0x50, 0x43, 0x42, 0, 1] + Prefixed(id) + x, utf8) == Err(InvalidUtf8(CandidateId))
  {
    hide Decode;
    hide Prefixed;
    hide ReadMagic;
    hide ReadVersion;
    hide ReadBlob;
    var s := [0x44, 0x50, 0x43, 0x42, 0, 1] + Prefixed(id) + x;
    DecodeIsFieldByField(s, utf8);
    assert s == [0x44, 0x50, 0x43, 0x42, 0, 1] + (Prefixed(id) + x);
    StartIsRead(Prefixed(id) + x);
    PrefixedIsRead(id, x, CandidateId);
  }

  /** After the head: a presence byte of 0 or 1. */
  lemma BadPresence(id: Bytes, path: Bytes, size: nat, n: Byte, x: Bytes, utf8: Bytes -> bool)
    requires |id| < 0x1_0000_0000 && utf8(id) && |path| < 0x1_0000_0000 && size < TWO64 && n > 1
    ensures Decode(Head(id, path, size) + ([n] + x), utf8) == Err(UnknownVariant(ObservedAt, n))
  {
    hide Decode;
    hide Head;
    HeadIsRead(id, path, size, [n] + x, utf8);
  }

  /** And fewer nanoseconds than a second has. */
  lemma BadNanoseconds(id: Bytes, path: Bytes, size: nat, seconds: nat, nanos: nat, x: Bytes, utf8: Bytes -> bool)
    requires |id| < 0x1_0000_0000 && utf8(id) && |path| < 0x1_0000_0000 && size < TWO64
    requires seconds < TWO64 && 1_000_000_000 <= nanos < 0x1_0000_0000
    ensures Decode(Head(id, path, size) + ([1] + (Eight(seconds) + (Four(nanos) + x))), utf8) ==
      Err(InvalidNanoseconds)
  {
    hide Decode;
    hide Head;
    hide Eight;
    hide Four;
    hide ReadNumber;
    var time := Eight(seconds) + (Four(nanos) + x);
    HeadIsRead(id, path, size, [1] + time, utf8);
    assert ([1] + time)[1..] == time;
    EightIsRead(seconds, Four(nanos) + x, ObservedAtSeconds);
    FourIsRead(nanos, x, ObservedAtNanos);
  }

  /** Then a code below 4 and a code below 5. */
  lemma BadCode(id: Bytes, path: Bytes, size: nat, o: Option<Timestamp>, a: Byte, y: Bytes, utf8: Bytes -> bool)
    requires |id| < 0x1_0000_0000 && utf8(id) && |path| < 0x1_0000_0000 && size < TWO64
    requires o.Some? ==> TimestampFits(o.value)
    ensures a > 3 ==>
      Decode(Head(id, path, size) + (TimeBytes(o) + ([a] + y)), utf8) == Err(UnknownVariant(ActivityField, a))
    ensures a <= 3 && y != [] && y[0] > 4 ==>
      Decode(Head(id, path, size) + (TimeBytes(o) + ([a] + y)), utf8) == Err(UnknownVariant(CoverageField, y[0]))
  {
    hide Decode;
    hide Head;
    hide TimeBytes;
    hide ReadObservedAt;
    HeadIsRead(id, path, size, TimeBytes(o) + ([a] + y), utf8);
    TimeIsRead(o, [a] + y);
    assert ([a] + y)[1..] == y;
  }

  /** The record up to the labels. */
  function Body(id: Bytes, path: Bytes, size: nat, o: Option<Timestamp>, a: Byte, c: Byte, x: Bytes): Bytes
    requires |id| < 0x1_0000_0000 && |path| < 0x1_0000_0000 && size < TWO64 && (o.Some? ==> TimestampFits(o.value))
  {
    Head(id, path, size) + (TimeBytes(o) + ([a] + ([c] + x)))
  }

  lemma BodyIsRead(id: Bytes, path: Bytes, size: nat, o: Option<Timestamp>, a: Byte, c: Byte, x: Bytes,
                   utf8: Bytes -> bool)
    requires |id| < 0x1_0000_0000 && utf8(id) && |path| < 0x1_0000_0000 && size < TWO64
    requires (o.Some? ==> TimestampFits(o.value)) && a <= 3 && c <= 4
    ensures ReadLabels(x, utf8).Stop? ==>
      Decode(Body(id, path, size, o, a, c, x), utf8) == Err(ReadLabels(x, utf8).error)
  {
    hide Decode;
    hide Head;
    hide TimeBytes;
    hide ReadObservedAt;
    hide ReadLabels;
    HeadIsRead(id, path, size, TimeBytes(o) + ([a] + ([c] + x)), utf8);
    TimeIsRead(o, [a] + ([c] + x));
    assert ([a] + ([c] + x))[1..] == [c] + x && ([c] + x)[1..] == x;
  }

  /** Then the number of labels: no more than the bytes that follow have room for. */
  lemma BadCount(id: Bytes, path: Bytes, size: nat, o: Option<Timestamp>, a: Byte, c: Byte, count: nat, x: Bytes,
                 utf8: Bytes -> bool)
    requires |id| < 0x1_0000_0000 && utf8(id) && |path| < 0x1_0000_0000 && size < TWO64
    requires (o.Some? ==> TimestampFits(o.value)) && a <= 3 && c <= 4
    requires count < 0x1_0000_0000 && 4 * count > |x|
    ensures Decode(Body(id, path, size, o, a, c, Four(count) + x), utf8) == Err(Truncated(LabelCount))
  {
    hide Decode;
    hide Body;
    hide Four;
    hide ReadNumber;
    hide ReadMany;
    BodyIsRead(id, path, size, o, a, c, Four(count) + x, utf8);
    FourIsRead(count, x, LabelCount);
  }

  /** And the labels: each below the next. */
  lemma BadOrder(id: Bytes, path: Bytes, size: nat, o: Option<Timestamp>, a: Byte, c: Byte, ls: Labels, x: Bytes,
                 utf8: Bytes -> bool)
    requires |id| < 0x1_0000_0000 && utf8(id) && |path| < 0x1_0000_0000 && size < TWO64
    requires (o.Some? ==> TimestampFits(o.value)) && a <= 3 && c <= 4
    requires |ls| < 0x1_0000_0000 && forall l :: l in ls ==> |l| < 0x1_0000_0000 && utf8(l)
    requires exists i, j :: 0 <= i < j < |ls| && j == i + 1 && !Precedes(ls[i], ls[j])
    ensures Decode(Body(id, path, size, o, a, c, Four(|ls|) + (LabelBytes(ls) + x)), utf8) == Err(NonCanonicalLabels)
  {
    hide Decode;
    hide Body;
    hide Four;
    hide ReadNumber;
    hide LabelBytes;
    hide Precedes;
    hide ReadMany;
    hide Ascending;
    BodyIsRead(id, path, size, o, a, c, Four(|ls|) + (LabelBytes(ls) + x), utf8);
    FourIsRead(|ls|, LabelBytes(ls) + x, LabelCount);
    LabelsAreWritten(ls);
    ManyIsLongEnough(ls);
    ManyReadsBack(ls, x, utf8);
    OutOfOrder(ls);
  }

  lemma OutOfOrder(ls: Labels)
    ensures Ascending(ls) <==> forall i, j :: 0 <= i < j < |ls| && j == i + 1 ==> Precedes(ls[i], ls[j])
  {
    forall a: Bytes, b: Bytes ensures Less(a, b) <==> Precedes(a, b) {
      LessIsLexicographic(a, b);
    }
    hide Less;
    hide Precedes;
  }
}
