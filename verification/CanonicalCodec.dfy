/** Readers and writers of one field, the three laws they obey, and their composition. */
module CanonicalCodec {
  import opened Numbers

  datatype Field =
    | Magic | Version | CandidateId | RawPath | LogicalBytes
    | ObservedAtVariant | ObservedAtSeconds | ObservedAtNanos | ObservedAt
    | ActivityField | CoverageField | LabelCount | Label

  datatype CanonicalError =
    | Truncated(field: Field)
    | InvalidMagic
    | UnsupportedVersion(version: nat)
    | UnknownVariant(field: Field, value: nat)
    | InvalidUtf8(field: Field)
    | NonCanonicalLabels
    | InvalidNanoseconds
    | NonCanonicalEncoding
    | TrailingBytes
    | FieldTooLong(field: Field)

  /** A reader's answer: a value and the bytes after it, or an error. */
  datatype Step<+T> = Got(value: T, rest: Bytes) | Stop(error: CanonicalError)

  /** `fits` are the values that have an encoding. */
  datatype Codec<!T(!new)> = Codec(read: Bytes -> Step<T>, write: T -> Bytes, fits: T -> bool)

  /** What was written is read back, whatever follows it. */
  ghost predicate ReadsBack<T(!new)>(c: Codec<T>) {
    forall v, x :: c.fits(v) ==> c.read(c.write(v) + x) == Got(v, x)
  }

  /** Nothing else is read: what was consumed is what writing the value gives. */
  ghost predicate Strict<T(!new)>(c: Codec<T>) {
    forall s :: c.read(s).Got? ==>
      c.fits(c.read(s).value) && s == c.write(c.read(s).value) + c.read(s).rest
  }

  /** A proper prefix of what was written is reported as truncated. */
  ghost predicate EndsEarly<T(!new)>(c: Codec<T>) {
    forall v, k: nat :: c.fits(v) && k < |c.write(v)| ==>
      c.read(c.write(v)[..k]).Stop? && c.read(c.write(v)[..k]).error.Truncated?
  }

  ghost predicate Lawful<T(!new)>(c: Codec<T>) {
    ReadsBack(c) && Strict(c) && EndsEarly(c)
  }

  // --------------------------------------------------------------------- composition

  function Both<T(!new), U(!new)>(c: Codec<T>, d: Codec<U>): Codec<(T, U)> {
    Codec(
      s => match c.read(s)
           case Stop(e) => Stop(e)
           case Got(a, r) => (match d.read(r) case Stop(e) => Stop(e) case Got(b, q) => Got((a, b), q)),
      (p: (T, U)) => c.write(p.0) + d.write(p.1),
      (p: (T, U)) => c.fits(p.0) && d.fits(p.1))
  }

  lemma BothUnfolds<T(!new), U(!new)>(c: Codec<T>, d: Codec<U>, a: T, b: U)
    ensures Both(c, d).fits((a, b)) == (c.fits(a) && d.fits(b))
    ensures Both(c, d).write((a, b)) == c.write(a) + d.write(b)
  {
  }

  lemma BothReads<T(!new), U(!new)>(c: Codec<T>, d: Codec<U>, s: Bytes)
    ensures c.read(s).Stop? ==> Both(c, d).read(s) == Stop(c.read(s).error)
    ensures c.read(s).Got? ==>
      Both(c, d).read(s) == match d.read(c.read(s).rest)
                            case Stop(e) => Stop(e)
                            case Got(b, q) => Got((c.read(s).value, b), q)
  {
  }

  lemma BothIsLawful<T(!new), U(!new)>(c: Codec<T>, d: Codec<U>)
    requires Lawful(c) && Lawful(d)
    ensures Lawful(Both(c, d))
  {
    var b := Both(c, d);
    forall v, x | b.fits(v) ensures b.read(b.write(v) + x) == Got(v, x) {
      assert b.write(v) + x == c.write(v.0) + (d.write(v.1) + x);
    }
    forall s | b.read(s).Got? ensures b.fits(b.read(s).value) && s == b.write(b.read(s).value) + b.read(s).rest {
      var rest := c.read(s).rest;
      assert s == c.write(c.read(s).value) + rest;
      assert rest == d.write(d.read(rest).value) + d.read(rest).rest;
    }
    forall v, k: nat | b.fits(v) && k < |b.write(v)|
      ensures b.read(b.write(v)[..k]).Stop? && b.read(b.write(v)[..k]).error.Truncated?
    {
      var front, back := c.write(v.0), d.write(v.1);
      if k < |front| {
        assert b.write(v)[..k] == front[..k];
      } else {
        assert b.write(v)[..k] == front + back[..k - |front|];
      }
    }
  }

  // -------------------------------------------------------------------------- fields

  function Take(s: Bytes, count: nat, field: Field): Step<Bytes> {
    if |s| < count then Stop(Truncated(field)) else Got(s[..count], s[count..])
  }

  function ReadNumber(s: Bytes, width: nat, field: Field): Step<nat> {
    match Take(s, width, field)
    case Stop(e) => Stop(e)
    case Got(b, r) => Got(Value(b), r)
  }

  function Number(width: nat, field: Field): Codec<nat> {
    Codec(s => ReadNumber(s, width, field), n => BigEndian(n, width), n => n < Pow256(width))
  }

  lemma NumberReadsBack(v: nat, x: Bytes, width: nat, field: Field)
    requires v < Pow256(width)
    ensures ReadNumber(BigEndian(v, width) + x, width, field) == Got(v, x)
  {
    var s := BigEndian(v, width) + x;
    assert s[..width] == BigEndian(v, width) && s[width..] == x;
    ValueOfBigEndian(v, width);
  }

  lemma NumberIsStrict(s: Bytes, width: nat, field: Field)
    requires ReadNumber(s, width, field).Got?
    ensures ReadNumber(s, width, field).value < Pow256(width)
    ensures s == BigEndian(ReadNumber(s, width, field).value, width) + ReadNumber(s, width, field).rest
  {
    ValueBounds(s[..width]);
    BigEndianOfValue(s[..width]);
    assert s == s[..width] + s[width..];
  }

  lemma NumberIsLawful(width: nat, field: Field)
    ensures Lawful(Number(width, field))
  {
    hide Pow256;
    hide BigEndian;
    var c := Number(width, field);
    forall v: nat, x: Bytes | c.fits(v) ensures c.read(c.write(v) + x) == Got(v, x) {
      NumberReadsBack(v, x, width, field);
    }
    forall s | c.read(s).Got? ensures c.fits(c.read(s).value) && s == c.write(c.read(s).value) + c.read(s).rest {
      NumberIsStrict(s, width, field);
    }
  }

  const LIMIT32: nat := 0x1_0000_0000

  /** A length in four bytes, then that many bytes. */
  function ReadBlob(s: Bytes, field: Field): Step<Bytes> {
    match ReadNumber(s, 4, field)
    case Stop(e) => Stop(e)
    case Got(n, r) => Take(r, n, field)
  }

  function WriteBlob(b: Bytes): Bytes {
    BigEndian(|b|, 4) + b
  }

  function Blob(field: Field): Codec<Bytes> {
    Codec(s => ReadBlob(s, field), b => WriteBlob(b), b => |b| < LIMIT32)
  }

  lemma BlobReadsBack(v: Bytes, x: Bytes, field: Field)
    requires |v| < LIMIT32
    ensures ReadBlob(WriteBlob(v) + x, field) == Got(v, x)
  {
    Widths();
    NumberReadsBack(|v|, v + x, 4, field);
    assert WriteBlob(v) + x == BigEndian(|v|, 4) + (v + x);
    assert (v + x)[..|v|] == v && (v + x)[|v|..] == x;
  }

  lemma BlobIsStrict(s: Bytes, field: Field)
    requires ReadBlob(s, field).Got?
    ensures |ReadBlob(s, field).value| < LIMIT32
    ensures s == WriteBlob(ReadBlob(s, field).value) + ReadBlob(s, field).rest
  {
    Widths();
    NumberIsStrict(s, 4, field);
    var n, r := ReadNumber(s, 4, field).value, ReadNumber(s, 4, field).rest;
    assert r == r[..n] + r[n..];
  }

  lemma BlobEndsEarly(v: Bytes, k: nat, field: Field)
    requires |v| < LIMIT32 && k < |WriteBlob(v)|
    ensures ReadBlob(WriteBlob(v)[..k], field) == Stop(Truncated(field))
  {
    if k >= 4 {
      Widths();
      assert WriteBlob(v)[..k] == BigEndian(|v|, 4) + v[..k - 4];
      NumberReadsBack(|v|, v[..k - 4], 4, field);
    }
  }

  lemma BlobIsLawful(field: Field)
    ensures Lawful(Blob(field))
  {
    hide ReadBlob;
    hide WriteBlob;
    var c := Blob(field);
    forall v, x | c.fits(v) ensures c.read(c.write(v) + x) == Got(v, x) {
      BlobReadsBack(v, x, field);
    }
    forall s | c.read(s).Got? ensures c.fits(c.read(s).value) && s == c.write(c.read(s).value) + c.read(s).rest {
      BlobIsStrict(s, field);
    }
    forall v, k: nat | c.fits(v) && k < |c.write(v)|
      ensures c.read(c.write(v)[..k]).Stop? && c.read(c.write(v)[..k]).error.Truncated?
    {
      BlobEndsEarly(v, k, field);
    }
  }

  /** A blob that must be valid text. */
  function ReadText(s: Bytes, field: Field, utf8: Bytes -> bool): Step<Bytes> {
    match ReadBlob(s, field)
    case Stop(e) => Stop(e)
    case Got(b, r) => if utf8(b) then Got(b, r) else Stop(InvalidUtf8(field))
  }

  predicate TextFits(b: Bytes, utf8: Bytes -> bool) {
    |b| < LIMIT32 && utf8(b)
  }

  function Text(field: Field, utf8: Bytes -> bool): Codec<Bytes> {
    Codec(s => ReadText(s, field, utf8), b => WriteBlob(b), b => TextFits(b, utf8))
  }

  lemma TextIsLawful(field: Field, utf8: Bytes -> bool)
    ensures Lawful(Text(field, utf8))
  {
    hide ReadBlob;
    hide WriteBlob;
    var c := Text(field, utf8);
    forall v, x | c.fits(v) ensures c.read(c.write(v) + x) == Got(v, x) {
      BlobReadsBack(v, x, field);
    }
    forall s | c.read(s).Got? ensures c.fits(c.read(s).value) && s == c.write(c.read(s).value) + c.read(s).rest {
      BlobIsStrict(s, field);
    }
    forall v, k: nat | c.fits(v) && k < |c.write(v)|
      ensures c.read(c.write(v)[..k]).Stop? && c.read(c.write(v)[..k]).error.Truncated?
    {
      BlobEndsEarly(v, k, field);
    }
  }
}
