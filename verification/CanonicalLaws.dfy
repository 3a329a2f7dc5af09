/** What the canonical encoding is for: one encoding for one value, and nothing else accepted. */
module CanonicalLaws {
  import opened Wrappers
  import opened Numbers
  import opened CanonicalCodec
  import opened CanonicalLabels
  import opened CanonicalRecord

  lemma TailIsLawful(utf8: Bytes -> bool)
    ensures Lawful(TailCodec(utf8))
  {
    hide Lawful;
    hide Both;
    ObservedAtIsLawful();
    CodeIsLawful(ActivityField, 4);
    CodeIsLawful(CoverageField, 5);
    LabelsAreLawful(utf8);
    BothIsLawful(CodeCodec(CoverageField, 5), LabelsCodec(utf8));
    BothIsLawful(CodeCodec(ActivityField, 4), Both(CodeCodec(CoverageField, 5), LabelsCodec(utf8)));
    BothIsLawful(ObservedAtCodec(),
                 Both(CodeCodec(ActivityField, 4), Both(CodeCodec(CoverageField, 5), LabelsCodec(utf8))));
  }

  lemma RecordIsLawful(utf8: Bytes -> bool)
    ensures Lawful(Record(utf8))
  {
    hide Lawful;
    hide Both;
    hide TailCodec;
    TailIsLawful(utf8);
    MagicIsLawful();
    VersionIsLawful();
    TextIsLawful(CandidateId, utf8);
    BlobIsLawful(RawPath);
    NumberIsLawful(8, LogicalBytes);
    BothIsLawful(Number(8, LogicalBytes), TailCodec(utf8));
    BothIsLawful(Blob(RawPath), Both(Number(8, LogicalBytes), TailCodec(utf8)));
    BothIsLawful(Text(CandidateId, utf8), Both(Blob(RawPath), Both(Number(8, LogicalBytes), TailCodec(utf8))));
    BothIsLawful(VersionCodec(), Both(Text(CandidateId, utf8), Both(Blob(RawPath),
      Both(Number(8, LogicalBytes), TailCodec(utf8)))));
    BothIsLawful(MagicCodec(), Both(VersionCodec(), Both(Text(CandidateId, utf8), Both(Blob(RawPath),
      Both(Number(8, LogicalBytes), TailCodec(utf8))))));
  }

  /** A binding with an encoding, its labels already canonical. */
  predicate Fits(v: EvidenceBinding, utf8: Bytes -> bool) {
    && TextFits(v.candidateId, utf8) && |v.rawPath| < LIMIT32 && v.logicalBytes < TWO64
    && ObservedAtFits(v.observedAt) && LabelsFit(v.labels, utf8)
  }

  lemma TailFits(o: Option<Timestamp>, a: Byte, c: Byte, ls: Labels, utf8: Bytes -> bool)
    ensures TailCodec(utf8).fits((o, (a, (c, ls)))) <==> ObservedAtFits(o) && a < 4 && c < 5 && LabelsFit(ls, utf8)
    ensures ObservedAtFits(o) ==>
      TailCodec(utf8).write((o, (a, (c, ls)))) == WriteObservedAt(o) + ([a] + ([c] + WriteLabels(ls)))
  {
    hide Both;
    hide ObservedAtFits;
    hide WriteObservedAt;
    hide WriteLabels;
    hide LabelsFit;
    BothUnfolds(CodeCodec(CoverageField, 5), LabelsCodec(utf8), c, ls);
    BothUnfolds(CodeCodec(ActivityField, 4), Both(CodeCodec(CoverageField, 5), LabelsCodec(utf8)), a, (c, ls));
    BothUnfolds(ObservedAtCodec(),
                Both(CodeCodec(ActivityField, 4), Both(CodeCodec(CoverageField, 5), LabelsCodec(utf8))),
      o, (a, (c, ls)));
  }

  lemma RecordFits(id: Bytes, path: Bytes, n: nat, tail: Tail, utf8: Bytes -> bool)
    ensures Record(utf8).fits(((), ((), (id, (path, (n, tail)))))) <==>
      TextFits(id, utf8) && |path| < LIMIT32 && n < TWO64 && TailCodec(utf8).fits(tail)
    ensures Record(utf8).write(((), ((), (id, (path, (n, tail)))))) ==
      MAGIC + (BigEndian(VERSION, 2) +
               (WriteBlob(id) + (WriteBlob(path) + (BigEndian(n, 8) + TailCodec(utf8).write(tail)))))
  {
    hide Both;
    hide TailCodec;
    hide BigEndian;
    hide WriteBlob;
    Widths();
    hide Pow256;
    var c5 := Both(Number(8, LogicalBytes), TailCodec(utf8));
    var c4 := Both(Blob(RawPath), c5);
    var c3 := Both(Text(CandidateId, utf8), c4);
    BothUnfolds(Number(8, LogicalBytes), TailCodec(utf8), n, tail);
    BothUnfolds(Blob(RawPath), c5, path, (n, tail));
    BothUnfolds(Text(CandidateId, utf8), c4, id, (path, (n, tail)));
    BothUnfolds(VersionCodec(), c3, (), (id, (path, (n, tail))));
    BothUnfolds(MagicCodec(), Both(VersionCodec(), c3), (), ((), (id, (path, (n, tail)))));
  }

  lemma PartsAndBinding(v: EvidenceBinding, utf8: Bytes -> bool)
    ensures BindingOf(PartsOf(v)) == v
    ensures Record(utf8).fits(PartsOf(v)) <==> Fits(v, utf8)
    ensures Fits(v, utf8) ==> Record(utf8).write(PartsOf(v)) == Fields(v)
  {
    hide Record;
    hide TailCodec;
    hide BigEndian;
    hide WriteBlob;
    hide WriteObservedAt;
    hide WriteLabels;
    hide LabelsFit;
    hide TextFits;
    var a, c := ActivityCode(v.activity), CoverageCode(v.coverage);
    RecordFits(v.candidateId, v.rawPath, v.logicalBytes, (v.observedAt, (a, (c, v.labels))), utf8);
    TailFits(v.observedAt, a, c, v.labels, utf8);
  }

  lemma BindingAndParts(p: Parts, utf8: Bytes -> bool)
    requires Record(utf8).fits(p)
    ensures PartsOf(BindingOf(p)) == p
  {
    hide Record;
    hide TailCodec;
    match p
    case (u, (w, (id, (path, (n, (o, (a, (c, ls)))))))) =>
      assert u == () && w == ();
      RecordFits(id, path, n, (o, (a, (c, ls))), utf8);
      TailFits(o, a, c, ls, utf8);
  }

  // -------------------------------------------------------------------- main results

  lemma EncodeIsFields(v: EvidenceBinding, utf8: Bytes -> bool)
    requires Typed(v, utf8)
    ensures Encode(v).Ok? <==> Fits(Canonical(v), utf8)
    ensures Encode(v).Ok? ==> Encode(v) == Ok(Fields(Canonical(v))) && Typed(Canonical(v), utf8)
  {
    hide CanonicalForm;
    hide Fields;
    hide Ascending;
    var ls := CanonicalForm(v.labels);
    CanonicalFormIsAscending(v.labels);
    assert forall l :: l in v.labels <==> l in Members(v.labels);
    assert forall l :: l in ls <==> l in Members(ls);
  }

  /** The decoder is strict: what it accepts is exactly the encoding of what it returns. */
  lemma DecodeIsStrict(s: Bytes, utf8: Bytes -> bool)
    requires Decode(s, utf8).Ok?
    ensures Typed(Decode(s, utf8).value, utf8) && Fits(Decode(s, utf8).value, utf8)
    ensures Canonical(Decode(s, utf8).value) == Decode(s, utf8).value
    ensures Encode(Decode(s, utf8).value) == Ok(s)
  {
    hide Record;
    hide CanonicalForm;
    hide Ascending;
    hide Fields;
    RecordIsLawful(utf8);
    var p, v := Record(utf8).read(s).value, Decode(s, utf8).value;
    assert Record(utf8).fits(p) && s == Record(utf8).write(p) + [] == Record(utf8).write(p);
    BindingAndParts(p, utf8);
    PartsAndBinding(v, utf8);
    CanonicalFormIsIdempotent(v.labels);
    EncodeIsFields(v, utf8);
  }

  /** Every binding that has an encoding is read back as itself, its labels sorted and deduplicated. */
  lemma RoundTrip(v: EvidenceBinding, utf8: Bytes -> bool)
    requires Typed(v, utf8) && Encode(v).Ok?
    ensures Decode(Encode(v).value, utf8) == Ok(Canonical(v))
  {
    hide Record;
    hide Canonical;
    hide Encode;
    hide Fields;
    RecordIsLawful(utf8);
    EncodeIsFields(v, utf8);
    PartsAndBinding(Canonical(v), utf8);
    var s := Record(utf8).write(PartsOf(Canonical(v)));
    assert s + [] == s;
  }

  /** Same but for the order and repetition of labels. */
  ghost predicate Same(v: EvidenceBinding, w: EvidenceBinding) {
    v.(labels := []) == w.(labels := []) && Members(v.labels) == Members(w.labels)
  }

  /** Two bindings have the same encoding exactly when they differ only in label order and repetition. */
  lemma EncodingIdentifies(v: EvidenceBinding, w: EvidenceBinding, utf8: Bytes -> bool)
    requires Typed(v, utf8) && Typed(w, utf8) && Encode(v).Ok? && Encode(w).Ok?
    ensures Encode(v) == Encode(w) <==> Same(v, w)
  {
    hide Decode;
    hide Fields;
    RoundTrip(v, utf8);
    RoundTrip(w, utf8);
    CanonicalFormIdentifies(v.labels, w.labels);
    EncodeIsFields(v, utf8);
    EncodeIsFields(w, utf8);
  }

  /** Cutting an accepted record short anywhere is reported as truncation. */
  lemma PrefixIsTruncated(s: Bytes, k: nat, utf8: Bytes -> bool)
    requires Decode(s, utf8).Ok? && k < |s|
    ensures Decode(s[..k], utf8).Err? && Decode(s[..k], utf8).error.Truncated?
  {
    hide Record;
    RecordIsLawful(utf8);
    var p := Record(utf8).read(s).value;
    assert Record(utf8).fits(p) && s == Record(utf8).write(p) + [];
    assert Record(utf8).write(p)[..k] == s[..k];
  }

  /** Adding anything to an accepted record is reported as trailing bytes. */
  lemma AppendingIsTrailing(s: Bytes, t: Bytes, utf8: Bytes -> bool)
    requires Decode(s, utf8).Ok? && t != []
    ensures Decode(s + t, utf8) == Err(TrailingBytes)
  {
    hide Record;
    RecordIsLawful(utf8);
    var p := Record(utf8).read(s).value;
    assert Record(utf8).fits(p) && s == Record(utf8).write(p) + [] == Record(utf8).write(p);
    assert Record(utf8).read(Record(utf8).write(p) + t) == Got(p, t);
  }
}
