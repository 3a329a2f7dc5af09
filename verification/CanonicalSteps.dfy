/** Decoding as a cursor meets it: one field after the other, stopping at the first error. */
module CanonicalSteps {
  import opened Wrappers
  import opened Numbers
  import opened CanonicalCodec
  import opened CanonicalRecord

  const EMPTY := EvidenceBinding([], [], 0, None, Absent, Coverage.Unknown, [])

  function ThenLabels(v: EvidenceBinding, s: Bytes, utf8: Bytes -> bool): Result<EvidenceBinding, CanonicalError> {
    match ReadLabels(s, utf8)
    case Stop(e) => Err(e)
    case Got(ls, r) => if r != [] then Err(TrailingBytes) else Ok(v.(labels := ls))
  }

  function ThenCoverage(v: EvidenceBinding, s: Bytes, utf8: Bytes -> bool): Result<EvidenceBinding, CanonicalError> {
    match ReadCode(s, CoverageField, 5)
    case Stop(e) => Err(e)
    case Got(n, r) => ThenLabels(v.(coverage := CoverageFrom(n)), r, utf8)
  }

  function ThenActivity(v: EvidenceBinding, s: Bytes, utf8: Bytes -> bool): Result<EvidenceBinding, CanonicalError> {
    match ReadCode(s, ActivityField, 4)
    case Stop(e) => Err(e)
    case Got(n, r) => ThenCoverage(v.(activity := ActivityFrom(n)), r, utf8)
  }

  function ThenObservedAt(v: EvidenceBinding, s: Bytes, utf8: Bytes -> bool): Result<EvidenceBinding, CanonicalError> {
    match ReadObservedAt(s)
    case Stop(e) => Err(e)
    case Got(o, r) => ThenActivity(v.(observedAt := o), r, utf8)
  }

  function ThenLogicalBytes(v: EvidenceBinding, s: Bytes, utf8: Bytes -> bool)
    : Result<EvidenceBinding, CanonicalError>
  {
    match ReadNumber(s, 8, LogicalBytes)
    case Stop(e) => Err(e)
    case Got(n, r) => ThenObservedAt(v.(logicalBytes := n), r, utf8)
  }

  function ThenRawPath(v: EvidenceBinding, s: Bytes, utf8: Bytes -> bool): Result<EvidenceBinding, CanonicalError> {
    match ReadBlob(s, RawPath)
    case Stop(e) => Err(e)
    case Got(b, r) => ThenLogicalBytes(v.(rawPath := b), r, utf8)
  }

  function ThenCandidateId(v: EvidenceBinding, s: Bytes, utf8: Bytes -> bool): Result<EvidenceBinding, CanonicalError> {
    match ReadText(s, CandidateId, utf8)
    case Stop(e) => Err(e)
    case Got(b, r) => ThenRawPath(v.(candidateId := b), r, utf8)
  }

  function ThenVersion(s: Bytes, utf8: Bytes -> bool): Result<EvidenceBinding, CanonicalError> {
    match ReadVersion(s)
    case Stop(e) => Err(e)
    case Got(_, r) => ThenCandidateId(EMPTY, r, utf8)
  }

  function FieldByField(s: Bytes, utf8: Bytes -> bool): Result<EvidenceBinding, CanonicalError> {
    match ReadMagic(s)
    case Stop(e) => Err(e)
    case Got(_, r) => ThenVersion(r, utf8)
  }

  /** The parts after the five leading fields, put into the binding so far. */
  function WithTail(v: EvidenceBinding, step: Step<Tail>): Result<EvidenceBinding, CanonicalError> {
    match step
    case Stop(e) => Err(e)
    case Got(t, r) =>
      if r != [] then Err(TrailingBytes)
      else Ok(v.(observedAt := t.0, activity := ActivityFrom(t.1.0), coverage := CoverageFrom(t.1.1.0),
                 labels := t.1.1.1))
  }

  lemma TailIsFieldByField(v: EvidenceBinding, s: Bytes, utf8: Bytes -> bool)
    ensures WithTail(v, TailCodec(utf8).read(s)) == ThenObservedAt(v, s, utf8)
  {
    hide Both;
    hide ReadObservedAt;
    hide ReadCode;
    hide ReadLabels;
    var last := LabelsCodec(utf8);
    var second := Both(CodeCodec(CoverageField, 5), last);
    BothReads(ObservedAtCodec(), Both(CodeCodec(ActivityField, 4), second), s);
    if ReadObservedAt(s).Got? {
      var r := ReadObservedAt(s).rest;
      BothReads(CodeCodec(ActivityField, 4), second, r);
      if ReadCode(r, ActivityField, 4).Got? {
        BothReads(CodeCodec(CoverageField, 5), last, ReadCode(r, ActivityField, 4).rest);
      }
    }
  }

  lemma DecodeIsFieldByField(s: Bytes, utf8: Bytes -> bool)
    ensures Decode(s, utf8) == FieldByField(s, utf8)
  {
    hide Both;
    hide TailCodec;
    hide ReadMagic;
    hide ReadVersion;
    hide ReadText;
    hide ReadBlob;
    hide ReadNumber;
    hide ThenObservedAt;
    var c5 := Both(Number(8, LogicalBytes), TailCodec(utf8));
    var c4 := Both(Blob(RawPath), c5);
    var c3 := Both(Text(CandidateId, utf8), c4);
    var c2 := Both(VersionCodec(), c3);
    BothReads(MagicCodec(), c2, s);
    if ReadMagic(s).Got? {
      var s2 := ReadMagic(s).rest;
      BothReads(VersionCodec(), c3, s2);
      if ReadVersion(s2).Got? {
        var s3 := ReadVersion(s2).rest;
        BothReads(Text(CandidateId, utf8), c4, s3);
        if ReadText(s3, CandidateId, utf8).Got? {
          var s4 := ReadText(s3, CandidateId, utf8).rest;
          BothReads(Blob(RawPath), c5, s4);
          if ReadBlob(s4, RawPath).Got? {
            var s5 := ReadBlob(s4, RawPath).rest;
            BothReads(Number(8, LogicalBytes), TailCodec(utf8), s5);
            if ReadNumber(s5, 8, LogicalBytes).Got? {
              var v := EMPTY.(candidateId := ReadText(s3, CandidateId, utf8).value,
                              rawPath := ReadBlob(s4, RawPath).value,
                              logicalBytes := ReadNumber(s5, 8, LogicalBytes).value);
              TailIsFieldByField(v, ReadNumber(s5, 8, LogicalBytes).rest, utf8);
            }
          }
        }
      }
    }
  }
}
