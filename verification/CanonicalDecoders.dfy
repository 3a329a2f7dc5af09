/** The decoder that holds the bytes that remain, and the verification built on it. */
module CanonicalDecoders {
  import opened Wrappers
  import opened Numbers
  import opened CanonicalCodec
  import opened CanonicalLabels
  import opened CanonicalRecord
  import opened CanonicalSteps
  import opened CanonicalLaws
  import opened CanonicalEncoder

  /** A cursor did what the reader says: the same value and the same rest, or the same error. */
  ghost predicate Follows<T>(step: Step<T>, r: Result<T, CanonicalError>, rest: Bytes) {
    match step
    case Stop(e) => r == Err(e)
    case Got(v, q) => r == Ok(v) && rest == q
  }

  /** What a label loop that has read some labels will end with. */
  function Onward(ls: Labels, step: Step<Labels>): Step<Labels> {
    match step
    case Stop(e) => Stop(e)
    case Got(more, q) => Got(ls + more, q)
  }

  lemma OneMoreLabel(ls: Labels, s: Bytes, count: nat, utf8: Bytes -> bool)
    requires count > 0
    ensures ReadText(s, Label, utf8).Stop? ==>
      Onward(ls, ReadMany(s, count, utf8)) == Stop(ReadText(s, Label, utf8).error)
    ensures ReadText(s, Label, utf8).Got? ==>
      Onward(ls, ReadMany(s, count, utf8)) ==
      Onward(ls + [ReadText(s, Label, utf8).value], ReadMany(ReadText(s, Label, utf8).rest, count - 1, utf8))
  {
    hide ReadBlob;
    if ReadText(s, Label, utf8).Got? {
      var l, next := ReadText(s, Label, utf8).value, ReadMany(ReadText(s, Label, utf8).rest, count - 1, utf8);
      if next.Got? {
        assert ls + ([l] + next.value) == ls + [l] + next.value;
      }
    }
  }

  // -------------------------------------------------------------- the slice cursor

  class SliceDecoder {
    var remaining: Bytes

    constructor (bytes: Bytes)
      ensures remaining == bytes
    {
      remaining := bytes;
    }

    method TakeBytes(count: nat, field: Field) returns (r: Result<Bytes, CanonicalError>)
      modifies this
      ensures Follows(Take(old(remaining), count, field), r, remaining)
    {
      if |remaining| < count {
        return Err(Truncated(field));
      }
      r := Ok(remaining[..count]);
      remaining := remaining[count..];
    }

    method Byte(field: Field) returns (r: Result<Byte, CanonicalError>)
      modifies this
      ensures Follows(ReadByte(old(remaining), field), r, remaining)
    {
      var b := TakeBytes(1, field);
      return if b.Err? then Err(b.error) else Ok(b.value[0]);
    }

    method Integer(width: nat, field: Field) returns (r: Result<nat, CanonicalError>)
      modifies this
      ensures Follows(ReadNumber(old(remaining), width, field), r, remaining)
    {
      var b := TakeBytes(width, field);
      return if b.Err? then Err(b.error) else Ok(Value(b.value));
    }

    method LengthPrefixed(field: Field) returns (r: Result<Bytes, CanonicalError>)
      modifies this
      ensures Follows(ReadBlob(old(remaining), field), r, remaining)
    {
      var length := Integer(4, field);
      if length.Err? { return Err(length.error); }
      r := TakeBytes(length.value, field);
    }

    method Text(field: Field, utf8: Bytes -> bool) returns (r: Result<Bytes, CanonicalError>)
      modifies this
      ensures Follows(ReadText(old(remaining), field, utf8), r, remaining)
    {
      r := LengthPrefixed(field);
      if r.Ok? && !utf8(r.value) {
        return Err(InvalidUtf8(field));
      }
    }

    method TimestampOrNone() returns (r: Result<Option<Timestamp>, CanonicalError>)
      modifies this
      ensures Follows(ReadObservedAt(old(remaining)), r, remaining)
    {
      var variant := Byte(ObservedAtVariant);
      if variant.Err? { return Err(variant.error); }
      if variant.value == 0 { return Ok(None); }
      if variant.value != 1 { return Err(UnknownVariant(ObservedAt, variant.value)); }
      var seconds := Integer(8, ObservedAtSeconds);
      if seconds.Err? { return Err(seconds.error); }
      var nanos := Integer(4, ObservedAtNanos);
      if nanos.Err? { return Err(nanos.error); }
      if nanos.value >= NANOS_PER_SECOND { return Err(InvalidNanoseconds); }
      return Ok(Some(Timestamp(ToSigned(seconds.value), nanos.value)));
    }

    method Code(field: Field, count: nat) returns (r: Result<Byte, CanonicalError>)
      modifies this
      ensures Follows(ReadCode(old(remaining), field, count), r, remaining)
    {
      r := Byte(field);
      if r.Ok? && r.value >= count {
        return Err(UnknownVariant(field, r.value));
      }
    }

    method LabelList(utf8: Bytes -> bool) returns (r: Result<Labels, CanonicalError>)
      modifies this
      ensures Follows(ReadLabels(old(remaining), utf8), r, remaining)
    {
      hide ReadText;
      hide ReadNumber;
      hide ReadMany;
      var count := Integer(4, LabelCount);
      if count.Err? { return Err(count.error); }
      if count.value > |remaining| / 4 { return Err(Truncated(LabelCount)); }
      ghost var start := remaining;
      var labels: Labels := [];
      NothingReadYet(start, count.value, utf8);
      for i := 0 to count.value
        invariant ReadMany(start, count.value, utf8) == Onward(labels, ReadMany(remaining, count.value - i, utf8))
      {
        OneMoreLabel(labels, remaining, count.value - i, utf8);
        var text := Text(Label, utf8);
        if text.Err? { return Err(text.error); }
        labels := labels + [text.value];
      }
      EverythingRead(labels, remaining, utf8);
      var ascending := AllAscending(labels);
      if !ascending { return Err(NonCanonicalLabels); }
      return Ok(labels);
    }
  }

  lemma NothingReadYet(s: Bytes, count: nat, utf8: Bytes -> bool)
    ensures ReadMany(s, count, utf8) == Onward([], ReadMany(s, count, utf8))
  {
    hide ReadMany;
    if ReadMany(s, count, utf8).Got? {
      assert [] + ReadMany(s, count, utf8).value == ReadMany(s, count, utf8).value;
    }
  }

  lemma EverythingRead(ls: Labels, s: Bytes, utf8: Bytes -> bool)
    ensures Onward(ls, ReadMany(s, 0, utf8)) == Got(ls, s)
  {
    assert ls + [] == ls;
  }

  method DecodeEvidenceRecord(bytes: Bytes, utf8: Bytes -> bool) returns (r: Result<EvidenceBinding, CanonicalError>)
    ensures r == Decode(bytes, utf8)
  {
    hide Decode;
    hide ReadText;
    hide ReadBlob;
    hide ReadObservedAt;
    hide ReadCode;
    hide ReadLabels;
    DecodeIsFieldByField(bytes, utf8);
    var decoder := new SliceDecoder(bytes);
    var magic := decoder.TakeBytes(4, Magic);
    if magic.Err? { return Err(magic.error); }
    if magic.value != MAGIC { return Err(InvalidMagic); }
    var version := decoder.Integer(2, Version);
    if version.Err? { return Err(version.error); }
    if version.value != VERSION { return Err(UnsupportedVersion(version.value)); }
    hide ReadNumber;
    var candidateId := decoder.Text(CandidateId, utf8);
    if candidateId.Err? { return Err(candidateId.error); }
    var rawPath := decoder.LengthPrefixed(RawPath);
    if rawPath.Err? { return Err(rawPath.error); }
    var logicalBytes := decoder.Integer(8, LogicalBytes);
    if logicalBytes.Err? { return Err(logicalBytes.error); }
    var observedAt := decoder.TimestampOrNone();
    if observedAt.Err? { return Err(observedAt.error); }
    var activity := decoder.Code(ActivityField, 4);
    if activity.Err? { return Err(activity.error); }
    var coverage := decoder.Code(CoverageField, 5);
    if coverage.Err? { return Err(coverage.error); }
    var labels := decoder.LabelList(utf8);
    if labels.Err? { return Err(labels.error); }
    if decoder.remaining != [] { return Err(TrailingBytes); }
    return Ok(EvidenceBinding(candidateId.value, rawPath.value, logicalBytes.value, observedAt.value,
                              ActivityFrom(activity.value), CoverageFrom(coverage.value), labels.value));
  }

  /** Decodes and encodes again. The last check never fails. */
  method VerifyEvidence(bytes: Bytes, utf8: Bytes -> bool) returns (r: Result<EvidenceBinding, CanonicalError>)
    ensures r == Decode(bytes, utf8)
    ensures r != Err(NonCanonicalEncoding)
  {
    hide Decode;
    hide Encode;
    hide Record;
    DecodeNeverSaysNonCanonical(bytes, utf8);
    var binding := DecodeEvidenceRecord(bytes, utf8);
    if binding.Err? { return binding; }
    DecodeIsStrict(bytes, utf8);
    var again := EncodeEvidence(binding.value);
    return if again == Ok(bytes) then binding else Mismatch(again);
  }

  /** Only a record that decodes has a digest. */
  method EvidenceDigest(bytes: Bytes, utf8: Bytes -> bool, sha256: Bytes -> Bytes)
    returns (r: Result<Bytes, CanonicalError>)
    ensures r == if Decode(bytes, utf8).Ok? then Ok(Digest(bytes, sha256)) else Err(Decode(bytes, utf8).error)
  {
    hide Decode;
    hide Digest;
    var binding := VerifyEvidence(bytes, utf8);
    if binding.Err? { return Err(binding.error); }
    return Ok(Digest(bytes, sha256));
  }

  function Mismatch(again: Result<Bytes, CanonicalError>): Result<EvidenceBinding, CanonicalError> {
    if again.Err? then Err(again.error) else Err(NonCanonicalEncoding)
  }

  lemma DecodeNeverSaysNonCanonical(s: Bytes, utf8: Bytes -> bool)
    ensures Decode(s, utf8) != Err(NonCanonicalEncoding)
  {
    hide Decode;
    hide ReadObservedAt;
    hide ReadLabels;
    hide Value;
    DecodeIsFieldByField(s, utf8);
    forall r: Bytes ensures ReadLabels(r, utf8) != Stop(NonCanonicalEncoding) {
      ErrorsOfLabels(r, utf8);
    }
    forall r: Bytes ensures ReadObservedAt(r) != Stop(NonCanonicalEncoding) {
      ErrorsOfObservedAt(r);
    }
  }

  lemma ErrorsOfObservedAt(s: Bytes)
    ensures ReadObservedAt(s) != Stop(NonCanonicalEncoding)
  {
  }

  lemma ErrorsOfLabels(s: Bytes, utf8: Bytes -> bool)
    ensures ReadLabels(s, utf8) != Stop(NonCanonicalEncoding)
  {
    hide ReadMany;
    if ReadNumber(s, 4, LabelCount).Got? {
      ErrorsOfMany(ReadNumber(s, 4, LabelCount).rest, ReadNumber(s, 4, LabelCount).value, utf8);
    }
  }
}
