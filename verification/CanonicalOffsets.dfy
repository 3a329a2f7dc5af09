/** The decoder that holds all bytes and an offset into them, and folds integers byte by byte. It
    gives the same answers as the one that holds the bytes that remain. */
module CanonicalOffsets {
  import opened Wrappers
  import opened Numbers
  import opened CanonicalCodec
  import opened CanonicalLabels
  import opened CanonicalRecord
  import opened CanonicalSteps
  import opened CanonicalLaws
  import opened CanonicalEncoder
  import opened CanonicalDecoders

  class OffsetDecoder {
    const bytes: Bytes
    var offset: nat

    ghost predicate Valid()
      reads this
    {
      offset <= |bytes|
    }

    ghost function Rest(): Bytes
      reads this
      requires Valid()
    {
      bytes[offset..]
    }

    constructor (bytes: Bytes)
      ensures Valid() && Rest() == bytes
    {
      this.bytes := bytes;
      offset := 0;
    }

    method TakeBytes(count: nat, field: Field) returns (r: Result<Bytes, CanonicalError>)
      requires Valid()
      modifies this
      ensures Valid() && Follows(Take(old(Rest()), count, field), r, Rest())
    {
      if count > |bytes| - offset {
        return Err(Truncated(field));
      }
      r := Ok(bytes[offset..offset + count]);
      offset := offset + count;
      assert r.value == old(Rest())[..count] && Rest() == old(Rest())[count..];
    }

    method Byte(field: Field) returns (r: Result<Byte, CanonicalError>)
      requires Valid()
      modifies this
      ensures Valid() && Follows(ReadByte(old(Rest()), field), r, Rest())
    {
      var b := TakeBytes(1, field);
      return if b.Err? then Err(b.error) else Ok(b.value[0]);
    }

    /** Shifts each byte into an accumulator of the integer's width. */
    method Integer(width: nat, field: Field) returns (r: Result<nat, CanonicalError>)
      requires Valid()
      modifies this
      ensures Valid() && Follows(ReadNumber(old(Rest()), width, field), r, Rest())
    {
      var b := TakeBytes(width, field);
      if b.Err? { return Err(b.error); }
      var n: nat := 0;
      for i := 0 to width
        invariant n == ShiftAndOr(b.value[..i], width)
      {
        assert b.value[..i + 1][..i] == b.value[..i];
        n := Or(ShiftByte(n, width), b.value[i]);
      }
      assert b.value[..width] == b.value;
      ShiftAndOrIsValue(b.value, width);
      return Ok(n);
    }

    method LengthPrefixed(field: Field) returns (r: Result<Bytes, CanonicalError>)
      requires Valid()
      modifies this
      ensures Valid() && Follows(ReadBlob(old(Rest()), field), r, Rest())
    {
      var length := Integer(4, field);
      if length.Err? { return Err(length.error); }
      r := TakeBytes(length.value, field);
    }

    method Text(field: Field, utf8: Bytes -> bool) returns (r: Result<Bytes, CanonicalError>)
      requires Valid()
      modifies this
      ensures Valid() && Follows(ReadText(old(Rest()), field, utf8), r, Rest())
    {
      r := LengthPrefixed(field);
      if r.Ok? && !utf8(r.value) {
        return Err(InvalidUtf8(field));
      }
    }

    method TimestampOrNone() returns (r: Result<Option<Timestamp>, CanonicalError>)
      requires Valid()
      modifies this
      ensures Valid() && Follows(ReadObservedAt(old(Rest())), r, Rest())
    {
      var variant := Byte(ObservedAtVariant);
      if variant.Err? { return Err(variant.error); }
      if variant.value == 0 { return Ok(None); }
      if variant.value != 1 { return Err(UnknownVariant(ObservedAt, variant.value)); }
      var seconds := Integer(8, ObservedAtSeconds);
      if seconds.Err? { return Err(seconds.error); }
      var nanos := Integer(4, ObservedAtNanos);
      if nanos.Err? { return Err(nanos.error); }
      if nanos.value >= NANOS_PER_SECOND { return Err(InvalidNanoseconds); }
      return Ok(Some(Timestamp(ToSigned(seconds.value), nanos.value)));
    }

    method Code(field: Field, count: nat) returns (r: Result<Byte, CanonicalError>)
      requires Valid()
      modifies this
      ensures Valid() && Follows(ReadCode(old(Rest()), field, count), r, Rest())
    {
      r := Byte(field);
      if r.Ok? && r.value >= count {
        return Err(UnknownVariant(field, r.value));
      }
    }

    method LabelList(utf8: Bytes -> bool) returns (r: Result<Labels, CanonicalError>)
      requires Valid()
      modifies this
      ensures Valid() && Follows(ReadLabels(old(Rest()), utf8), r, Rest())
    {
      hide ReadText;
      hide ReadNumber;
      hide ReadMany;
      var count := Integer(4, LabelCount);
      if count.Err? { return Err(count.error); }
      if count.value > (|bytes| - offset) / 4 { return Err(Truncated(LabelCount)); }
      ghost var start := Rest();
      var labels: Labels := [];
      NothingReadYet(start, count.value, utf8);
      for i := 0 to count.value
        invariant Valid()
        invariant ReadMany(start, count.value, utf8) == Onward(labels, ReadMany(Rest(), count.value - i, utf8))
      {
        OneMoreLabel(labels, Rest(), count.value - i, utf8);
        var text := Text(Label, utf8);
        if text.Err? { return Err(text.error); }
        labels := labels + [text.value];
      }
      EverythingRead(labels, Rest(), utf8);
      var ascending := AllAscending(labels);
      if !ascending { return Err(NonCanonicalLabels); }
      return Ok(labels);
    }
  }

  /** Decodes, then encodes again and compares. The comparison never fails. */
  method DecodeEvidence(bytes: Bytes, utf8: Bytes -> bool) returns (r: Result<EvidenceBinding, CanonicalError>)
    ensures r == Decode(bytes, utf8)
  {
    hide Decode;
    hide Encode;
    hide Record;
    r := DecodeFields(bytes, utf8);
    if r.Ok? {
      DecodeIsStrict(bytes, utf8);
      var again := EncodeEvidence(r.value);
      r := if again == Ok(bytes) then r else Mismatch(again);
    }
  }

  method DecodeFields(bytes: Bytes, utf8: Bytes -> bool) returns (r: Result<EvidenceBinding, CanonicalError>)
    ensures r == Decode(bytes, utf8)
  {
    hide Decode;
    hide ReadText;
    hide ReadBlob;
    hide ReadObservedAt;
    hide ReadCode;
    hide ReadLabels;
    DecodeIsFieldByField(bytes, utf8);
    var decoder := new OffsetDecoder(bytes);
    var magic := decoder.TakeBytes(4, Magic);
    if magic.Err? { return Err(magic.error); }
    if magic.value != MAGIC { return Err(InvalidMagic); }
    var version := decoder.Integer(2, Version);
    if version.Err? { return Err(version.error); }
    if version.value != VERSION { return Err(UnsupportedVersion(version.value)); }
    hide ReadNumber;
    var candidateId := decoder.Text(CandidateId, utf8);
    if candidateId.Err? { return Err(candidateId.error); }
    var rawPath := decoder.LengthPrefixed(RawPath);
    if rawPath.Err? { return Err(rawPath.error); }
    var logicalBytes := decoder.Integer(8, LogicalBytes);
    if logicalBytes.Err? { return Err(logicalBytes.error); }
    var observedAt := decoder.TimestampOrNone();
    if observedAt.Err? { return Err(observedAt.error); }
    var activity := decoder.Code(ActivityField, 4);
    if activity.Err? { return Err(activity.error); }
    var coverage := decoder.Code(CoverageField, 5);
    if coverage.Err? { return Err(coverage.error); }
    var labels := decoder.LabelList(utf8);
    if labels.Err? { return Err(labels.error); }
    if decoder.offset != |decoder.bytes| { return Err(TrailingBytes); }
    return Ok(EvidenceBinding(candidateId.value, rawPath.value, logicalBytes.value, observedAt.value,
                              ActivityFrom(activity.value), CoverageFrom(coverage.value), labels.value));
  }

  datatype CanonicalEvidence = CanonicalEvidence(binding: EvidenceBinding, bytes: Bytes, digest: Bytes)

  /** Encodes a binding and reads it back: the caller gets the canonical binding, its bytes and their
      digest. */
  method BindEvidence(v: EvidenceBinding, utf8: Bytes -> bool, sha256: Bytes -> Bytes)
    returns (r: Result<CanonicalEvidence, CanonicalError>)
    requires Typed(v, utf8)
    ensures Encode(v).Err? ==> r == Err(Encode(v).error)
    ensures Encode(v).Ok? ==>
      r == Ok(CanonicalEvidence(Canonical(v), Encode(v).value, Digest(Encode(v).value, sha256)))
  {
    hide Decode;
    hide Encode;
    hide Canonical;
    hide Digest;
    var bytes := EncodeEvidence(v);
    if bytes.Err? { return Err(bytes.error); }
    RoundTrip(v, utf8);
    var binding := DecodeEvidence(bytes.value, utf8);
    return Ok(CanonicalEvidence(binding.value, bytes.value, Digest(bytes.value, sha256)));
  }

  /** Reads a record that was received: its binding, the bytes as they are, and their digest. */
  method VerifyReceived(bytes: Bytes, utf8: Bytes -> bool, sha256: Bytes -> Bytes)
    returns (r: Result<CanonicalEvidence, CanonicalError>)
    ensures Decode(bytes, utf8).Err? ==> r == Err(Decode(bytes, utf8).error)
    ensures Decode(bytes, utf8).Ok? ==>
      r == Ok(CanonicalEvidence(Decode(bytes, utf8).value, bytes, Digest(bytes, sha256)))
  {
    hide Decode;
    hide Digest;
    var binding := DecodeEvidence(bytes, utf8);
    if binding.Err? { return Err(binding.error); }
    return Ok(CanonicalEvidence(binding.value, bytes, Digest(bytes, sha256)));
  }
}
