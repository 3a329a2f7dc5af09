/** The encoder of both languages: bytes appended to a growing buffer. */
module CanonicalEncoder {
  import opened Wrappers
  import opened Numbers
  import opened CanonicalCodec
  import opened CanonicalLabels
  import opened CanonicalRecord

  class Encoder {
    var data: Bytes

    constructor ()
      ensures data == []
    {
      data := [];
    }

    method Append(bytes: Bytes)
      modifies this
      ensures data == old(data) + bytes
    {
      data := data + bytes;
    }

    method AppendInteger(n: nat, width: nat)
      requires n < Pow256(width)
      modifies this
      ensures data == old(data) + BigEndian(n, width)
    {
      data := data + BigEndian(n, width);
    }

    /** A count that does not fit in four bytes is refused. */
    method AppendCount(count: nat, field: Field) returns (failure: Option<CanonicalError>)
      modifies this
      ensures failure == if count < LIMIT32 then None else Some(FieldTooLong(field))
      ensures failure.None? ==> data == old(data) + BigEndian(count, 4)
    {
      if count >= LIMIT32 {
        return Some(FieldTooLong(field));
      }
      Widths();
      AppendInteger(count, 4);
      return None;
    }

    method AppendBlob(bytes: Bytes, field: Field) returns (failure: Option<CanonicalError>)
      modifies this
      ensures failure == if |bytes| < LIMIT32 then None else Some(FieldTooLong(field))
      ensures failure.None? ==> data == old(data) + WriteBlob(bytes)
    {
      failure := AppendCount(|bytes|, field);
      if failure.None? {
        Append(bytes);
      }
    }

    method AppendObservedAt(o: Option<Timestamp>)
      requires o.Some? ==> -TWO63 <= o.value.seconds < TWO63 && o.value.nanos < LIMIT32
      modifies this
      ensures data == old(data) + WriteObservedAt(o)
    {
      if o.Some? {
        Widths();
        SignedRoundTrips(0, o.value.seconds);
        Append([1]);
        AppendInteger(FromSigned(o.value.seconds), 8);
        AppendInteger(o.value.nanos, 4);
        Associates(old(data), [1], BigEndian(FromSigned(o.value.seconds), 8), BigEndian(o.value.nanos, 4));
      } else {
        Append([0]);
      }
    }

    method AppendLabels(labels: Labels) returns (failure: Option<CanonicalError>)
      modifies this
      ensures failure == if |labels| >= LIMIT32 then Some(FieldTooLong(LabelCount))
                         else if exists l :: l in labels && |l| >= LIMIT32 then Some(FieldTooLong(Label))
                         else None
      ensures failure.None? ==> data == old(data) + WriteLabels(labels)
    {
      hide BigEndian;
      hide WriteBlob;
      failure := AppendCount(|labels|, LabelCount);
      if failure.Some? { return; }
      ghost var start := data;
      for i := 0 to |labels|
        invariant failure.None? && data == start + WriteMany(labels[..i])
        invariant forall l :: l in labels[..i] ==> |l| < LIMIT32
      {
        failure := AppendBlob(labels[i], Label);
        if failure.Some? { return; }
        assert labels[..i + 1] == labels[..i] + [labels[i]];
        ManyGrows(labels[..i], labels[i]);
        assert data == start + (WriteMany(labels[..i]) + WriteBlob(labels[i]));
      }
      assert labels[..|labels|] == labels;
      assert data == old(data) + (BigEndian(|labels|, 4) + WriteMany(labels));
    }
  }

  lemma Associates(a: Bytes, b: Bytes, c: Bytes, d: Bytes)
    ensures a + b + c + d == a + (b + (c + d))
  {
  }

  lemma {:induction false} ManyGrows(ls: Labels, x: Bytes)
    ensures WriteMany(ls + [x]) == WriteMany(ls) + WriteBlob(x)
  {
    if ls == [] {
      assert [x][1..] == [];
      assert WriteMany([x]) == WriteBlob(x) + [];
    } else {
      assert (ls + [x])[1..] == ls[1..] + [x];
      ManyGrows(ls[1..], x);
    }
  }

  /** Appends one field after the other; the first that is out of range ends the attempt. */
  method EncodeEvidence(v: EvidenceBinding) returns (r: Result<Bytes, CanonicalError>)
    requires v.logicalBytes < TWO64
    requires v.observedAt.Some? ==> -TWO63 <= v.observedAt.value.seconds < TWO63 && v.observedAt.value.nanos < LIMIT32
    ensures r == Encode(v)
  {
    hide BigEndian;
    hide WriteBlob;
    hide WriteMany;
    hide WriteLabels;
    hide WriteObservedAt;
    hide CanonicalForm;
    if v.observedAt.Some? && v.observedAt.value.nanos >= NANOS_PER_SECOND {
      return Err(InvalidNanoseconds);
    }
    var encoder := new Encoder();
    encoder.Append(MAGIC);
    assert encoder.data == MAGIC;
    Widths();
    encoder.AppendInteger(VERSION, 2);
    var failure := encoder.AppendBlob(v.candidateId, CandidateId);
    if failure.Some? { return Err(failure.value); }
    failure := encoder.AppendBlob(v.rawPath, RawPath);
    if failure.Some? { return Err(failure.value); }
    encoder.AppendInteger(v.logicalBytes, 8);
    encoder.AppendObservedAt(v.observedAt);
    encoder.Append([ActivityCode(v.activity)]);
    encoder.Append([CoverageCode(v.coverage)]);
    var labels := SortAndDeduplicate(v.labels);
    assert forall l :: l in v.labels <==> l in Members(v.labels);
    assert forall l :: l in labels <==> l in Members(labels);
    failure := encoder.AppendLabels(labels);
    if failure.Some? { return Err(failure.value); }
    assert encoder.data == Fields(Canonical(v));
    return Ok(encoder.data);
  }
}
