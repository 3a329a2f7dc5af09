/** The two frame readers and the writer, over a source that hands out bytes in any pieces. */
module FrameReaders {
  import opened Numbers
  import opened Framing

  /** One answer of the operating system: some bytes, an interruption, or a failure. */
  datatype Delivery = Chunk(bytes: Bytes) | Interrupted | Failure

  type Script = seq<Delivery>

  /** A read of no bytes means the end, so a chunk is never empty. */
  predicate Plausible(script: Script) {
    forall d :: d in script && d.Chunk? ==> d.bytes != []
  }

  predicate Uninterrupted(script: Script) {
    forall d :: d in script ==> !d.Interrupted?
  }

  /** What a script delivers, whatever its pieces. */
  function Delivered(script: Script): Wire {
    if script == [] then Wire([], false)
    else match script[0]
         case Chunk(b) => var rest := Delivered(script[1..]); Wire(b + rest.bytes, rest.broken)
         case Interrupted => Delivered(script[1..])
         case Failure => Wire([], true)
  }

  function Size(script: Script): nat {
    if script == [] then 0 else 1 + (if script[0].Chunk? then |script[0].bytes| else 0) + Size(script[1..])
  }

  datatype Answer = Arrived(bytes: Bytes) | End | TryAgain | Broken

  class Source {
    var script: Script

    constructor (script: Script)
      ensures this.script == script
    {
      this.script := script;
    }

    /** One read of at most `limit` bytes. */
    method Read(limit: nat) returns (r: Answer)
      requires limit > 0 && Plausible(script)
      modifies this
      ensures Plausible(script) && (Uninterrupted(old(script)) ==> Uninterrupted(script) && !r.TryAgain?)
      ensures !r.End? && !r.Broken? ==> Size(script) < Size(old(script))
      ensures r.Arrived? ==>
        && 0 < |r.bytes| <= limit && |r.bytes| <= |Delivered(old(script)).bytes|
        && r.bytes == Delivered(old(script)).bytes[..|r.bytes|]
        && Delivered(script) == Wire(Delivered(old(script)).bytes[|r.bytes|..], Delivered(old(script)).broken)
      ensures r.TryAgain? ==> Delivered(script) == Delivered(old(script))
      ensures r.End? ==> Delivered(old(script)) == Wire([], false) == Delivered(script)
      ensures r.Broken? ==> Delivered(old(script)) == Wire([], true)
    {
      if script == [] { return End; }
      assert script[0] in script;
      assert script == [script[0]] + script[1..];
      match script[0] {
        case Failure => return Broken;
        case Interrupted =>
          script := script[1..];
          return TryAgain;
        case Chunk(b) =>
          if |b| <= limit {
            script := script[1..];
            return Arrived(b);
          }
          script := [Chunk(b[limit..])] + script[1..];
          return Arrived(b[..limit]);
      }
    }
  }

  /** Of the bytes that arrive, as many as were asked for and are there. */
  function Least(a: nat, b: nat): nat {
    if a <= b then a else b
  }

  /** Fills the buffer from the front until it is full or the stream ends. */
  method ReadUntilEof(source: Source, buffer: array<Byte>) returns (filled: nat, failed: bool)
    requires Plausible(source.script)
    modifies source, buffer
    ensures Plausible(source.script)
    ensures failed <==> Delivered(old(source.script)).broken && |Delivered(old(source.script)).bytes| < buffer.Length
    ensures !failed ==>
      && filled == Least(buffer.Length, |Delivered(old(source.script)).bytes|)
      && buffer[..filled] == Delivered(old(source.script)).bytes[..filled]
      && Delivered(source.script) ==
         Wire(Delivered(old(source.script)).bytes[filled..], Delivered(old(source.script)).broken)
  {
    hide Delivered;
    hide Size;
    ghost var all := Delivered(source.script);
    filled, failed := 0, false;
    while filled < buffer.Length
      invariant Plausible(source.script) && filled <= buffer.Length && filled <= |all.bytes|
      invariant buffer[..filled] == all.bytes[..filled]
      invariant Delivered(source.script) == Wire(all.bytes[filled..], all.broken)
      decreases Size(source.script)
    {
      var answer := source.Read(buffer.Length - filled);
      match answer {
        case End => return;
        case Broken => return filled, true;
        case TryAgain =>
        case Arrived(chunk) =>
          forall i | 0 <= i < |chunk| {
            buffer[filled + i] := chunk[i];
          }
          assert buffer[..filled + |chunk|] == all.bytes[..filled] + chunk;
          assert all.bytes[..filled + |chunk|] == all.bytes[..filled] + all.bytes[filled..][..|chunk|];
          assert all.bytes[filled + |chunk|..] == all.bytes[filled..][|chunk|..];
          filled := filled + |chunk|;
      }
    }
  }

  /** Only the four bytes of the length were taken. */
  predicate PayloadUnread(before: Wire, after: Wire) {
    |before.bytes| >= 4 && after == Wire(before.bytes[4..], before.broken)
  }

  /** Reads a frame through a four-byte buffer and a payload buffer. */
  method ReadFrameIntoBuffers(source: Source) returns (r: ReadResult)
    requires Plausible(source.script)
    modifies source
    ensures Plausible(source.script)
    ensures r == ReadFrame(Delivered(old(source.script)))
    ensures r.Frame? ==> Delivered(source.script) == AfterFrame(Delivered(old(source.script)))
    ensures r.Failed? && r.error.Oversized? ==> PayloadUnread(Delivered(old(source.script)), Delivered(source.script))
  {
    hide Delivered;
    hide Value;
    ghost var all := Delivered(source.script);
    var prefix := new Byte[4];
    var filled, failed := ReadUntilEof(source, prefix);
    if failed { return Failed(Io); }
    if filled == 0 { return CleanEnd; }
    if filled != prefix.Length { return Failed(TruncatedPrefix(filled)); }
    var length := Value(prefix[..]);
    assert prefix[..] == prefix[..4] == all.bytes[..4];
    if length > MAX_FRAME_LENGTH { return Failed(Oversized(length)); }
    var payload := new Byte[length];
    filled, failed := ReadUntilEof(source, payload);
    if failed { return Failed(Io); }
    if filled != length { return Failed(TruncatedPayload(length, filled)); }
    assert payload[..] == payload[..length] == all.bytes[4..][..length] == all.bytes[4..4 + length];
    assert all.bytes[4..][length..] == all.bytes[4 + length..];
    return Frame(payload[..]);
  }

  /** Reads frames until something else comes. However the bytes of a stream of frames arrive, and
      wherever the stream is cut, the answer is the one for the cut. */
  method ReadFrames(source: Source) returns (payloads: seq<Bytes>, ending: ReadResult)
    requires Plausible(source.script)
    modifies source
    ensures (payloads, ending) == ReadAll(Delivered(old(source.script)))
    ensures forall sent: seq<Bytes>, k: nat, broken: bool ::
      Allowed(sent) && k <= |Concatenated(sent)|
      && Delivered(old(source.script)) == Wire(Concatenated(sent)[..k], broken)
      ==> (payloads, ending) == AllUpTo(sent, k, broken)
  {
    hide Delivered;
    hide AllUpTo;
    hide Value;
    ghost var all := Delivered(source.script);
    payloads := [];
    assert [] + ReadAll(all).0 == ReadAll(all).0;
    while true
      invariant Plausible(source.script)
      invariant var rest := ReadAll(Delivered(source.script)); ReadAll(all) == (payloads + rest.0, rest.1)
      decreases |Delivered(source.script).bytes|
    {
      ghost var before := Delivered(source.script);
      var r := ReadFrameIntoBuffers(source);
      if !r.Frame? {
        ending := r;
        assert payloads + [] == payloads;
        break;
      }
      ghost var rest := ReadAll(AfterFrame(before));
      assert payloads + ([r.payload] + rest.0) == (payloads + [r.payload]) + rest.0;
      payloads := payloads + [r.payload];
    }
    forall sent: seq<Bytes>, k: nat, broken: bool |
      Allowed(sent) && k <= |Concatenated(sent)| && all == Wire(Concatenated(sent)[..k], broken)
      ensures (payloads, ending) == AllUpTo(sent, k, broken)
    {
      EveryCutIsReported(sent, k, broken);
    }
  }

  // --------------------------------------------------------- the reader of chunks

  /** One read through a file handle. It may hide an interruption or report it as an error. */
  method ReadUpTo(source: Source, limit: nat) returns (r: Answer)
    requires limit > 0 && Plausible(source.script)
    modifies source
    ensures Plausible(source.script) && (Uninterrupted(old(source.script)) ==> Uninterrupted(source.script))
    ensures !r.TryAgain? && (r.Arrived? ==> Size(source.script) < Size(old(source.script)))
    ensures r.Arrived? ==>
      && 0 < |r.bytes| <= limit && |r.bytes| <= |Delivered(old(source.script)).bytes|
      && r.bytes == Delivered(old(source.script)).bytes[..|r.bytes|]
      && Delivered(source.script) ==
         Wire(Delivered(old(source.script)).bytes[|r.bytes|..], Delivered(old(source.script)).broken)
    ensures r.End? ==> Delivered(old(source.script)) == Wire([], false) == Delivered(source.script)
    ensures r.Broken? ==> Delivered(old(source.script)) == Wire([], true) || !Uninterrupted(old(source.script))
  {
    hide Delivered;
    hide Size;
    r := TryAgain;
    while r.TryAgain?
      invariant Plausible(source.script) && (Uninterrupted(old(source.script)) ==> Uninterrupted(source.script))
      invariant r.TryAgain? ==>
        Delivered(source.script) == Delivered(old(source.script)) && Size(source.script) <= Size(old(source.script))
      invariant r.Arrived? ==>
        && Size(source.script) < Size(old(source.script))
        && 0 < |r.bytes| <= limit && |r.bytes| <= |Delivered(old(source.script)).bytes|
        && r.bytes == Delivered(old(source.script)).bytes[..|r.bytes|]
        && Delivered(source.script) ==
           Wire(Delivered(old(source.script)).bytes[|r.bytes|..], Delivered(old(source.script)).broken)
      invariant r.End? ==> Delivered(old(source.script)) == Wire([], false) == Delivered(source.script)
      invariant r.Broken? ==> Delivered(old(source.script)) == Wire([], true) || !Uninterrupted(old(source.script))
      decreases r.TryAgain?, Size(source.script)
    {
      r := source.Read(limit);
      var hidden: bool := *;
      if r.TryAgain? && !hidden {
        r := Broken;
      }
    }
  }

  /** Appends what arrives until the count is reached or the stream ends. */
  method ReadExactly(source: Source, count: nat) returns (output: Bytes, failed: bool)
    requires Plausible(source.script)
    modifies source
    ensures Plausible(source.script) && (Uninterrupted(old(source.script)) ==> Uninterrupted(source.script))
    ensures Delivered(old(source.script)).broken && |Delivered(old(source.script)).bytes| < count ==> failed
    ensures failed ==>
      || (Delivered(old(source.script)).broken && |Delivered(old(source.script)).bytes| < count)
      || !Uninterrupted(old(source.script))
    ensures !failed ==>
      && output == Delivered(old(source.script)).bytes[..Least(count, |Delivered(old(source.script)).bytes|)]
      && Delivered(source.script) ==
         Wire(Delivered(old(source.script)).bytes[|output|..], Delivered(old(source.script)).broken)
  {
    hide Delivered;
    hide Size;
    ghost var all := Delivered(source.script);
    output, failed := [], false;
    while |output| < count
      invariant Plausible(source.script) && (Uninterrupted(old(source.script)) ==> Uninterrupted(source.script))
      invariant |output| <= count && |output| <= |all.bytes| && output == all.bytes[..|output|]
      invariant Delivered(source.script) == Wire(all.bytes[|output|..], all.broken)
      decreases Size(source.script)
    {
      var answer := ReadUpTo(source, count - |output|);
      match answer {
        case End => return;
        case Broken => return output, true;
        case Arrived(chunk) =>
          var n := |output| + |chunk|;
          assert all.bytes[..n] == all.bytes[..|output|] + all.bytes[|output|..][..|chunk|];
          assert all.bytes[n..] == all.bytes[|output|..][|chunk|..];
          output := output + chunk;
      }
    }
  }

  /** Reads a frame by collecting chunks, and folds the length byte by byte. The answer is that of the
      other reader, unless an interruption was reported as an error. */
  method ReadFrameFromChunks(source: Source) returns (r: ReadResult)
    requires Plausible(source.script)
    modifies source
    ensures Plausible(source.script) && (Uninterrupted(old(source.script)) ==> Uninterrupted(source.script))
    ensures r == ReadFrame(Delivered(old(source.script))) || (r == Failed(Io) && !Uninterrupted(old(source.script)))
    ensures r.Frame? ==> Delivered(source.script) == AfterFrame(Delivered(old(source.script)))
    ensures r.Failed? && r.error.Oversized? ==> PayloadUnread(Delivered(old(source.script)), Delivered(source.script))
  {
    hide Delivered;
    hide Value;
    hide Uninterrupted;
    ghost var all := Delivered(source.script);
    var prefix, failed := ReadExactly(source, 4);
    if failed { return Failed(Io); }
    if prefix == [] { return CleanEnd; }
    if |prefix| != 4 { return Failed(TruncatedPrefix(|prefix|)); }
    var length: nat := 0;
    for i := 0 to 4
      invariant length == ShiftAndOr(prefix[..i], 8)
    {
      assert prefix[..i + 1][..i] == prefix[..i];
      length := Or(ShiftByte(length, 8), prefix[i]);
    }
    assert prefix[..4] == prefix == all.bytes[..4];
    ShiftAndOrIsValue(prefix, 8);
    if length > MAX_FRAME_LENGTH { return Failed(Oversized(length)); }
    var payload;
    payload, failed := ReadExactly(source, length);
    if failed { return Failed(Io); }
    if |payload| != length { return Failed(TruncatedPayload(length, |payload|)); }
    assert payload == all.bytes[4..][..length] == all.bytes[4..4 + length];
    assert all.bytes[4..][length..] == all.bytes[4 + length..];
    return Frame(payload);
  }

  /** Reads frames with this reader until something else comes. The answer is again the one for the
      cut; only a reported interruption ends the reading earlier, with the frames read so far. */
  method ReadFramesFromChunks(source: Source) returns (payloads: seq<Bytes>, ending: ReadResult)
    requires Plausible(source.script)
    modifies source
    ensures Uninterrupted(old(source.script)) ==> (payloads, ending) == ReadAll(Delivered(old(source.script)))
    ensures (payloads, ending) == ReadAll(Delivered(old(source.script)))
            || (ending == Failed(Io) && payloads <= ReadAll(Delivered(old(source.script))).0)
    ensures forall sent: seq<Bytes>, k: nat, broken: bool ::
      Uninterrupted(old(source.script)) && Allowed(sent) && k <= |Concatenated(sent)|
      && Delivered(old(source.script)) == Wire(Concatenated(sent)[..k], broken)
      ==> (payloads, ending) == AllUpTo(sent, k, broken)
  {
    hide Delivered;
    hide AllUpTo;
    hide Value;
    hide Uninterrupted;
    ghost var all := Delivered(source.script);
    payloads := [];
    assert [] + ReadAll(all).0 == ReadAll(all).0;
    while true
      invariant Plausible(source.script)
      invariant Uninterrupted(old(source.script)) ==> Uninterrupted(source.script)
      invariant var rest := ReadAll(Delivered(source.script)); ReadAll(all) == (payloads + rest.0, rest.1)
      decreases |Delivered(source.script).bytes|
    {
      ghost var before := Delivered(source.script);
      var r := ReadFrameFromChunks(source);
      if !r.Frame? {
        ending := r;
        assert payloads + [] == payloads;
        break;
      }
      ghost var rest := ReadAll(AfterFrame(before));
      assert payloads + ([r.payload] + rest.0) == (payloads + [r.payload]) + rest.0;
      payloads := payloads + [r.payload];
    }
    forall sent: seq<Bytes>, k: nat, broken: bool |
      Uninterrupted(old(source.script)) && Allowed(sent) && k <= |Concatenated(sent)|
      && all == Wire(Concatenated(sent)[..k], broken)
      ensures (payloads, ending) == AllUpTo(sent, k, broken)
    {
      EveryCutIsReported(sent, k, broken);
    }
  }

  // ------------------------------------------------------------------------ writing

  datatype WriteResult = Written | TooLong | WriteFailed

  /** What was written so far is followed by some first part of these bytes. */
  ghost predicate PartlyWritten(before: Bytes, after: Bytes, more: Bytes) {
    exists n: nat :: n <= |more| && after == before + more[..n]
  }

  class Sink {
    var bytes: Bytes

    constructor ()
      ensures bytes == []
    {
      bytes := [];
    }

    /** Writes all bytes, or fails after any number of them. */
    method WriteAll(more: Bytes) returns (ok: bool)
      modifies this
      ensures ok ==> bytes == old(bytes) + more
      ensures !ok ==> PartlyWritten(old(bytes), bytes, more)
    {
      ok := *;
      if ok {
        bytes := bytes + more;
      } else {
        var n :| 0 <= n <= |more|;
        bytes := bytes + more[..n];
      }
    }

    /** Writes a frame, or nothing when the payload is too long. A failure leaves a cut frame. */
    method WriteFrame(payload: Bytes) returns (r: WriteResult)
      modifies this
      ensures r.TooLong? <==> |payload| > MAX_FRAME_LENGTH
      ensures r.TooLong? ==> bytes == old(bytes)
      ensures r.Written? ==> bytes == old(bytes) + Encoded(payload)
      ensures r.WriteFailed? ==> PartlyWritten(old(bytes), bytes, Encoded(payload))
    {
      if |payload| > MAX_FRAME_LENGTH { return TooLong; }
      ghost var before, prefix := bytes, BigEndian(|payload|, 4);
      var ok := WriteAll(BigEndian(|payload|, 4));
      if !ok {
        PrefixIsPart(before, bytes, prefix, payload);
        return WriteFailed;
      }
      ok := WriteAll(payload);
      if !ok {
        PayloadIsPart(before, bytes, prefix, payload);
        return WriteFailed;
      }
      assert bytes == before + Encoded(payload);
      var flushed: bool := *;
      if !flushed {
        assert Encoded(payload)[..|Encoded(payload)|] == Encoded(payload);
        return WriteFailed;
      }
      return Written;
    }
  }

  lemma PrefixIsPart(before: Bytes, after: Bytes, prefix: Bytes, payload: Bytes)
    requires PartlyWritten(before, after, prefix)
    ensures PartlyWritten(before, after, prefix + payload)
  {
    var n: nat :| n <= |prefix| && after == before + prefix[..n];
    assert (prefix + payload)[..n] == prefix[..n];
  }

  lemma PayloadIsPart(before: Bytes, after: Bytes, prefix: Bytes, payload: Bytes)
    requires PartlyWritten(before + prefix, after, payload)
    ensures PartlyWritten(before, after, prefix + payload)
  {
    var n: nat :| n <= |payload| && after == (before + prefix) + payload[..n];
    assert (prefix + payload)[..|prefix| + n] == prefix + payload[..n];
    assert after == before + (prefix + payload[..n]);
  }
}
