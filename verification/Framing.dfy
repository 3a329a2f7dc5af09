/** Length-prefixed frames: what a reader of a byte stream must answer, and what follows from it. */
module Framing {
  import opened Numbers

  const MAX_FRAME_LENGTH: nat := 16 * 1024 * 1024

  datatype FrameError =
    | Io
    | TruncatedPrefix(received: nat)
    | Oversized(length: nat)
    | TruncatedPayload(expected: nat, received: nat)

  datatype ReadResult = Frame(payload: Bytes) | CleanEnd | Failed(error: FrameError)

  /** What will arrive: these bytes, and then the end of the stream or an I/O error. */
  datatype Wire = Wire(bytes: Bytes, broken: bool)

  function Ending(w: Wire, atEnd: ReadResult): ReadResult {
    if w.broken then Failed(Io) else atEnd
  }

  function ReadFrame(w: Wire): ReadResult {
    if |w.bytes| < 4 then
      Ending(w, if w.bytes == [] then CleanEnd else Failed(TruncatedPrefix(|w.bytes|)))
    else
      var length := Value(w.bytes[..4]);
      if length > MAX_FRAME_LENGTH then Failed(Oversized(length))
      else if |w.bytes| - 4 < length then Ending(w, Failed(TruncatedPayload(length, |w.bytes| - 4)))
      else Frame(w.bytes[4..4 + length])
  }

  /** What is left after a frame was read. */
  function AfterFrame(w: Wire): Wire
    requires ReadFrame(w).Frame?
  {
    Wire(w.bytes[4 + |ReadFrame(w).payload|..], w.broken)
  }

  /** Reading until something other than a frame comes. */
  function ReadAll(w: Wire): (r: (seq<Bytes>, ReadResult))
    ensures !r.1.Frame?
    decreases |w.bytes|
  {
    if ReadFrame(w).Frame? then
      var rest := ReadAll(AfterFrame(w));
      ([ReadFrame(w).payload] + rest.0, rest.1)
    else ([], ReadFrame(w))
  }

  predicate Allowed(payloads: seq<Bytes>) {
    forall p :: p in payloads ==> |p| <= MAX_FRAME_LENGTH
  }

  function Encoded(payload: Bytes): Bytes {
    BigEndian(|payload|, 4) + payload
  }

  function Concatenated(payloads: seq<Bytes>): Bytes {
    if payloads == [] then [] else Encoded(payloads[0]) + Concatenated(payloads[1..])
  }

  // -------------------------------------------------------------------- main results

  lemma SplitAfterPrefix(prefix: Bytes, payload: Bytes, x: Bytes)
    requires |prefix| == 4
    ensures (prefix + payload + x)[..4] == prefix && (prefix + payload + x)[4..] == payload + x
  {
  }

  lemma LengthRoundTrips(n: nat)
    requires n <= MAX_FRAME_LENGTH
    ensures Value(BigEndian(n, 4)) == n
  {
    Widths();
    ValueOfBigEndian(n, 4);
  }

  lemma LengthIsRead(payload: Bytes, x: Bytes)
    requires |payload| <= MAX_FRAME_LENGTH
    ensures (Encoded(payload) + x)[..4] == BigEndian(|payload|, 4) && Value(BigEndian(|payload|, 4)) == |payload|
    ensures (Encoded(payload) + x)[4..] == payload + x
  {
    hide BigEndian;
    hide Value;
    LengthRoundTrips(|payload|);
    SplitAfterPrefix(BigEndian(|payload|, 4), payload, x);
  }

  lemma FrameIsRead(payload: Bytes, x: Bytes, broken: bool)
    requires |payload| <= MAX_FRAME_LENGTH
    ensures ReadFrame(Wire(Encoded(payload) + x, broken)) == Frame(payload)
    ensures AfterFrame(Wire(Encoded(payload) + x, broken)) == Wire(x, broken)
  {
    var b := Encoded(payload) + x;
    LengthIsRead(payload, x);
    assert b[4..4 + |payload|] == b[4..][..|payload|] == payload;
    assert b[4 + |payload|..] == b[4..][|payload|..] == x;
  }

  /** A frame cut short is never taken for a frame, and the report has the exact counts. */
  lemma CutFrameIsReported(payload: Bytes, k: nat, broken: bool)
    requires |payload| <= MAX_FRAME_LENGTH && k < |Encoded(payload)|
    ensures ReadFrame(Wire(Encoded(payload)[..k], broken)) == CutEnding(payload, k, broken)
  {
    if k >= 4 {
      LengthIsRead(payload, []);
      assert Encoded(payload) + [] == Encoded(payload);
      assert Encoded(payload)[..k][..4] == Encoded(payload)[..4];
    }
  }

  /** What the reader reports `k` bytes into the frame of the next payload. */
  function CutEnding(payload: Bytes, k: nat, broken: bool): ReadResult {
    if broken then Failed(Io)
    else if k == 0 then CleanEnd
    else if k < 4 then Failed(TruncatedPrefix(k))
    else Failed(TruncatedPayload(|payload|, k - 4))
  }

  /** Cutting the stream after any number of bytes loses exactly the frames that are not complete,
      and the report depends on the cut alone. */
  function AllUpTo(payloads: seq<Bytes>, k: nat, broken: bool): (seq<Bytes>, ReadResult) {
    if payloads == [] then ([], if broken then Failed(Io) else CleanEnd)
    else if k < |Encoded(payloads[0])| then ([], CutEnding(payloads[0], k, broken))
    else
      var rest := AllUpTo(payloads[1..], k - |Encoded(payloads[0])|, broken);
      ([payloads[0]] + rest.0, rest.1)
  }

  lemma {:induction false} EveryCutIsReported(payloads: seq<Bytes>, k: nat, broken: bool)
    requires Allowed(payloads) && k <= |Concatenated(payloads)|
    ensures ReadAll(Wire(Concatenated(payloads)[..k], broken)) == AllUpTo(payloads, k, broken)
    decreases |payloads|
  {
    hide BigEndian;
    hide Value;
    if payloads != [] {
      var first := Encoded(payloads[0]);
      assert payloads[0] in payloads;
      if k < |first| {
        assert Concatenated(payloads)[..k] == first[..k];
        CutFrameIsReported(payloads[0], k, broken);
      } else {
        var rest := Concatenated(payloads[1..])[..k - |first|];
        assert Concatenated(payloads)[..k] == first + rest;
        FrameIsRead(payloads[0], rest, broken);
        EveryCutIsReported(payloads[1..], k - |first|, broken);
      }
    }
  }

  /** Reading the concatenated frames gives exactly the payloads and then the clean end. */
  lemma {:induction false} FramesAreReadBack(payloads: seq<Bytes>)
    requires Allowed(payloads)
    ensures ReadAll(Wire(Concatenated(payloads), false)) == (payloads, CleanEnd)
  {
    var all := Concatenated(payloads);
    assert all[..|all|] == all;
    EveryCutIsReported(payloads, |all|, false);
    NothingIsCut(payloads);
  }

  lemma {:induction false} NothingIsCut(payloads: seq<Bytes>)
    ensures AllUpTo(payloads, |Concatenated(payloads)|, false) == (payloads, CleanEnd)
  {
    if payloads != [] {
      NothingIsCut(payloads[1..]);
      assert payloads == [payloads[0]] + payloads[1..];
    }
  }

  /** A cut inside the frame after the first `n` gives those `n` payloads and the report for the cut. */
  lemma {:induction false} CutGivesTheCompleteFrames(payloads: seq<Bytes>, n: nat, k: nat, broken: bool)
    requires n < |payloads| && k < |Encoded(payloads[n])|
    ensures AllUpTo(payloads, |Concatenated(payloads[..n])| + k, broken) ==
      (payloads[..n], CutEnding(payloads[n], k, broken))
  {
    if n > 0 {
      assert payloads[..n][0] == payloads[0] && payloads[..n][1..] == payloads[1..][..n - 1];
      CutGivesTheCompleteFrames(payloads[1..], n - 1, k, broken);
      assert payloads[..n] == [payloads[0]] + payloads[1..][..n - 1];
    }
  }

  /** A frame is four bytes of length, the most significant first, and the payload. */
  lemma EncodedIsLaidOut(payload: Bytes)
    requires |payload| < 0x1_0000_0000
    ensures Encoded(payload) == Four(|payload|) + payload
  {
    FourBytes(|payload|);
  }

  /** The four bytes of the prefix decide: a length above 16 MiB is refused with that length, whatever follows and
      however the stream ends, and no other length is. */
  lemma PrefixDecides(w: Wire)
    requires |w.bytes| >= 4
    ensures var length := 0x100_0000 * (w.bytes[0] as int) + 0x1_0000 * (w.bytes[1] as int)
                          + 0x100 * (w.bytes[2] as int) + w.bytes[3];
      && (length > 16_777_216 ==> ReadFrame(w) == Failed(Oversized(length)))
      && (length <= 16_777_216 && |w.bytes| - 4 >= length ==> ReadFrame(w) == Frame(w.bytes[4..4 + length]))
      && (length <= 16_777_216 && |w.bytes| - 4 < length ==>
            ReadFrame(w) == Failed(if w.broken then Io else TruncatedPayload(length, |w.bytes| - 4)))
  {
    FourMeans(w.bytes[..4]);
    hide Value;
  }
}
