/** The parser of the kernel's attribute buffer: a cursor over the buffer, then stores into the
    fixed record. */
module ItemBuffer {
  import opened Numbers
  import opened ItemWire

  datatype Status = Parsed | InvalidArgument | ProtocolError

  /** The next field, when that many bytes are left. */
  method ReadPackedField(raw: Bytes, rawLength: nat, cursor: nat, width: nat) returns (ok: bool, value: nat, next: nat)
    requires rawLength <= |raw| && cursor <= rawLength
    ensures ok <==> cursor + width <= rawLength
    ensures ok ==> value == Load(raw, cursor, width) && value < Pow256(width) && next == cursor + width
    ensures !ok ==> next == cursor
  {
    if width > rawLength - cursor {
      return false, 0, cursor;
    }
    LittleBounds(raw[cursor..cursor + width]);
    return true, Load(raw, cursor, width), cursor + width;
  }

  datatype Common = Common(device: nat, objectType: nat, flags: nat, fileId: nat)

  datatype FileFacts = FileFacts(linkCount: nat, totalSize: nat, allocatedSize: nat)

  datatype Extended = Extended(privateSize: nat, cloneId: nat, extendedFlags: nat, cloneRefcount: nat)

  predicate IsCommon(c: Common, raw: Bytes, start: nat) {
    && start + 20 <= |raw| && c.device < 0x1_0000_0000 && c.objectType < 0x1_0000_0000
    && c.flags < 0x1_0000_0000 && c.fileId < TWO64
    && c == Common(Load(raw, start, 4), Load(raw, start + 4, 4), Load(raw, start + 8, 4), Load(raw, start + 12, 8))
  }

  predicate IsFileFacts(f: FileFacts, raw: Bytes, start: nat) {
    && start + 20 <= |raw| && f.linkCount < 0x1_0000_0000 && f.totalSize < TWO64 && f.allocatedSize < TWO64
    && f == FileFacts(Load(raw, start, 4), Load(raw, start + 4, 8), Load(raw, start + 12, 8))
  }

  predicate IsExtended(e: Extended, raw: Bytes, start: nat) {
    && start + 28 <= |raw| && e.privateSize < TWO64 && e.cloneId < TWO64
    && e.extendedFlags < TWO64 && e.cloneRefcount < 0x1_0000_0000
    && e == Extended(Load(raw, start, 8), Load(raw, start + 8, 8), Load(raw, start + 16, 8), Load(raw, start + 24, 4))
  }

  method ReadCommon(raw: Bytes, rawLength: nat, start: nat) returns (ok: bool, r: Common, cursor: nat)
    requires rawLength <= |raw| && start <= rawLength
    ensures ok <==> start + 20 <= rawLength
    ensures ok ==> cursor == start + 20 && IsCommon(r, raw, start)
  {
    hide Load;
    hide Pow256;
    Widths();
    r, cursor := Common(0, 0, 0, 0), start;
    var device, objectType, flags, fileId;
    ok, device, cursor := ReadPackedField(raw, rawLength, cursor, 4);
    if !ok { return; }
    ok, objectType, cursor := ReadPackedField(raw, rawLength, cursor, 4);
    if !ok { return; }
    ok, flags, cursor := ReadPackedField(raw, rawLength, cursor, 4);
    if !ok { return; }
    ok, fileId, cursor := ReadPackedField(raw, rawLength, cursor, 8);
    if !ok { return; }
    r := Common(device, objectType, flags, fileId);
  }

  method ReadFileFacts(raw: Bytes, rawLength: nat, start: nat) returns (ok: bool, r: FileFacts, cursor: nat)
    requires rawLength <= |raw| && start <= rawLength
    ensures ok <==> start + 20 <= rawLength
    ensures ok ==> cursor == start + 20 && IsFileFacts(r, raw, start)
  {
    hide Load;
    hide Pow256;
    Widths();
    r, cursor := FileFacts(0, 0, 0), start;
    var linkCount, totalSize, allocatedSize;
    ok, linkCount, cursor := ReadPackedField(raw, rawLength, cursor, 4);
    if !ok { return; }
    ok, totalSize, cursor := ReadPackedField(raw, rawLength, cursor, 8);
    if !ok { return; }
    ok, allocatedSize, cursor := ReadPackedField(raw, rawLength, cursor, 8);
    if !ok { return; }
    r := FileFacts(linkCount, totalSize, allocatedSize);
  }

  method ReadExtended(raw: Bytes, rawLength: nat, start: nat) returns (ok: bool, r: Extended, cursor: nat)
    requires rawLength <= |raw| && start <= rawLength
    ensures ok <==> start + 28 <= rawLength
    ensures ok ==> cursor == start + 28 && IsExtended(r, raw, start)
  {
    hide Load;
    hide Pow256;
    Widths();
    r, cursor := Extended(0, 0, 0, 0), start;
    var privateSize, cloneId, extendedFlags, cloneRefcount;
    ok, privateSize, cursor := ReadPackedField(raw, rawLength, cursor, 8);
    if !ok { return; }
    ok, cloneId, cursor := ReadPackedField(raw, rawLength, cursor, 8);
    if !ok { return; }
    ok, extendedFlags, cursor := ReadPackedField(raw, rawLength, cursor, 8);
    if !ok { return; }
    ok, cloneRefcount, cursor := ReadPackedField(raw, rawLength, cursor, 4);
    if !ok { return; }
    r := Extended(privateSize, cloneId, extendedFlags, cloneRefcount);
  }

  // ------------------------------------------------------------------------ storing

  ghost predicate KeepsLoads(before: Bytes, after: Bytes, end: nat)
    requires end <= |before| && end <= |after|
  {
    forall o: nat, w: nat :: o + w <= end ==> Load(after, o, w) == Load(before, o, w)
  }

  /** Stores a fact at its place when it is claimed. The record is filled from its start. */
  method Put(wire: array<Byte>, offset: nat, width: nat, value: nat, claimed: bool)
    requires offset + width <= WIRE_SIZE <= wire.Length && value < Pow256(width) && ZeroFrom(wire[..WIRE_SIZE], offset)
    modifies wire
    ensures ZeroFrom(wire[..WIRE_SIZE], offset + width)
    ensures KeepsLoads(old(wire[..WIRE_SIZE]), wire[..WIRE_SIZE], offset)
    ensures Load(wire[..WIRE_SIZE], offset, width) == if claimed then value else 0
  {
    ghost var before := wire[..WIRE_SIZE];
    if claimed {
      var bytes := Little(value, width);
      forall i | 0 <= i < width {
        wire[offset + i] := bytes[i];
      }
      SliceIs(wire[..WIRE_SIZE], offset, bytes);
      LittleRoundTrips(value, width);
    } else {
      LittleZero(width);
      SliceIs(wire[..WIRE_SIZE], offset, Zeros(width));
      ZeroFits(width);
      LittleRoundTrips(0, width);
    }
    SameFront(before, wire[..WIRE_SIZE], offset);
  }

  lemma SliceIs(b: Bytes, offset: nat, part: Bytes)
    requires offset + |part| <= |b| && forall i :: 0 <= i < |part| ==> b[offset + i] == part[i]
    ensures b[offset..offset + |part|] == part
  {
    forall i | 0 <= i < |part| ensures b[offset..offset + |part|][i] == part[i] {
      assert b[offset..offset + |part|][i] == b[offset + i];
    }
  }

  lemma ZeroFits(width: nat)
    ensures 0 < Pow256(width)
  {
  }

  lemma SameFront(before: Bytes, after: Bytes, end: nat)
    requires end <= |before| == |after| && forall i :: 0 <= i < end ==> after[i] == before[i]
    ensures KeepsLoads(before, after, end)
  {
    forall o: nat, w: nat | o + w <= end ensures Load(after, o, w) == Load(before, o, w) {
      assert after[o..o + w] == before[o..o + w];
    }
  }

  ghost predicate Stored(wire: Bytes, m: Masks, c: Common, f: FileFacts, e: Extended)
    requires |wire| == WIRE_SIZE && c.device < 0x1_0000_0000
  {
    && Load(wire, 0, 4) == WIRE_SIZE && Load(wire, 4, 4) == m.common && Load(wire, 8, 4) == m.volume
    && Load(wire, 12, 4) == m.directory && Load(wire, 16, 4) == m.file && Load(wire, 20, 4) == m.extended
    && Load(wire, 24, 8) == (if Claimed(m, Device) then SignExtended(c.device) else 0)
    && Load(wire, 32, 4) == (if Claimed(m, ObjectType) then c.objectType else 0)
    && Load(wire, 36, 4) == (if Claimed(m, Flags) then c.flags else 0)
    && Load(wire, 40, 8) == (if Claimed(m, FileId) then c.fileId else 0)
    && Load(wire, 48, 4) == (if Claimed(m, LinkCount) then f.linkCount else 0)
    && Load(wire, 52, 8) == (if Claimed(m, TotalSize) then f.totalSize else 0)
    && Load(wire, 60, 8) == (if Claimed(m, AllocatedSize) then f.allocatedSize else 0)
    && Load(wire, 68, 8) == (if Claimed(m, PrivateSize) then e.privateSize else 0)
    && Load(wire, 76, 8) == (if Claimed(m, CloneId) then e.cloneId else 0)
    && Load(wire, 84, 8) == (if Claimed(m, ExtendedFlags) then e.extendedFlags else 0)
    && Load(wire, 92, 4) == (if Claimed(m, CloneRefcount) then e.cloneRefcount else 0)
  }

  predicate Small(m: Masks, c: Common, f: FileFacts, e: Extended) {
    && m.common < 0x1_0000_0000 && m.volume < 0x1_0000_0000 && m.directory < 0x1_0000_0000
    && m.file < 0x1_0000_0000 && m.extended < 0x1_0000_0000
    && c.device < 0x1_0000_0000 && c.objectType < 0x1_0000_0000 && c.flags < 0x1_0000_0000 && c.fileId < TWO64
    && f.linkCount < 0x1_0000_0000 && f.totalSize < TWO64 && f.allocatedSize < TWO64
    && e.privateSize < TWO64 && e.cloneId < TWO64 && e.extendedFlags < TWO64 && e.cloneRefcount < 0x1_0000_0000
  }

  method StoreRecord(wire: array<Byte>, m: Masks, c: Common, f: FileFacts, e: Extended)
    requires WIRE_SIZE <= wire.Length && Small(m, c, f, e)
    modifies wire
    ensures Stored(wire[..WIRE_SIZE], m, c, f, e) && ZeroFrom(wire[..WIRE_SIZE], 96)
  {
    hide Load;
    hide Pow256;
    hide ZeroFrom;
    hide Claimed;
    Clear(wire);
    Widths();
    Put(wire, 0, 4, WIRE_SIZE, true);
    Put(wire, 4, 4, m.common, true);
    Put(wire, 8, 4, m.volume, true);
    Put(wire, 12, 4, m.directory, true);
    Put(wire, 16, 4, m.file, true);
    Put(wire, 20, 4, m.extended, true);
    Put(wire, 24, 8, SignExtended(c.device), Claimed(m, Device));
    Put(wire, 32, 4, c.objectType, Claimed(m, ObjectType));
    Put(wire, 36, 4, c.flags, Claimed(m, Flags));
    Put(wire, 40, 8, c.fileId, Claimed(m, FileId));
    Put(wire, 48, 4, f.linkCount, Claimed(m, LinkCount));
    Put(wire, 52, 8, f.totalSize, Claimed(m, TotalSize));
    Put(wire, 60, 8, f.allocatedSize, Claimed(m, AllocatedSize));
    Put(wire, 68, 8, e.privateSize, Claimed(m, PrivateSize));
    Put(wire, 76, 8, e.cloneId, Claimed(m, CloneId));
    Put(wire, 84, 8, e.extendedFlags, Claimed(m, ExtendedFlags));
    Put(wire, 92, 4, e.cloneRefcount, Claimed(m, CloneRefcount));
  }

  method Clear(wire: array<Byte>)
    requires WIRE_SIZE <= wire.Length
    modifies wire
    ensures ZeroFrom(wire[..WIRE_SIZE], 0)
  {
    forall i | 0 <= i < WIRE_SIZE {
      wire[i] := 0;
    }
  }

  // ------------------------------------------------------------------------ parsing

  /** Parses the buffer and fills the record, or refuses and leaves it alone. */
  method ParseItemBuffer(raw: Bytes, wire: array<Byte>) returns (status: Status, wireLength: nat)
    modifies wire
    ensures status.InvalidArgument? <==> |raw| < HEADER_SIZE || wire.Length < WIRE_SIZE
    ensures status.Parsed? <==> WIRE_SIZE <= wire.Length && Accepted(raw)
    ensures status.Parsed? ==> wireLength == WIRE_SIZE && IsWireOf(wire[..WIRE_SIZE], raw)
    ensures !status.Parsed? ==> wireLength == 0 && wire[..] == old(wire[..])
  {
    hide Load;
    hide Within;
    hide Bit;
    hide Stored;
    if |raw| < HEADER_SIZE || wire.Length < WIRE_SIZE {
      return InvalidArgument, 0;
    }
    var rawLength := Load(raw, 0, 4);
    if rawLength < HEADER_SIZE || rawLength > |raw| {
      return ProtocolError, 0;
    }
    var m := RawMasks(raw);
    if !MasksAccepted(m) {
      return ProtocolError, 0;
    }
    var ok, common, cursor := ReadCommon(raw, rawLength, HEADER_SIZE);
    if !ok { return ProtocolError, 0; }
    var hasFileLayout;
    if Claimed(m, ObjectType) {
      hasFileLayout := common.objectType != DIRECTORY;
    } else if rawLength == DIRECTORY_SIZE {
      hasFileLayout := false;
    } else if rawLength == MAX_SIZE {
      hasFileLayout := true;
    } else {
      return ProtocolError, 0;
    }
    if !hasFileLayout && m.file != 0 { return ProtocolError, 0; }
    var file := FileFacts(0, 0, 0);
    if hasFileLayout {
      ok, file, cursor := ReadFileFacts(raw, rawLength, cursor);
      if !ok { return ProtocolError, 0; }
    }
    var extended;
    ok, extended, cursor := ReadExtended(raw, rawLength, cursor);
    if !ok { return ProtocolError, 0; }
    if cursor != rawLength { return ProtocolError, 0; }
    MasksAreSmall(raw);
    StoreRecord(wire, m, common, file, extended);
    StoredIsWire(wire[..WIRE_SIZE], raw, common, file, extended);
    return Parsed, WIRE_SIZE;
  }

  lemma MasksAreSmall(raw: Bytes)
    requires |raw| >= HEADER_SIZE
    ensures var m := RawMasks(raw);
            && m.common < 0x1_0000_0000 && m.volume < 0x1_0000_0000 && m.directory < 0x1_0000_0000
            && m.file < 0x1_0000_0000 && m.extended < 0x1_0000_0000
  {
    Widths();
    LittleBounds(raw[4..8]);
    LittleBounds(raw[8..12]);
    LittleBounds(raw[12..16]);
    LittleBounds(raw[16..20]);
    LittleBounds(raw[20..24]);
  }

  predicate ReadFrom(c: Common, f: FileFacts, e: Extended, raw: Bytes)
    requires Accepted(raw)
  {
    && IsCommon(c, raw, 24) && (HasFileLayout(raw) ==> IsFileFacts(f, raw, 44))
    && IsExtended(e, raw, if HasFileLayout(raw) then 64 else 44)
  }

  /** What was read for a fact, as the record carries it. */
  function FieldOf(c: Common, f: FileFacts, e: Extended, fact: Fact): nat
    requires c.device < 0x1_0000_0000
  {
    match fact
    case Device => SignExtended(c.device)
    case ObjectType => c.objectType
    case Flags => c.flags
    case FileId => c.fileId
    case LinkCount => f.linkCount
    case TotalSize => f.totalSize
    case AllocatedSize => f.allocatedSize
    case PrivateSize => e.privateSize
    case CloneId => e.cloneId
    case ExtendedFlags => e.extendedFlags
    case CloneRefcount => e.cloneRefcount
  }

  lemma StoredField(wire: Bytes, m: Masks, c: Common, f: FileFacts, e: Extended, fact: Fact)
    requires |wire| == WIRE_SIZE && c.device < 0x1_0000_0000 && Stored(wire, m, c, f, e)
    ensures Load(wire, WireOffset(fact), WireWidth(fact)) == if Claimed(m, fact) then FieldOf(c, f, e, fact) else 0
  {
    hide Load;
    hide Claimed;
    hide SignExtended;
  }

  lemma FileFactsAreThere(raw: Bytes, fact: Fact)
    requires Accepted(raw) && Claimed(RawMasks(raw), fact)
    requires fact.LinkCount? || fact.TotalSize? || fact.AllocatedSize?
    ensures HasFileLayout(raw)
  {
    hide Load;
    hide Bit;
    hide Within;
    BitOfZero(LINK_COUNT);
    BitOfZero(TOTAL_SIZE);
    BitOfZero(ALLOCATED_SIZE);
  }

  lemma ReadField(raw: Bytes, c: Common, f: FileFacts, e: Extended, fact: Fact)
    requires Accepted(raw) && ReadFrom(c, f, e, raw) && Claimed(RawMasks(raw), fact) && c.device < 0x1_0000_0000
    ensures FieldOf(c, f, e, fact) == RawValue(raw, fact)
  {
    if fact.LinkCount? || fact.TotalSize? || fact.AllocatedSize? {
      FileFactsAreThere(raw, fact);
    }
    hide Load;
    hide Claimed;
    hide RawMasks;
    hide HasFileLayout;
    hide MasksAccepted;
    hide SignExtended;
  }

  lemma StoredFact(wire: Bytes, raw: Bytes, c: Common, f: FileFacts, e: Extended, fact: Fact)
    requires |wire| == WIRE_SIZE && Accepted(raw) && ReadFrom(c, f, e, raw) && Stored(wire, RawMasks(raw), c, f, e)
    ensures Load(wire, WireOffset(fact), WireWidth(fact)) ==
      if Claimed(RawMasks(raw), fact) then RawValue(raw, fact) else 0
  {
    hide Load;
    hide Claimed;
    hide Stored;
    hide RawValue;
    hide HasFileLayout;
    hide MasksAccepted;
    hide IsExtended;
    hide IsFileFacts;
    StoredField(wire, RawMasks(raw), c, f, e, fact);
    if Claimed(RawMasks(raw), fact) {
      ReadField(raw, c, f, e, fact);
    }
  }

  lemma StoredIsWire(wire: Bytes, raw: Bytes, c: Common, f: FileFacts, e: Extended)
    requires |wire| == WIRE_SIZE && Accepted(raw) && ReadFrom(c, f, e, raw) && Stored(wire, RawMasks(raw), c, f, e)
    requires ZeroFrom(wire, 96)
    ensures IsWireOf(wire, raw)
  {
    hide Load;
    hide MasksAccepted;
    hide ReadFrom;
    hide Claimed;
    forall fact ensures Load(wire, WireOffset(fact), WireWidth(fact)) ==
        if Claimed(RawMasks(raw), fact) then RawValue(raw, fact) else 0 {
      StoredFact(wire, raw, c, f, e, fact);
    }
  }
}
