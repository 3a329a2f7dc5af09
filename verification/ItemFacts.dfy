/** Buffer, record and evidence side by side, in offsets, bits and codes. */
module ItemFacts {
  import opened Wrappers
  import opened Numbers
  import opened ItemWire

  /** Loading puts the least significant byte first. */
  lemma LoadsLeastFirst(b: Bytes, offset: nat)
    requires offset + 4 <= |b|
    ensures Load(b, offset, 4) ==
      (b[offset] as int) + 0x100 * (b[offset + 1] as int) + 0x1_0000 * (b[offset + 2] as int)
      + 0x100_0000 * (b[offset + 3] as int)
    ensures offset + 8 <= |b| ==> Load(b, offset, 8) == Load(b, offset, 4) + 0x1_0000_0000 * Load(b, offset + 4, 4)
  {
    FourLittle(b[offset..offset + 4]);
    if offset + 8 <= |b| {
      var w := b[offset..offset + 8];
      assert w[..4] == b[offset..offset + 4] && w[4..] == b[offset + 4..offset + 4 + 4];
      FourLittle(w[..4]);
      SkipOne(w);
      SkipOne(w[1..]);
      SkipOne(w[2..]);
      SkipOne(w[3..]);
      hide LittleValue;
      assert w[1..][1..] == w[2..] && w[2..][1..] == w[3..] && w[3..][1..] == w[4..];
    }
  }

  lemma SkipOne(b: Bytes)
    requires b != []
    ensures LittleValue(b) == b[0] + 256 * LittleValue(b[1..])
  {
  }

  lemma FourLittle(b: Bytes)
    requires |b| == 4
    ensures LittleValue(b) ==
      (b[0] as int) + 0x100 * (b[1] as int) + 0x1_0000 * (b[2] as int) + 0x100_0000 * (b[3] as int)
  {
    SkipOne(b);
    SkipOne(b[1..]);
    SkipOne(b[2..]);
    SkipOne(b[3..]);
    assert b[1..][1..] == b[2..] && b[2..][1..] == b[3..] && b[3..][1..] == [];
  }

  /** A claimed number, zero otherwise. */
  function Stored(claimed: bool, n: nat): nat {
    if claimed then n else 0
  }

  /** Where the extended attributes start: after the file attributes, when there are any. */
  function ExtendedAt(raw: Bytes): (n: nat)
    requires Accepted(raw)
    ensures n + 28 == Load(raw, 0, 4) <= |raw|
  {
    if Load(raw, 0, 4) == 92 then 64 else 44
  }

  /** The pattern of a 32-bit device number in 64 bits, its sign kept. */
  function Widened(n: nat): nat {
    if n >= 0x8000_0000 then n + 0xFFFF_FFFF_0000_0000 else n
  }

  /** The record slot by slot. */
  lemma RecordIsLaidOut(wire: Bytes, raw: Bytes)
    requires Accepted(raw) && IsWireOf(wire, raw)
    ensures var common, file, extended, x := Load(raw, 4, 4), Load(raw, 16, 4), Load(raw, 20, 4), ExtendedAt(raw);
      && |wire| == 104 && Load(wire, 0, 4) == 104
      && Load(wire, 4, 4) == common && Load(wire, 8, 4) == 0 && Load(wire, 12, 4) == 0
      && Load(wire, 16, 4) == file && Load(wire, 20, 4) == extended
      && Load(wire, 24, 8) == Stored(Bit(common, 1), Widened(Load(raw, 24, 4)))
      && Load(wire, 32, 4) == Stored(Bit(common, 3), Load(raw, 28, 4))
      && Load(wire, 36, 4) == Stored(Bit(common, 18), Load(raw, 32, 4))
      && Load(wire, 40, 8) == Stored(Bit(common, 25), Load(raw, 36, 8))
      && Load(wire, 48, 4) == Stored(Bit(file, 0), Load(raw, 44, 4))
      && Load(wire, 52, 8) == Stored(Bit(file, 1), Load(raw, 48, 8))
      && Load(wire, 60, 8) == Stored(Bit(file, 2), Load(raw, 56, 8))
      && Load(wire, 68, 8) == Stored(Bit(extended, 3), Load(raw, x, 8))
      && Load(wire, 76, 8) == Stored(Bit(extended, 8), Load(raw, x + 8, 8))
      && Load(wire, 84, 8) == Stored(Bit(extended, 9), Load(raw, x + 16, 8))
      && Load(wire, 92, 4) == Stored(Bit(extended, 12), Load(raw, x + 24, 4))
  {
    hide Load;
    hide Bit;
    hide Within;
    hide Said;
    hide IsWireOf;
    WireHead(wire, raw);
    WireFact(wire, raw, Device);
    WireFact(wire, raw, ObjectType);
    WireFact(wire, raw, Flags);
    WireFact(wire, raw, FileId);
    WireFact(wire, raw, LinkCount);
    WireFact(wire, raw, TotalSize);
    WireFact(wire, raw, AllocatedSize);
    WireFact(wire, raw, PrivateSize);
    WireFact(wire, raw, CloneId);
    WireFact(wire, raw, ExtendedFlags);
    WireFact(wire, raw, CloneRefcount);
    CommonIsSaid(raw);
    FileIsSaid(raw);
    ExtendedIsSaid(raw);
  }

  lemma CommonIsSaid(raw: Bytes)
    requires Accepted(raw)
    ensures var common := Load(raw, 4, 4);
      && Said(raw, Device) == CapabilityOf(Bit(common, 1), Widened(Load(raw, 24, 4)))
      && Said(raw, ObjectType) == CapabilityOf(Bit(common, 3), Load(raw, 28, 4))
      && Said(raw, Flags) == CapabilityOf(Bit(common, 18), Load(raw, 32, 4))
      && Said(raw, FileId) == CapabilityOf(Bit(common, 25), Load(raw, 36, 8))
  {
    hide Load;
    hide Bit;
    hide Within;
  }

  lemma FileIsSaid(raw: Bytes)
    requires Accepted(raw)
    ensures var file := Load(raw, 16, 4);
      && Said(raw, LinkCount) == CapabilityOf(Bit(file, 0), Load(raw, 44, 4))
      && Said(raw, TotalSize) == CapabilityOf(Bit(file, 1), Load(raw, 48, 8))
      && Said(raw, AllocatedSize) == CapabilityOf(Bit(file, 2), Load(raw, 56, 8))
  {
    hide Load;
    hide Bit;
    hide Within;
  }

  lemma ExtendedIsSaid(raw: Bytes)
    requires Accepted(raw)
    ensures var extended, x := Load(raw, 20, 4), ExtendedAt(raw);
      && Said(raw, PrivateSize) == CapabilityOf(Bit(extended, 3), Load(raw, x, 8))
      && Said(raw, CloneId) == CapabilityOf(Bit(extended, 8), Load(raw, x + 8, 8))
      && Said(raw, ExtendedFlags) == CapabilityOf(Bit(extended, 9), Load(raw, x + 16, 8))
      && Said(raw, CloneRefcount) == CapabilityOf(Bit(extended, 12), Load(raw, x + 24, 4))
  {
    hide Load;
    hide Bit;
    hide Within;
  }

  // ---------------------------------------------------------------------- the evidence

  /** A device number is signed: it differs from its 32-bit pattern by a multiple of 2^32. */
  ghost predicate IsDevice(c: Capability<int>, claimed: bool, pattern: nat) {
    && (c.Known? <==> claimed)
    && (claimed ==> -0x8000_0000 <= c.value < 0x8000_0000 && (c.value - pattern) % 0x1_0000_0000 == 0)
  }

  /** The codes of a regular file, a directory and a symbolic link are 1, 2 and 5. */
  ghost predicate IsKind(c: Capability<ObjectKind>, claimed: bool, code: nat) {
    && (c.Known? <==> claimed)
    && (c == Known(Regular) <==> claimed && code == 1)
    && (c == Known(Directory) <==> claimed && code == 2)
    && (c == Known(SymbolicLink) <==> claimed && code == 5)
  }

  /** A claimed size has no top bit. */
  predicate SizesAreSigned(raw: Bytes)
    requires Accepted(raw)
  {
    var file, extended := Load(raw, 16, 4), Load(raw, 20, 4);
    && (Bit(file, 1) ==> Load(raw, 48, 8) < 0x8000_0000_0000_0000)
    && (Bit(file, 2) ==> Load(raw, 56, 8) < 0x8000_0000_0000_0000)
    && (Bit(extended, 3) ==> Load(raw, ExtendedAt(raw), 8) < 0x8000_0000_0000_0000)
  }

  /** What is parsed from the record, in terms of the buffer. */
  lemma EvidenceIsPlain(wire: Bytes, raw: Bytes)
    requires Accepted(raw) && IsWireOf(wire, raw)
    ensures Parse(wire).Ok? <==> SizesAreSigned(raw)
    ensures Parse(wire).Ok? ==>
      var e, common, file := Parse(wire).value, Load(raw, 4, 4), Load(raw, 16, 4);
      var extended, x := Load(raw, 20, 4), ExtendedAt(raw);
      && IsDevice(e.device, Bit(common, 1), Load(raw, 24, 4))
      && IsKind(e.objectKind, Bit(common, 3), Load(raw, 28, 4))
      && e.vfsFlags == CapabilityOf(Bit(common, 18), Load(raw, 32, 4))
      && e.isDataless == CapabilityOf(Bit(common, 18), Bit(Load(raw, 32, 4), 30))
      && e.fileId == CapabilityOf(Bit(common, 25), Load(raw, 36, 8))
      && e.linkCount == CapabilityOf(Bit(file, 0), Load(raw, 44, 4))
      && e.logicalBytes == CapabilityOf(Bit(file, 1), Load(raw, 48, 8))
      && e.nominalAllocatedBytes == CapabilityOf(Bit(file, 2), Load(raw, 56, 8))
      && e.immediatePrivateReclaimBytes == CapabilityOf(Bit(extended, 3), Load(raw, x, 8))
      && e.cloneId == CapabilityOf(Bit(extended, 8), Load(raw, x + 8, 8))
      && e.mayShareBlocks == CapabilityOf(Bit(extended, 9), Bit(Load(raw, x + 16, 8), 0))
      && e.isSyncRoot == CapabilityOf(Bit(extended, 9), Bit(Load(raw, x + 16, 8), 2))
      && e.sharesAllBlocks == CapabilityOf(Bit(extended, 9), Bit(Load(raw, x + 16, 8), 6))
      && e.cloneRefcount == CapabilityOf(Bit(extended, 12), Load(raw, x + 24, 4))
  {
    hide Load;
    hide Bit;
    hide Said;
    hide Accepted;
    hide IsWireOf;
    hide Parse;
    WireIsReported(wire, raw);
    CommonIsSaid(raw);
    FileIsSaid(raw);
    ExtendedIsSaid(raw);
    PatternFits(raw, 24);
    DeviceIsSigned(Load(raw, 24, 4));
  }

  lemma PatternFits(raw: Bytes, offset: nat)
    requires offset + 4 <= |raw|
    ensures Load(raw, offset, 4) < 0x1_0000_0000
  {
    Widths();
    LittleBounds(raw[offset..offset + 4]);
  }

  lemma DeviceIsSigned(n: nat)
    requires n < 0x1_0000_0000
    ensures -0x8000_0000 <= ToSigned(Widened(n)) < 0x8000_0000
    ensures (ToSigned(Widened(n)) - n) % 0x1_0000_0000 == 0
  {
  }

  /** A size with its top bit set is an error: all ones is a negative size, anything else overflows. The first
      of the three such sizes is the one reported. */
  lemma BadSizeIsReported(wire: Bytes, raw: Bytes)
    requires Accepted(raw) && IsWireOf(wire, raw)
    ensures var bad := (claimed: bool, n: nat) => claimed && n >= 0x8000_0000_0000_0000;
      var logical := bad(Bit(Load(raw, 16, 4), 1), Load(raw, 48, 8));
      var nominal := bad(Bit(Load(raw, 16, 4), 2), Load(raw, 56, 8));
      var private := bad(Bit(Load(raw, 20, 4), 3), Load(raw, ExtendedAt(raw), 8));
      && (logical ==> IsSizeError(Parse(wire), LogicalBytes, Load(raw, 48, 8)))
      && (!logical && nominal ==> IsSizeError(Parse(wire), NominalAllocatedBytes, Load(raw, 56, 8)))
      && (!logical && !nominal && private ==>
            IsSizeError(Parse(wire), ImmediatePrivateReclaimBytes, Load(raw, ExtendedAt(raw), 8)))
  {
    hide Load;
    hide Bit;
    hide Said;
    hide Accepted;
    hide IsWireOf;
    hide Parse;
    WireIsReported(wire, raw);
    FileIsSaid(raw);
    ExtendedIsSaid(raw);
  }

  ghost predicate IsSizeError(r: Result<Evidence, WireError>, field: Size, n: nat) {
    && (n == 0xFFFF_FFFF_FFFF_FFFF ==> r == Err(Negative(field)))
    && (n != 0xFFFF_FFFF_FFFF_FFFF ==> r == Err(Overflow(field)))
  }
}
