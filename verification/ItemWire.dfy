/** The attribute buffer the kernel packs, the fixed wire record made of it, and the evidence read
    from that record. Integers are stored least significant byte first. */
module ItemWire {
  import opened Wrappers
  import opened Numbers

  // ------------------------------------------------------------ little-endian integers

  function Little(n: nat, width: nat): (b: Bytes)
    ensures |b| == width
  {
    if width == 0 then [] else [n % 256] + Little(n / 256, width - 1)
  }

  function LittleValue(b: Bytes): nat {
    if b == [] then 0 else b[0] + 256 * LittleValue(b[1..])
  }

  function Zeros(n: nat): Bytes {
    seq(n, i => 0)
  }

  lemma {:induction false} LittleRoundTrips(n: nat, width: nat)
    requires n < Pow256(width)
    ensures LittleValue(Little(n, width)) == n
  {
    if width > 0 {
      LittleRoundTrips(n / 256, width - 1);
      assert Little(n, width)[1..] == Little(n / 256, width - 1);
    }
  }

  lemma {:induction false} LittleBounds(b: Bytes)
    ensures LittleValue(b) < Pow256(|b|)
  {
    if b != [] {
      LittleBounds(b[1..]);
    }
  }

  lemma {:induction false} LittleZero(width: nat)
    ensures Little(0, width) == Zeros(width)
  {
    if width > 0 {
      LittleZero(width - 1);
      assert Zeros(width) == [0] + Zeros(width - 1);
    }
  }

  function Load(b: Bytes, offset: nat, width: nat): nat
    requires offset + width <= |b|
  {
    LittleValue(b[offset..offset + width])
  }

  // ----------------------------------------------------------------------- bit masks

  /** Bit `k` of a mask, counted from the least significant. */
  predicate Bit(mask: nat, k: nat) {
    (mask / Pow2(k)) % 2 == 1
  }

  /** No bit outside `allowed` is set in a 32-bit mask. */
  predicate Within(mask: nat, allowed: set<nat>) {
    forall k :: 0 <= k < 32 && k !in allowed ==> !Bit(mask, k)
  }

  // Bit positions of <sys/attr.h>, and the directory type of <sys/vnode.h>.
  const RETURNED_ATTRS: nat := 31
  const DEVICE: nat := 1
  const OBJECT_TYPE: nat := 3
  const FLAGS: nat := 18
  const FILE_ID: nat := 25
  const LINK_COUNT: nat := 0
  const TOTAL_SIZE: nat := 1
  const ALLOCATED_SIZE: nat := 2
  const PRIVATE_SIZE: nat := 3
  const CLONE_ID: nat := 8
  const EXTENDED_FLAGS: nat := 9
  const CLONE_REFCOUNT: nat := 12
  const DIRECTORY: nat := 2

  // Flag positions of <sys/stat.h>.
  const DATALESS: nat := 30
  const MAY_SHARE_BLOCKS: nat := 0
  const SYNC_ROOT: nat := 2
  const SHARES_ALL_BLOCKS: nat := 6

  const COMMON_BITS: set<nat> := {RETURNED_ATTRS, DEVICE, OBJECT_TYPE, FLAGS, FILE_ID}
  const FILE_BITS: set<nat> := {LINK_COUNT, TOTAL_SIZE, ALLOCATED_SIZE}
  const EXTENDED_BITS: set<nat> := {PRIVATE_SIZE, CLONE_ID, EXTENDED_FLAGS, CLONE_REFCOUNT}

  datatype Masks = Masks(common: nat, volume: nat, directory: nat, file: nat, extended: nat)

  // --------------------------------------------------------------- the kernel's buffer

  const HEADER_SIZE: nat := 24
  const DIRECTORY_SIZE: nat := 72
  const MAX_SIZE: nat := 92
  const WIRE_SIZE: nat := 104

  function RawMasks(raw: Bytes): Masks
    requires |raw| >= HEADER_SIZE
  {
    Masks(Load(raw, 4, 4), Load(raw, 8, 4), Load(raw, 12, 4), Load(raw, 16, 4), Load(raw, 20, 4))
  }

  predicate MasksAccepted(m: Masks) {
    && Bit(m.common, RETURNED_ATTRS) && Within(m.common, COMMON_BITS)
    && m.volume == 0 && m.directory == 0
    && Within(m.file, FILE_BITS) && Within(m.extended, EXTENDED_BITS)
  }

  /** Whether the buffer has room for the file attributes: by the object's type when it is claimed,
      else by the buffer's length. */
  function HasFileLayout(raw: Bytes): bool
    requires |raw| >= 44
  {
    if Bit(RawMasks(raw).common, OBJECT_TYPE) then Load(raw, 28, 4) != DIRECTORY else Load(raw, 0, 4) == MAX_SIZE
  }

  /** The buffers the parser accepts: the declared length is exactly that of the layout. */
  predicate Accepted(raw: Bytes) {
    && |raw| >= HEADER_SIZE
    && HEADER_SIZE <= Load(raw, 0, 4) <= |raw|
    && MasksAccepted(RawMasks(raw))
    && Load(raw, 0, 4) >= 44
    && Load(raw, 0, 4) == (if HasFileLayout(raw) then MAX_SIZE else DIRECTORY_SIZE)
    && (HasFileLayout(raw) || RawMasks(raw).file == 0)
  }

  datatype Fact =
    | Device | ObjectType | Flags | FileId
    | LinkCount | TotalSize | AllocatedSize
    | PrivateSize | CloneId | ExtendedFlags | CloneRefcount

  predicate Claimed(m: Masks, f: Fact) {
    match f
    case Device => Bit(m.common, DEVICE)
    case ObjectType => Bit(m.common, OBJECT_TYPE)
    case Flags => Bit(m.common, FLAGS)
    case FileId => Bit(m.common, FILE_ID)
    case LinkCount => Bit(m.file, LINK_COUNT)
    case TotalSize => Bit(m.file, TOTAL_SIZE)
    case AllocatedSize => Bit(m.file, ALLOCATED_SIZE)
    case PrivateSize => Bit(m.extended, PRIVATE_SIZE)
    case CloneId => Bit(m.extended, CLONE_ID)
    case ExtendedFlags => Bit(m.extended, EXTENDED_FLAGS)
    case CloneRefcount => Bit(m.extended, CLONE_REFCOUNT)
  }

  function RawWidth(f: Fact): nat {
    if f.Device? || f.ObjectType? || f.Flags? || f.LinkCount? || f.CloneRefcount? then 4 else 8
  }

  /** Where a fact lies in the kernel's buffer. The last four move with the file attributes. */
  function RawOffset(f: Fact, file: bool): nat {
    match f
    case Device => 24
    case ObjectType => 28
    case Flags => 32
    case FileId => 36
    case LinkCount => 44
    case TotalSize => 48
    case AllocatedSize => 56
    case PrivateSize => if file then 64 else 44
    case CloneId => if file then 72 else 52
    case ExtendedFlags => if file then 80 else 60
    case CloneRefcount => if file then 88 else 68
  }

  function WireOffset(f: Fact): nat {
    match f
    case Device => 24
    case ObjectType => 32
    case Flags => 36
    case FileId => 40
    case LinkCount => 48
    case TotalSize => 52
    case AllocatedSize => 60
    case PrivateSize => 68
    case CloneId => 76
    case ExtendedFlags => 84
    case CloneRefcount => 92
  }

  function WireWidth(f: Fact): nat {
    if f.Device? then 8 else RawWidth(f)
  }

  /** A 32-bit pattern widened to 64 bits with its sign. */
  function SignExtended(n: nat): nat
    requires n < 0x1_0000_0000
  {
    if n < 0x8000_0000 then n else n + (TWO64 - 0x1_0000_0000)
  }

  /** The pattern a fact has in the kernel's buffer, as the wire carries it. */
  function RawValue(raw: Bytes, f: Fact): (n: nat)
    requires Accepted(raw) && Claimed(RawMasks(raw), f)
    ensures n < Pow256(WireWidth(f))
  {
    ClaimedFactsFit(raw, f);
    var n := Load(raw, RawOffset(f, HasFileLayout(raw)), RawWidth(f));
    LittleBounds(raw[RawOffset(f, HasFileLayout(raw))..RawOffset(f, HasFileLayout(raw)) + RawWidth(f)]);
    Widths();
    if f.Device? then SignExtended(n) else n
  }

  lemma BitOfZero(k: nat)
    ensures !Bit(0, k)
  {
  }

  lemma ClaimedFactsFit(raw: Bytes, f: Fact)
    requires Accepted(raw) && Claimed(RawMasks(raw), f)
    ensures RawOffset(f, HasFileLayout(raw)) + RawWidth(f) <= Load(raw, 0, 4) <= |raw|
  {
    BitOfZero(LINK_COUNT);
    BitOfZero(TOTAL_SIZE);
    BitOfZero(ALLOCATED_SIZE);
  }

  // ------------------------------------------------------------------- the wire record

  /** The record made of an accepted buffer: its own size, the masks, every claimed fact at its
      place, and zero elsewhere. */
  ghost predicate IsWireOf(wire: Bytes, raw: Bytes)
    requires Accepted(raw)
  {
    && |wire| == WIRE_SIZE && Load(wire, 0, 4) == WIRE_SIZE
    && RawMasks(wire) == RawMasks(raw)
    && ZeroFrom(wire, 96)
    && forall f :: Load(wire, WireOffset(f), WireWidth(f)) == if Claimed(RawMasks(raw), f) then RawValue(raw, f) else 0
  }

  ghost predicate ZeroFrom(b: Bytes, from: nat) {
    forall i :: from <= i < |b| ==> b[i] == 0
  }

  // ---------------------------------------------------------------------- the evidence

  datatype Size = LogicalBytes | NominalAllocatedBytes | ImmediatePrivateReclaimBytes

  datatype WireError =
    | Truncated
    | InvalidLength(declared: nat, actual: nat)
    | UnexpectedReturnedAttributes(masks: Masks)
    | Negative(field: Size)
    | Overflow(field: Size)

  datatype Capability<+T> = Known(value: T) | Unavailable

  datatype ObjectKind = Regular | Directory | SymbolicLink | Other

  function KindOf(n: nat): ObjectKind {
    if n == 1 then Regular else if n == DIRECTORY then Directory else if n == 5 then SymbolicLink else Other
  }

  /** The facts that depend on the record. */
  datatype Evidence = Evidence(
    masks: Masks,
    device: Capability<int>,
    objectKind: Capability<ObjectKind>,
    fileId: Capability<nat>,
    linkCount: Capability<nat>,
    logicalBytes: Capability<nat>,
    nominalAllocatedBytes: Capability<nat>,
    immediatePrivateReclaimBytes: Capability<nat>,
    mayShareBlocks: Capability<bool>,
    sharesAllBlocks: Capability<bool>,
    cloneId: Capability<nat>,
    cloneRefcount: Capability<nat>,
    vfsFlags: Capability<nat>,
    isDataless: Capability<bool>,
    isSyncRoot: Capability<bool>)

  function CapabilityOf<T>(present: bool, value: T): Capability<T> {
    if present then Known(value) else Unavailable
  }

  /** A claimed size must be a non-negative 64-bit integer. */
  function SizeCapability(present: bool, raw: nat, field: Size): Result<Capability<nat>, WireError> {
    if !present then Ok(Unavailable)
    else if raw == TWO64 - 1 then Err(Negative(field))
    else if raw >= TWO63 then Err(Overflow(field))
    else Ok(Known(raw))
  }

  /** The evidence in a record of the right size, its three sizes aside. */
  function EvidenceOf(data: Bytes, m: Masks, logical: Capability<nat>, nominal: Capability<nat>,
                      private: Capability<nat>): Evidence
    requires |data| == WIRE_SIZE
  {
    var flags, extended := Load(data, 36, 4), Load(data, 84, 8);
    var extendedKnown := Claimed(m, ExtendedFlags);
    Evidence(
      m,
      CapabilityOf(Claimed(m, Device), ToSigned(Load(data, 24, 8))),
      CapabilityOf(Claimed(m, ObjectType), KindOf(Load(data, 32, 4))),
      CapabilityOf(Claimed(m, FileId), Load(data, 40, 8)),
      CapabilityOf(Claimed(m, LinkCount), Load(data, 48, 4)),
      logical, nominal, private,
      CapabilityOf(extendedKnown, Bit(extended, MAY_SHARE_BLOCKS)),
      CapabilityOf(extendedKnown, Bit(extended, SHARES_ALL_BLOCKS)),
      CapabilityOf(Claimed(m, CloneId), Load(data, 76, 8)),
      CapabilityOf(Claimed(m, CloneRefcount), Load(data, 92, 4)),
      CapabilityOf(Claimed(m, Flags), flags),
      CapabilityOf(Claimed(m, Flags), Bit(flags, DATALESS)),
      CapabilityOf(extendedKnown, Bit(extended, SYNC_ROOT)))
  }

  function Parse(data: Bytes): Result<Evidence, WireError> {
    if |data| < 4 then Err(Truncated)
    else if Load(data, 0, 4) != |data| || |data| != WIRE_SIZE then Err(InvalidLength(Load(data, 0, 4), |data|))
    else
      var m := RawMasks(data);
      if m.volume != 0 || m.directory != 0 || !Within(m.common, COMMON_BITS) || !Within(m.file, FILE_BITS)
         || !Within(m.extended, EXTENDED_BITS)
      then Err(UnexpectedReturnedAttributes(m))
      else
        var logical := SizeCapability(Claimed(m, TotalSize), Load(data, 52, 8), LogicalBytes);
        if logical.Err? then Err(logical.error)
        else
          var nominal := SizeCapability(Claimed(m, AllocatedSize), Load(data, 60, 8), NominalAllocatedBytes);
          if nominal.Err? then Err(nominal.error)
          else
            var private := SizeCapability(Claimed(m, PrivateSize), Load(data, 68, 8), ImmediatePrivateReclaimBytes);
            if private.Err? then Err(private.error)
            else
              Ok(EvidenceOf(data, m, logical.value, nominal.value, private.value))
  }

  // ------------------------------------------------------------------- main results

  /** What the kernel's buffer says about a fact: its pattern, if it is claimed. */
  function Said(raw: Bytes, f: Fact): Capability<nat>
    requires Accepted(raw)
  {
    if Claimed(RawMasks(raw), f) then Known(RawValue(raw, f)) else Unavailable
  }

  /** The first claimed size that is out of range, in the order they are read. */
  function BadSize(raw: Bytes): Capability<WireError>
    requires Accepted(raw)
  {
    var l, a, p := Said(raw, TotalSize), Said(raw, AllocatedSize), Said(raw, PrivateSize);
    if l.Known? && l.value >= TWO63 then Known(SizeError(l.value, LogicalBytes))
    else if a.Known? && a.value >= TWO63 then Known(SizeError(a.value, NominalAllocatedBytes))
    else if p.Known? && p.value >= TWO63 then Known(SizeError(p.value, ImmediatePrivateReclaimBytes))
    else Unavailable
  }

  function SizeError(n: nat, field: Size): WireError {
    if n == TWO64 - 1 then Negative(field) else Overflow(field)
  }

  function Mapped<T, U>(c: Capability<T>, f: T -> U): Capability<U> {
    if c.Known? then Known(f(c.value)) else Unavailable
  }

  /** The evidence has exactly what the kernel's buffer says. */
  ghost predicate Reports(e: Evidence, raw: Bytes)
    requires Accepted(raw)
  {
    && e.masks == RawMasks(raw)
    && e.device == Mapped(Said(raw, Device), n => ToSigned(n))
    && e.objectKind == Mapped(Said(raw, ObjectType), n => KindOf(n))
    && e.fileId == Said(raw, FileId) && e.linkCount == Said(raw, LinkCount)
    && e.logicalBytes == Said(raw, TotalSize) && e.nominalAllocatedBytes == Said(raw, AllocatedSize)
    && e.immediatePrivateReclaimBytes == Said(raw, PrivateSize)
    && e.mayShareBlocks == Mapped(Said(raw, ExtendedFlags), n => Bit(n, MAY_SHARE_BLOCKS))
    && e.sharesAllBlocks == Mapped(Said(raw, ExtendedFlags), n => Bit(n, SHARES_ALL_BLOCKS))
    && e.cloneId == Said(raw, CloneId) && e.cloneRefcount == Said(raw, CloneRefcount)
    && e.vfsFlags == Said(raw, Flags)
    && e.isDataless == Mapped(Said(raw, Flags), n => Bit(n, DATALESS))
    && e.isSyncRoot == Mapped(Said(raw, ExtendedFlags), n => Bit(n, SYNC_ROOT))
  }

  lemma WireFact(wire: Bytes, raw: Bytes, f: Fact)
    requires Accepted(raw) && IsWireOf(wire, raw)
    ensures Load(wire, WireOffset(f), WireWidth(f)) == if Said(raw, f).Known? then Said(raw, f).value else 0
    ensures Claimed(RawMasks(raw), f) <==> Said(raw, f).Known?
  {
    hide Load;
    hide Claimed;
    hide RawValue;
  }

  lemma WireHead(wire: Bytes, raw: Bytes)
    requires Accepted(raw) && IsWireOf(wire, raw)
    ensures |wire| == WIRE_SIZE == Load(wire, 0, 4)
    ensures RawMasks(wire) == RawMasks(raw)
    ensures MasksAccepted(RawMasks(raw))
  {
    hide Load;
    hide MasksAccepted;
  }

  lemma EvidenceReports(wire: Bytes, raw: Bytes)
    requires Accepted(raw) && IsWireOf(wire, raw)
    ensures |wire| == WIRE_SIZE
    ensures Reports(EvidenceOf(wire, RawMasks(raw), Said(raw, TotalSize), Said(raw, AllocatedSize),
                               Said(raw, PrivateSize)), raw)
  {
    hide Load;
    hide Within;
    hide Bit;
    hide Said;
    hide Claimed;
    hide KindOf;
    hide ToSigned;
    hide IsWireOf;
    hide Accepted;
    hide RawMasks;
    WireHead(wire, raw);
    WireFact(wire, raw, Device);
    WireFact(wire, raw, ObjectType);
    WireFact(wire, raw, Flags);
    WireFact(wire, raw, FileId);
    WireFact(wire, raw, LinkCount);
    WireFact(wire, raw, CloneId);
    WireFact(wire, raw, ExtendedFlags);
    WireFact(wire, raw, CloneRefcount);
  }

  /** An accepted buffer is reported faithfully, or refused for a claimed size that is out of range. */
  lemma WireIsReported(wire: Bytes, raw: Bytes)
    requires Accepted(raw) && IsWireOf(wire, raw)
    ensures match BadSize(raw)
            case Known(e) => Parse(wire) == Err(e)
            case Unavailable => Parse(wire).Ok? && Reports(Parse(wire).value, raw)
  {
    hide Load;
    hide Within;
    hide Bit;
    hide Said;
    hide Claimed;
    hide EvidenceOf;
    hide Reports;
    hide IsWireOf;
    hide Accepted;
    hide RawMasks;
    WireHead(wire, raw);
    EvidenceReports(wire, raw);
    WireFact(wire, raw, TotalSize);
    WireFact(wire, raw, AllocatedSize);
    WireFact(wire, raw, PrivateSize);
    SizesFit(raw);
  }

  lemma SizesFit(raw: Bytes)
    requires Accepted(raw)
    ensures Said(raw, TotalSize).Known? ==> Said(raw, TotalSize).value < TWO64
    ensures Said(raw, AllocatedSize).Known? ==> Said(raw, AllocatedSize).value < TWO64
    ensures Said(raw, PrivateSize).Known? ==> Said(raw, PrivateSize).value < TWO64
  {
    Widths();
    hide RawValue;
  }

  /** The same header and the same claimed slots, whatever the others hold. */
  predicate SameClaims(raw: Bytes, other: Bytes)
    requires Accepted(raw)
  {
    && |other| >= Load(raw, 0, 4) && other[..HEADER_SIZE] == raw[..HEADER_SIZE]
    && forall f :: Claimed(RawMasks(raw), f) ==>
      (ClaimedFactsFit(raw, f);
       var o := RawOffset(f, HasFileLayout(raw));
       other[o..o + RawWidth(f)] == raw[o..o + RawWidth(f)])
  }

  lemma SliceOfPrefix(b: Bytes, n: nat, i: nat, j: nat)
    requires i <= j <= n <= |b|
    ensures b[..n][i..j] == b[i..j]
  {
  }

  lemma HeaderIsSame(raw: Bytes, other: Bytes, offset: nat)
    requires |raw| >= HEADER_SIZE && |other| >= HEADER_SIZE && other[..HEADER_SIZE] == raw[..HEADER_SIZE]
    requires offset + 4 <= HEADER_SIZE
    ensures Load(other, offset, 4) == Load(raw, offset, 4)
  {
    hide LittleValue;
    SliceOfPrefix(raw, HEADER_SIZE, offset, offset + 4);
    SliceOfPrefix(other, HEADER_SIZE, offset, offset + 4);
  }

  lemma SameClaimsAreAccepted(raw: Bytes, other: Bytes)
    requires Accepted(raw) && SameClaims(raw, other)
    ensures Accepted(other) && HasFileLayout(other) == HasFileLayout(raw) && RawMasks(other) == RawMasks(raw)
  {
    hide Load;
    hide Within;
    hide Bit;
    HeaderIsSame(raw, other, 0);
    HeaderIsSame(raw, other, 4);
    HeaderIsSame(raw, other, 8);
    HeaderIsSame(raw, other, 12);
    HeaderIsSame(raw, other, 16);
    HeaderIsSame(raw, other, 20);
    if Claimed(RawMasks(raw), ObjectType) {
      LoadsAlike(raw, other, 28, 4);
    }
  }

  lemma LoadsAlike(raw: Bytes, other: Bytes, offset: nat, width: nat)
    requires offset + width <= |raw| && offset + width <= |other|
    requires other[offset..offset + width] == raw[offset..offset + width]
    ensures Load(other, offset, width) == Load(raw, offset, width)
  {
  }

  lemma SameClaimsSaySame(raw: Bytes, other: Bytes, f: Fact)
    requires Accepted(raw) && SameClaims(raw, other)
    ensures Accepted(other) && Said(other, f) == Said(raw, f)
  {
    SameClaimsAreAccepted(raw, other);
    if Claimed(RawMasks(raw), f) {
      hide Load;
      ClaimedFactsFit(raw, f);
      LoadsAlike(raw, other, RawOffset(f, HasFileLayout(raw)), RawWidth(f));
    }
  }

  /** What the slots that are not claimed hold makes no difference to the evidence. */
  lemma UnclaimedSlotsDoNotMatter(raw: Bytes, other: Bytes, wire: Bytes, otherWire: Bytes)
    requires Accepted(raw) && SameClaims(raw, other)
    ensures Accepted(other)
    ensures IsWireOf(wire, raw) && IsWireOf(otherWire, other) ==> Parse(otherWire) == Parse(wire)
  {
    hide SameClaims;
    hide Accepted;
    hide Parse;
    hide IsWireOf;
    hide Said;
    SameClaimsAreAccepted(raw, other);
    if IsWireOf(wire, raw) && IsWireOf(otherWire, other) {
      forall f ensures Said(other, f) == Said(raw, f) {
        SameClaimsSaySame(raw, other, f);
      }
      WireIsReported(wire, raw);
      WireIsReported(otherWire, other);
    }
  }

  // ------------------------------------------------------- there are accepted buffers

  lemma HalvesDivide(a: nat, b: nat)
    requires b > 0
    ensures (2 * a) / (2 * b) == a / b
  {
    var q, r := a / b, a % b;
    assert 2 * a == q * (2 * b) + 2 * r;
    QuotientIs(2 * a, 2 * b, q, 2 * r);
  }

  lemma QuotientIs(a: nat, b: nat, q: nat, r: nat)
    requires r < b && a == q * b + r
    ensures a / b == q
  {
    var p := a / b;
    assert a == p * b + a % b;
    assert (p - q) * b == r - a % b && (q - p) * b == a % b - r;
    FactorBelowOne(p - q, b);
    FactorBelowOne(q - p, b);
  }

  lemma FactorBelowOne(x: int, b: nat)
    requires x * b < b
    ensures x <= 0
  {
    assert x >= 1 ==> x * b >= b;
  }

  lemma BitOfDouble(a: nat, k: nat)
    ensures Bit(2 * a, k) <==> k > 0 && Bit(a, k - 1)
  {
    if k > 0 {
      HalvesDivide(a, Pow2(k - 1));
    }
  }

  lemma {:induction false} BitOfPower(n: nat, k: nat)
    ensures Bit(Pow2(n), k) <==> k == n
  {
    if n > 0 {
      BitOfDouble(Pow2(n - 1), k);
      hide Bit;
      if k > 0 { BitOfPower(n - 1, k - 1); }
    } else {
      assert k > 0 ==> Pow2(k) > 1;
    }
  }

  /** The smallest one: a directory's layout with nothing claimed. */
  function Smallest(): Bytes {
    Little(DIRECTORY_SIZE, 4) + Little(Pow2(31), 4) + Zeros(64)
  }

  lemma SmallestLoads()
    ensures |Smallest()| == 72 && Load(Smallest(), 0, 4) == DIRECTORY_SIZE && Load(Smallest(), 4, 4) == Pow2(31)
    ensures forall o: nat :: 8 <= o && o + 4 <= 72 ==> Load(Smallest(), o, 4) == 0
  {
    hide Little;
    hide LittleValue;
    hide Pow256;
    hide Pow2;
    var raw, size, mask := Smallest(), Little(DIRECTORY_SIZE, 4), Little(Pow2(31), 4);
    assert raw[0..4] == size && raw[4..8] == mask;
    NumbersFit();
    LittleRoundTrips(DIRECTORY_SIZE, 4);
    LittleRoundTrips(Pow2(31), 4);
    LittleRoundTrips(0, 4);
    LittleZero(4);
    forall o: nat | 8 <= o && o + 4 <= 72 ensures Load(raw, o, 4) == 0 {
      assert raw[o..o + 4] == Zeros(4);
    }
  }

  lemma NumbersFit()
    ensures 0 < DIRECTORY_SIZE < Pow256(4) && Pow2(31) < Pow256(4)
  {
    Widths();
    PowerOfTwo31();
  }

  lemma SmallestIsAccepted()
    ensures Accepted(Smallest())
  {
    hide Smallest;
    hide Load;
    hide Bit;
    hide Pow2;
    SmallestLoads();
    forall k: nat ensures Bit(Pow2(31), k) <==> k == 31 { BitOfPower(31, k); }
    forall k: nat ensures !Bit(0, k) { BitOfZero(k); }
  }

  lemma PowerOfTwo31()
    ensures Pow2(31) == 0x8000_0000
  {
    PowersOfTwo();
    assert Pow2(10) == 4 * Pow2(8);
    assert Pow2(12) == 4 * Pow2(10);
    assert Pow2(14) == 4 * Pow2(12);
    assert Pow2(16) == 4 * Pow2(14);
    assert Pow2(18) == 4 * Pow2(16);
    assert Pow2(20) == 4 * Pow2(18);
    assert Pow2(22) == 4 * Pow2(20);
    assert Pow2(24) == 4 * Pow2(22);
    assert Pow2(26) == 4 * Pow2(24);
    assert Pow2(28) == 4 * Pow2(26);
    assert Pow2(30) == 4 * Pow2(28);
  }
}
