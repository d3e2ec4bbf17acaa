/** The layout of the shared-memory segment: the regions, their sizes and offsets (mino_shm_pipeline.cc). */
module Layout {
  import opened Bits
  import opened Payload
  import opened Arithmetic

  const CACHE_LINE: nat := 64
  const CHANNELS: nat := 5
  const SLAB_HEADER: nat := 64
  const HEADER_BYTES: nat := 256
  const EXTENT_BYTES: nat := 24
  const MANIFEST_MAGIC: nat := 0x4D494E4F50495045
  const MANIFEST_VERSION: nat := 2
  const MINIMUM_CAPACITY: nat := 2
  const MAXIMUM_CAPACITY: nat := 4096
  const MAXIMUM_SEGMENT_BYTES: nat := 0x2_0000_0000

  /** What the host and the libraries fix: the size of the generated frame, of the pin table and of a page. */
  datatype Env = Env(frameSize: word, pinBytes: word, page: word)

  datatype Extent = Extent(offset: nat, extent: nat, capacity: nat)

  datatype SegmentLayout = SegmentLayout(
    totalSize: nat, allocatorOffset: nat, allocatorExtent: nat, slotCount: nat, rootSlotCount: nat,
    childSlotCount: nat, journalOffset: nat, journalExtent: nat, pinOffset: nat, pinExtent: nat,
    channels: seq<Extent>)

  // ----- The layout over unbounded integers -----

  /** AllocationJournal::RequiredSize with the two inline handles of a transaction. */
  function JournalBytes(transactions: nat): nat {
    if transactions == 0 then 0 else 64 + 128 * transactions
  }

  /** SpscChannel::RequiredSize: a control block of three cache lines and the slots. */
  function ChannelBytes(capacity: nat): nat {
    192 + 128 * capacity
  }

  function SlotsPerClass(capacity: nat): nat {
    Up(CHANNELS * capacity + 16, 64)
  }

  function MetadataBytes(slots: nat): nat {
    Up(Up(Up(64 + 16 * 2, 8) + 8 * ((slots + 63) / 64), 4) + 4 * slots + 4 * 2, 64)
  }

  function SlotStride(env: Env, profile: Profile): nat {
    Up(64 + if env.frameSize >= PayloadBytes(profile) then env.frameSize else PayloadBytes(profile), 64)
  }

  function AllocatorBytes(env: Env, profile: Profile, slots: nat): nat {
    Up(MetadataBytes(slots) + SlotStride(env, profile) * slots, CACHE_LINE)
  }

  /** Five channels of one size, back to back. */
  function ChannelTable(offset: nat, capacity: nat): (r: seq<Extent>)
    ensures |r| == CHANNELS
  {
    var bytes := ChannelBytes(capacity);
    seq(CHANNELS, e requires e >= 0 => Extent(offset + e * bytes, bytes, capacity))
  }

  /** The layout, computed without overflow checks. */
  function Ideal(env: Env, profile: Profile, capacity: nat): SegmentLayout
    requires env.page > 0
  {
    var perClass := SlotsPerClass(capacity);
    var allocator := AllocatorBytes(env, profile, 2 * perClass);
    var journalOffset := Up(HEADER_BYTES + allocator, CACHE_LINE);
    var journal := Up(JournalBytes(perClass), CACHE_LINE);
    var pinOffset := Up(journalOffset + journal, CACHE_LINE);
    var pin := Up(env.pinBytes, CACHE_LINE);
    var channelOffset := pinOffset + pin;
    var channel := ChannelBytes(capacity);
    SegmentLayout(Up(channelOffset + CHANNELS * channel, env.page), HEADER_BYTES, allocator, 2 * perClass, perClass,
                  perClass, journalOffset, journal, pinOffset, pin, ChannelTable(channelOffset, capacity))
  }

  ghost predicate CapacityOk(capacity: nat) {
    MINIMUM_CAPACITY <= capacity <= MAXIMUM_CAPACITY && PowerOfTwo(capacity)
  }

  ghost predicate PageOk(page: nat) {
    page >= CACHE_LINE && PowerOfTwo(page)
  }

  /** The conditions under which a segment can be laid out at all. */
  ghost predicate LayoutExists(env: Env, profile: Profile, capacity: nat) {
    && CapacityOk(capacity) && PageOk(env.page) && env.frameSize <= MAX32
    && Ideal(env, profile, capacity).totalSize <= MAXIMUM_SEGMENT_BYTES
  }

  // ----- The slots of the allocator -----

  /** A class for frames and one for payloads. */
  function Classes(env: Env, profile: Profile): seq<nat> {
    [env.frameSize, PayloadBytes(profile)]
  }

  /** Slots `0 .. slots - 1` of `stride` bytes from `at` on. */
  function SlotAt(at: nat, stride: nat, i: nat): nat {
    at + i * stride
  }

  /** The slots are aligned, apart, and end before anything behind the last of them. */
  lemma SlotsAreApart(at: nat, stride: nat, slots: nat, i: nat, j: nat)
    requires at % SLAB_HEADER == 0 && stride % SLAB_HEADER == 0 && i < j <= slots
    ensures SlotAt(at, stride, i) % SLAB_HEADER == 0
    ensures at <= SlotAt(at, stride, i)
    ensures SlotAt(at, stride, i) + stride <= SlotAt(at, stride, j) <= at + stride * slots
  {
    SlotOrder(at, stride, slots, i, j);
    AlignedProduct(i, stride);
    AlignedSum(at, i * stride);
  }

  lemma SlotOrder(at: nat, stride: nat, slots: nat, i: nat, j: nat)
    requires i < j <= slots
    ensures at <= SlotAt(at, stride, i)
    ensures SlotAt(at, stride, i) + stride <= SlotAt(at, stride, j) <= at + stride * slots
  {
    Distributes(i, 1, stride);
    MulMonotone(i + 1, j, stride);
    MulMonotone(j, slots, stride);
  }

  lemma AlignedSum(x: nat, y: nat)
    requires x % 64 == 0 && y % 64 == 0
    ensures (x + y) % 64 == 0
  {}

  lemma AlignedProduct(i: nat, stride: nat)
    requires stride % 64 == 0
    ensures (i * stride) % 64 == 0
  {
    var q := stride / 64;
    Divides(stride, 64);
    Regroups(i, q, 64);
    DivModUnique(i * stride, 64, i * q, 0);
  }

  /** The stride is the least aligned one that holds a slab header and either object. */
  lemma StrideIsLeast(env: Env, profile: Profile, m: nat)
    ensures SlotStride(env, profile) % SLAB_HEADER == 0
    ensures forall size :: size in Classes(env, profile) ==> SLAB_HEADER + size <= SlotStride(env, profile)
    ensures m % SLAB_HEADER == 0 && (forall size :: size in Classes(env, profile) ==> SLAB_HEADER + size <= m) ==>
              SlotStride(env, profile) <= m
  {
    var sizes := Classes(env, profile);
    assert sizes[0] in sizes && sizes[1] in sizes;
    var largest := if sizes[0] >= sizes[1] then sizes[0] else sizes[1];
    UpBounds(SLAB_HEADER + largest, SLAB_HEADER);
    if m % SLAB_HEADER == 0 && SLAB_HEADER + sizes[0] <= m && SLAB_HEADER + sizes[1] <= m {
      UpIsLeast(SLAB_HEADER + largest, SLAB_HEADER, m);
    }
  }

  lemma MetadataAligned(slots: nat)
    ensures MetadataBytes(slots) % SLAB_HEADER == 0
  {
    UpBounds(Up(Up(64 + 16 * 2, 8) + 8 * ((slots + 63) / 64), 4) + 4 * slots + 4 * 2, SLAB_HEADER);
  }

  /** Slot `i` of a segment laid out for `capacity` takes an object of `size` bytes, inside the allocator's extent and
      behind its metadata. */
  ghost predicate Takes(env: Env, profile: Profile, capacity: nat, i: nat, size: nat) {
    var slots := 2 * SlotsPerClass(capacity);
    var start := SlotAt(MetadataBytes(slots), SlotStride(env, profile), i);
    && i < slots && start % SLAB_HEADER == 0 && MetadataBytes(slots) <= start
    && SLAB_HEADER + size <= SlotStride(env, profile)
    && start + SlotStride(env, profile) <= AllocatorBytes(env, profile, slots)
  }

  /** Two slots have no byte in common. */
  ghost predicate Apart(env: Env, profile: Profile, capacity: nat, i: nat, j: nat) {
    var at, stride := MetadataBytes(2 * SlotsPerClass(capacity)), SlotStride(env, profile);
    SlotAt(at, stride, i) + stride <= SlotAt(at, stride, j) || SlotAt(at, stride, j) + stride <= SlotAt(at, stride, i)
  }

  /** Every slot takes an object of either class, and two slots are always apart. */
  lemma SlotsTakeObjects(env: Env, profile: Profile, capacity: nat, i: nat, j: nat, size: nat)
    requires i < 2 * SlotsPerClass(capacity) && j < 2 * SlotsPerClass(capacity) && size in Classes(env, profile)
    ensures Takes(env, profile, capacity, i, size)
    ensures i != j ==> Apart(env, profile, capacity, i, j)
  {
    hide SlotsPerClass, MetadataBytes, SlotStride, Up, SlotAt, Classes;
    var slots, stride := 2 * SlotsPerClass(capacity), SlotStride(env, profile);
    MetadataAligned(slots);
    StrideIsLeast(env, profile, 0);
    SlotsAreApart(MetadataBytes(slots), stride, slots, i, slots);
    UpBounds(MetadataBytes(slots) + stride * slots, CACHE_LINE);
    if i < j {
      SlotsAreApart(MetadataBytes(slots), stride, slots, i, j);
    } else if j < i {
      SlotsAreApart(MetadataBytes(slots), stride, slots, j, i);
    }
  }

  /** What the layout is for: every slot takes a frame and a payload, and no two slots overlap. */
  ghost predicate Usable(env: Env, profile: Profile, capacity: nat, slots: nat) {
    && (forall i, size :: 0 <= i < slots && size in Classes(env, profile) ==> Takes(env, profile, capacity, i, size))
    && (forall i, j :: 0 <= i < j < slots ==> Apart(env, profile, capacity, i, j))
  }

  lemma LayoutIsUsable(env: Env, profile: Profile, capacity: nat)
    ensures Usable(env, profile, capacity, 2 * SlotsPerClass(capacity))
  {
    hide Takes, Apart, SlotsPerClass;
    var slots := 2 * SlotsPerClass(capacity);
    forall i, size | 0 <= i < slots && size in Classes(env, profile) ensures Takes(env, profile, capacity, i, size) {
      SlotsTakeObjects(env, profile, capacity, i, i, size);
    }
    forall i, j | 0 <= i < j < slots ensures Apart(env, profile, capacity, i, j) {
      SlotsTakeObjects(env, profile, capacity, i, j, Classes(env, profile)[0]);
    }
  }

  // ----- The layout with checked machine arithmetic -----

  lemma SmallPowers()
    ensures PowerOfTwo(4) && PowerOfTwo(8) && PowerOfTwo(64)
  {
    assert Pow2(2) == 4 && Pow2(3) == 8 && Pow2(6) == 64;
  }

  lemma StrideTimesSlots(stride: nat, slots: nat)
    requires stride <= 0x2_0000_0000 && slots <= 0x1_0000
    ensures stride * slots <= 0x2_0000_0000_0000
  {
    MulMonotone(stride, 0x2_0000_0000, slots);
  }

  method ComputeMetadata(slots: word) returns (r: Option<word>)
    requires slots <= 0x1_0000
    ensures r == Some(MetadataBytes(slots)) && MetadataBytes(slots) <= 0x1_0000_0000
  {
    SmallPowers();
    UpBounds(96, 8);
    hide Up, PowerOfTwo, CheckedAdd, CheckedMultiply, CheckedAlignUp;
    var metadata: word := 64;
    var descriptors :- CheckedMultiply(16, 2);
    metadata :- CheckedAdd(metadata, descriptors);
    metadata :- CheckedAlignUp(metadata, 8);
    var padded :- CheckedAdd(slots, 63);
    var bitmap :- CheckedMultiply(8, padded / 64);
    metadata :- CheckedAdd(metadata, bitmap);
    UpBounds(metadata, 4);
    metadata :- CheckedAlignUp(metadata, 4);
    var generations :- CheckedMultiply(4, slots);
    metadata :- CheckedAdd(metadata, generations);
    var draining :- CheckedMultiply(4, 2);
    metadata :- CheckedAdd(metadata, draining);
    UpBounds(metadata, 64);
    r := CheckedAlignUp(metadata, 64);
  }

  method ComputeAllocatorExtent(env: Env, profile: Profile, slots: word) returns (r: Option<word>)
    requires slots <= 0x1_0000 && env.frameSize <= MAX32
    ensures r == Some(AllocatorBytes(env, profile, slots))
    ensures AllocatorBytes(env, profile, slots) <= 0x4_0000_0000_0000
  {
    SmallPowers();
    hide Up, PowerOfTwo, CheckedAdd, CheckedMultiply, CheckedAlignUp, MetadataBytes;
    var metadata :- ComputeMetadata(slots);
    var largest := if env.frameSize >= PayloadBytes(profile) then env.frameSize else PayloadBytes(profile);
    var largestBytes :- CheckedAdd(64, largest);
    UpBounds(largestBytes, 64);
    var stride :- CheckedAlignUp(largestBytes, 64);
    StrideTimesSlots(stride, slots);
    var slotBytes :- CheckedMultiply(stride, slots);
    var extent :- CheckedAdd(metadata, slotBytes);
    UpBounds(extent, CACHE_LINE);
    r := CheckedAlignUp(extent, CACHE_LINE);
  }

  lemma TotalCovers(env: Env, profile: Profile, capacity: nat)
    requires env.page > 0
    ensures var l := Ideal(env, profile, capacity);
            var end := l.pinOffset + l.pinExtent + CHANNELS * ChannelBytes(capacity);
            && end <= l.totalSize && l.totalSize % env.page == 0 && l.totalSize == Up(end, env.page)
            && env.pinBytes <= l.pinExtent
            && (l.totalSize > 0 ==> env.page <= l.totalSize)
  {
    var l := Ideal(env, profile, capacity);
    UpBounds(l.pinOffset + l.pinExtent + CHANNELS * ChannelBytes(capacity), env.page);
    UpBounds(env.pinBytes, CACHE_LINE);
    if 0 < l.totalSize < env.page { DivModUnique(l.totalSize, env.page, 0, l.totalSize); }
  }

  method CheckOptions(env: Env, capacity: word) returns (ok: bool)
    ensures ok <==> CapacityOk(capacity) && PageOk(env.page) && env.frameSize <= MAX32
  {
    if capacity < MINIMUM_CAPACITY || capacity > MAXIMUM_CAPACITY { return false; }
    PowerOfTwoTest(capacity);
    if And(capacity, capacity - 1) != 0 { return false; }
    if env.frameSize > MAX32 { return false; }
    if env.page < CACHE_LINE { return false; }
    PowerOfTwoTest(env.page);
    return And(env.page, env.page - 1) == 0;
  }

  method ComputeSlots(capacity: word) returns (r: Option<word>)
    requires capacity <= MAXIMUM_CAPACITY
    ensures r == Some(SlotsPerClass(capacity))
    ensures SlotsPerClass(capacity) <= 0x8000
  {
    SmallPowers();
    var five :- CheckedMultiply(CHANNELS, capacity);
    var minimum :- CheckedAdd(five, 16);
    UpBounds(minimum, 64);
    r := CheckedAlignUp(minimum, 64);
  }

  lemma EdgeWithin(edge: nat, bytes: nat)
    requires edge < CHANNELS
    ensures edge * bytes + bytes == (edge + 1) * bytes <= CHANNELS * bytes
  {
    Distributes(edge, 1, bytes);
    Distributes(CHANNELS - edge - 1, edge + 1, bytes);
  }

  method PlaceChannels(start: word, capacity: word) returns (r: Option<(seq<Extent>, word)>)
    requires capacity <= MAXIMUM_CAPACITY
    ensures r == if start + CHANNELS * ChannelBytes(capacity) < U64
                 then Some((ChannelTable(start, capacity), start + CHANNELS * ChannelBytes(capacity))) else None
  {
    var bytes := ChannelBytes(capacity);
    var next := start;
    var channels: seq<Extent> := [];
    var edge := 0;
    while edge < CHANNELS
      invariant 0 <= edge <= CHANNELS && |channels| == edge
      invariant next == start + edge * bytes
      invariant forall e :: 0 <= e < edge ==> channels[e] == Extent(start + e * bytes, bytes, capacity)
    {
      EdgeWithin(edge, bytes);
      channels := channels + [Extent(next, bytes, capacity)];
      next :- CheckedAdd(next, bytes);
      edge := edge + 1;
    }
    assert channels == ChannelTable(start, capacity);
    r := Some((channels, next));
  }

  /** Allocator and journal; no capacity in range makes these overflow. */
  method PlaceAllocatorAndJournal(env: Env, profile: Profile, capacity: word)
    returns (r: Option<(word, word, word, word, word)>)
    requires capacity <= MAXIMUM_CAPACITY && env.frameSize <= MAX32 && env.page > 0
    ensures var l := Ideal(env, profile, capacity);
            && r == Some((l.rootSlotCount, l.allocatorExtent, l.journalOffset, l.journalExtent, l.pinOffset))
            && l.pinOffset <= 0x8_0000_0000_0000
  {
    SmallPowers();
    hide SlotsPerClass, AllocatorBytes, ChannelTable, Up, PowerOfTwo, CheckedAdd, CheckedMultiply, CheckedAlignUp;
    var perClass :- ComputeSlots(capacity);
    var slots :- CheckedMultiply(perClass, 2);
    if slots > MAX32 { assert false; return None; }
    var allocator :- ComputeAllocatorExtent(env, profile, slots);
    var next :- CheckedAdd(HEADER_BYTES, allocator);
    UpBounds(next, CACHE_LINE);
    var journalOffset :- CheckedAlignUp(next, CACHE_LINE);
    UpBounds(JournalBytes(perClass), CACHE_LINE);
    var journal :- CheckedAlignUp(JournalBytes(perClass), CACHE_LINE);
    next :- CheckedAdd(journalOffset, journal);
    UpBounds(next, CACHE_LINE);
    var pinOffset :- CheckedAlignUp(next, CACHE_LINE);
    r := Some((perClass, allocator, journalOffset, journal, pinOffset));
  }

  /** Pin table, channels and the end of the segment; these may overflow, and then no layout exists. */
  method PlaceRest(env: Env, profile: Profile, capacity: word, pinOffset: word)
    returns (r: Option<(word, seq<Extent>, word)>)
    requires capacity <= MAXIMUM_CAPACITY && PageOk(env.page)
    requires pinOffset == Ideal(env, profile, capacity).pinOffset
    ensures var l := Ideal(env, profile, capacity);
            && (r.Some? ==> r.value == (l.pinExtent, l.channels, l.totalSize))
            && (r.None? ==> l.totalSize > MAXIMUM_SEGMENT_BYTES)
  {
    SmallPowers();
    hide SlotsPerClass, AllocatorBytes, ChannelTable, Up, PowerOfTwo, CheckedAdd, CheckedMultiply, CheckedAlignUp,
         JournalBytes;
    TotalCovers(env, profile, capacity);
    var pin :- CheckedAlignUp(env.pinBytes, CACHE_LINE);
    var next :- CheckedAdd(pinOffset, pin);
    var placed :- PlaceChannels(next, capacity);
    var total :- CheckedAlignUp(placed.1, env.page);
    r := Some((pin, placed.0, total));
  }

  /** Checked 64-bit arithmetic computes exactly the unbounded layout, and fails exactly when no layout
      exists. */
  method ComputeSegmentLayout(env: Env, profile: Profile, capacity: word) returns (r: Option<SegmentLayout>)
    ensures r.Some? <==> LayoutExists(env, profile, capacity)
    ensures r.Some? ==> r.value == Ideal(env, profile, capacity)
    ensures r.Some? ==> Usable(env, profile, capacity, r.value.slotCount)
  {
    LayoutIsUsable(env, profile, capacity);
    hide Usable;
    var options := CheckOptions(env, capacity);
    if !options { return None; }
    hide SlotsPerClass, AllocatorBytes, ChannelTable, Up, PowerOfTwo, JournalBytes;
    var regions :- PlaceAllocatorAndJournal(env, profile, capacity);
    var rest :- PlaceRest(env, profile, capacity, regions.4);
    var (perClass, allocator, journalOffset, journal, pinOffset) := regions;
    var (pin, channels, total) := rest;
    TotalIsAligned(env, profile, capacity);
    if total % CACHE_LINE != 0 { assert false; return None; }
    if total > MAXIMUM_SEGMENT_BYTES { return None; }
    r := Some(SegmentLayout(total, HEADER_BYTES, allocator, 2 * perClass, perClass, perClass, journalOffset, journal,
                            pinOffset, pin, channels));
  }

  lemma TotalIsAligned(env: Env, profile: Profile, capacity: nat)
    requires PageOk(env.page)
    ensures Ideal(env, profile, capacity).totalSize % CACHE_LINE == 0
  {
    hide Ideal;
    TotalCovers(env, profile, capacity);
    CacheLineDivides(env.page);
    MultipleOfMultiple(Ideal(env, profile, capacity).totalSize, env.page);
  }
}
