/** The manifest at the head of a segment, its publication, and the two independently written validators
    (mino_shm_pipeline.cc, mino_shm_tcp_bridge.cc). */
module Manifest {
  import opened Bits
  import opened Payload
  import opened Arithmetic
  import opened Layout

  datatype Header = Header(
    magic: nat, version: nat, headerSize: nat, totalSize: nat, profile: nat, reserved0: nat,
    payloadBytes: nat, allocatorOffset: nat, allocatorExtent: nat, frameSize: nat,
    slotCount: nat, channelCount: nat, channelEntrySize: nat, rootSlotCount: nat, childSlotCount: nat,
    journalOffset: nat, journalExtent: nat, pinOffset: nat, pinExtent: nat,
    channels: seq<Extent>, reserved2: nat)

  /** What 256 bytes of memory can hold. */
  ghost predicate Fits(h: Header) {
    && h.totalSize < U64 && h.allocatorOffset < U64 && h.allocatorExtent < U64
    && h.slotCount < U64 && h.rootSlotCount < U64 && h.childSlotCount < U64
    && h.journalOffset < U64 && h.journalExtent < U64 && h.pinOffset < U64 && h.pinExtent < U64
    && |h.channels| == CHANNELS
    && forall e :: 0 <= e < CHANNELS ==>
         h.channels[e].offset < U64 && h.channels[e].extent < U64 && h.channels[e].capacity < U64
  }

  const ZERO: Header :=
    Header(0, 0, 0, 0, 0, 0, 0, 0, 0, 0, 0, 0, 0, 0, 0, 0, 0, 0, 0, seq(CHANNELS, _ => Extent(0, 0, 0)), 0)

  /** The published manifest of a layout. */
  function Published(env: Env, profile: Profile, l: SegmentLayout): Header {
    Header(MANIFEST_MAGIC, MANIFEST_VERSION, HEADER_BYTES, l.totalSize, ProfileToWire(profile), 0,
           PayloadBytes(profile), l.allocatorOffset, l.allocatorExtent, env.frameSize, l.slotCount, CHANNELS,
           EXTENT_BYTES, l.rootSlotCount, l.childSlotCount, l.journalOffset, l.journalExtent, l.pinOffset,
           l.pinExtent, l.channels, 0)
  }

  // ----- Publication -----

  datatype Component = Allocator | Journal | Pins | Channel(edge: nat)

  /** What another process may observe of the segment between two stores. */
  datatype Snapshot = Snapshot(header: Header, ready: set<Component>)

  const EVERYTHING: set<Component> :=
    {Allocator, Journal, Pins, Channel(0), Channel(1), Channel(2), Channel(3), Channel(4)}

  ghost predicate Unpublished(seen: seq<Snapshot>) {
    forall k :: 0 <= k < |seen| ==> seen[k].header.magic == 0 && |seen[k].header.channels| == CHANNELS
  }

  /** Size classes must be non-empty and strictly increasing. */
  predicate ClassTableOk(sizes: seq<nat>) {
    forall i :: 0 <= i < |sizes| ==> sizes[i] > 0 && (i > 0 ==> sizes[i - 1] < sizes[i])
  }

  /** The first class an object fits into. */
  function FindClass(sizes: seq<nat>, size: nat): (r: Option<nat>)
    ensures r.Some? ==> r.value < |sizes| && size <= sizes[r.value] && forall i :: 0 <= i < r.value ==> sizes[i] < size
    ensures r.None? ==> forall i :: 0 <= i < |sizes| ==> sizes[i] < size
  {
    if sizes == [] then None
    else if size <= sizes[0] then Some(0)
    else
      var r :- FindClass(sizes[1..], size);
      Some(r + 1)
  }

  /** The two classes of a segment can be set up exactly when a frame is smaller than a payload, and then frames and
      payloads never share one. */
  lemma ClassesStayApart(env: Env, profile: Profile)
    ensures ClassTableOk(Classes(env, profile)) <==> 0 < env.frameSize < PayloadBytes(profile)
    ensures ClassTableOk(Classes(env, profile)) ==>
              && FindClass(Classes(env, profile), env.frameSize) == Some(0)
              && FindClass(Classes(env, profile), PayloadBytes(profile)) == Some(1)
  {
    var sizes := Classes(env, profile);
    if ClassTableOk(sizes) {
      assert sizes[0] > 0 && sizes[1 - 1] < sizes[1];
    }
    assert sizes[1..][1..] == [];
  }

  class Segment {
    var header: Header
    var ready: set<Component>
    /** Every state of the segment since its creation, in order. */
    ghost var seen: seq<Snapshot>

    ghost predicate Fresh()
      reads this
    {
      header.magic == 0 && |header.channels| == CHANNELS && Unpublished(seen)
    }

    /** A segment is created zeroed. */
    constructor ()
      ensures header == ZERO && ready == {} && Fresh()
    {
      header := ZERO;
      ready := {};
      seen := [Snapshot(ZERO, {})];
    }

    method Store(h: Header)
      requires Fresh() && h.magic == 0 && |h.channels| == CHANNELS
      modifies this
      ensures Fresh() && header == h && ready == old(ready)
    {
      header := h;
      seen := seen + [Snapshot(header, ready)];
    }

    method Initialise(c: Component)
      requires Fresh()
      modifies this
      ensures Fresh() && header == old(header) && ready == old(ready) + {c}
    {
      ready := ready + {c};
      seen := seen + [Snapshot(header, ready)];
    }

    method Publish()
      modifies this
      ensures header == old(header).(magic := MANIFEST_MAGIC) && ready == old(ready)
      ensures seen == old(seen) + [Snapshot(header, ready)]
    {
      header := header.(magic := MANIFEST_MAGIC);
      seen := seen + [Snapshot(header, ready)];
    }

    method PopulateManifest(env: Env, profile: Profile, l: SegmentLayout)
      requires Fresh() && header == ZERO && |l.channels| == CHANNELS
      modifies this
      ensures Fresh() && ready == old(ready) && header == Published(env, profile, l).(magic := 0)
    {
      hide Unpublished, ProfileToWire, PayloadBytes;
      Store(header.(version := MANIFEST_VERSION));
      Store(header.(headerSize := HEADER_BYTES));
      Store(header.(totalSize := l.totalSize));
      Store(header.(profile := ProfileToWire(profile)));
      Store(header.(payloadBytes := PayloadBytes(profile)));
      Store(header.(allocatorOffset := l.allocatorOffset));
      Store(header.(allocatorExtent := l.allocatorExtent));
      Store(header.(frameSize := env.frameSize));
      Store(header.(slotCount := l.slotCount));
      Store(header.(channelCount := CHANNELS));
      Store(header.(channelEntrySize := EXTENT_BYTES));
      Store(header.(rootSlotCount := l.rootSlotCount));
      Store(header.(childSlotCount := l.childSlotCount));
      Store(header.(journalOffset := l.journalOffset));
      Store(header.(journalExtent := l.journalExtent));
      Store(header.(pinOffset := l.pinOffset));
      Store(header.(pinExtent := l.pinExtent));
      Store(header.(channels := l.channels));
    }

    method InitialiseComponents()
      requires Fresh() && ready == {}
      modifies this
      ensures Fresh() && header == old(header) && ready == EVERYTHING
    {
      Initialise(Allocator);
      Initialise(Journal);
      Initialise(Pins);
      var edge := 0;
      while edge < CHANNELS
        invariant 0 <= edge <= CHANNELS && Fresh() && header == old(header)
        invariant ready == {Allocator, Journal, Pins} + set e | 0 <= e < edge :: Channel(e)
      {
        Initialise(Channel(edge));
        assert (set e | 0 <= e < edge + 1 :: Channel(e)) == (set e | 0 <= e < edge :: Channel(e)) + {Channel(edge)};
        edge := edge + 1;
      }
    }

    /** Setup: the magic word is the last store. Whatever state of the segment a worker or a bridge validates, for
        whatever profile, capacity and size, it is refused unless it is the last one; and the last one is complete
        and carries the one manifest the pipeline accepts, which the bridge accepts as well. */
    method Setup(env: Env, profile: Profile, capacity: word) returns (ok: bool)
      requires Fresh() && header == ZERO && ready == {}
      modifies this
      ensures ok <==> LayoutExists(env, profile, capacity) && ClassTableOk(Classes(env, profile))
      ensures !ok ==> forall k :: 0 <= k < |seen| ==> Refused(seen[k].header)
      ensures ok ==>
                && seen != [] && seen[|seen| - 1] == Snapshot(header, EVERYTHING)
                && (forall k :: 0 <= k < |seen| - 1 ==> Refused(seen[k].header))
                && Canonical(env, header, profile, capacity) && |header.channels| == CHANNELS
                && (env.pinBytes > 0 ==> BridgeAccepts(env, header, header.totalSize, profile))
    {
      hide Unpublished, Refused, BridgeAccepts, Ideal;
      var layout := ComputeSegmentLayout(env, profile, capacity);
      if layout.None? {
        UnpublishedIsRefused(seen);
        return false;
      }
      FiveChannels(env, profile, capacity);
      PopulateManifest(env, profile, layout.value);
      if !ClassTableOk(Classes(env, profile)) {
        UnpublishedIsRefused(seen);
        return false;
      }
      InitialiseComponents();
      UnpublishedIsRefused(seen);
      Publish();
      if env.pinBytes > 0 {
        CanonicalBridgeAccepted(env, header, profile, capacity);
      }
      return true;
    }
  }

  /** Neither validator accepts the manifest, whatever it is called with. */
  ghost predicate Refused(h: Header) {
    && |h.channels| == CHANNELS
    && (forall env: Env, profile: Profile, capacity: nat :: !Canonical(env, h, profile, capacity))
    && (forall env: Env, profile: Profile, size: nat :: !BridgeAccepts(env, h, size, profile))
  }

  lemma UnpublishedIsRefused(seen: seq<Snapshot>)
    requires Unpublished(seen)
    ensures forall k :: 0 <= k < |seen| ==> Refused(seen[k].header)
  {
    hide Refused;
    forall k | 0 <= k < |seen|
      ensures Refused(seen[k].header)
    {
      MagicGates(seen[k].header);
    }
  }

  lemma MagicGates(h: Header)
    requires h.magic == 0 && |h.channels| == CHANNELS
    ensures Refused(h)
  {
    hide Ideal, Tiles, SameChannels;
  }

  // ----- What the bridge demands -----

  type Region = (nat, nat)

  function Regions(h: Header): (r: seq<Region>)
    requires |h.channels| == CHANNELS
    ensures |r| == CHANNELS + 4
  {
    [(0, HEADER_BYTES), (h.allocatorOffset, h.allocatorExtent), (h.journalOffset, h.journalExtent),
     (h.pinOffset, h.pinExtent), (h.channels[0].offset, h.channels[0].extent),
     (h.channels[1].offset, h.channels[1].extent), (h.channels[2].offset, h.channels[2].extent),
     (h.channels[3].offset, h.channels[3].extent), (h.channels[4].offset, h.channels[4].extent)]
  }

  function End(h: Header): nat
    requires |h.channels| == CHANNELS
  {
    h.channels[CHANNELS - 1].offset + h.channels[CHANNELS - 1].extent
  }

  ghost predicate TileAt(rs: seq<Region>, from: nat, i: nat)
    requires i < |rs|
  {
    && rs[i].0 % CACHE_LINE == 0 && rs[i].1 % CACHE_LINE == 0 && rs[i].1 > 0
    && rs[i].0 == (if i == 0 then from else rs[i - 1].0 + rs[i - 1].1)
  }

  /** Non-empty cache-line-aligned regions that follow each other without gap or overlap. */
  ghost predicate Tiles(rs: seq<Region>, from: nat) {
    forall i :: 0 <= i < |rs| ==> TileAt(rs, from, i)
  }

  predicate Identified(env: Env, h: Header, profile: Profile) {
    && h.magic == MANIFEST_MAGIC && h.version == MANIFEST_VERSION && h.headerSize == HEADER_BYTES
    && h.reserved0 == 0 && h.reserved2 == 0 && h.profile == ProfileToWire(profile)
    && h.payloadBytes == PayloadBytes(profile) && h.frameSize == env.frameSize
    && h.channelCount == CHANNELS && h.channelEntrySize == EXTENT_BYTES
  }

  ghost predicate SameChannels(h: Header)
    requires |h.channels| == CHANNELS
  {
    forall e :: 0 <= e < CHANNELS ==>
      && CapacityOk(h.channels[e].capacity) && h.channels[e].capacity == h.channels[0].capacity
      && h.channels[e].extent == ChannelBytes(h.channels[e].capacity)
  }

  ghost predicate BridgeAccepts(env: Env, h: Header, segmentSize: nat, profile: Profile)
    requires |h.channels| == CHANNELS
  {
    && Identified(env, h, profile) && h.totalSize == segmentSize
    && 0 < h.rootSlotCount == h.childSlotCount && h.slotCount == 2 * h.rootSlotCount <= MAX32
    && Tiles(Regions(h), 0)
    && h.journalExtent == Up(JournalBytes(h.rootSlotCount), CACHE_LINE)
    && h.pinExtent == Up(env.pinBytes, CACHE_LINE)
    && SameChannels(h)
    && PageOk(env.page) && h.totalSize == Up(End(h), env.page)
  }

  /** A tiling keeps its regions apart and ends at the end of the last one. */
  lemma {:induction false} TilesApart(rs: seq<Region>, from: nat, i: nat, j: nat)
    requires Tiles(rs, from) && i < j < |rs|
    ensures rs[i].0 + rs[i].1 <= rs[j].0
    decreases j
  {
    if i + 1 < j {
      TilesApart(rs, from, i, j - 1);
      assert TileAt(rs, from, j - 1);
    }
    assert TileAt(rs, from, j);
  }

  /** A manifest the bridge accepts has header, allocator, journal, pin table and all five channels aligned,
      non-empty, pairwise disjoint and inside the segment, with no end that wraps. */
  lemma BridgeAcceptedIsSound(env: Env, h: Header, segmentSize: word, profile: Profile, i: nat, j: nat)
    requires |h.channels| == CHANNELS && BridgeAccepts(env, h, segmentSize, profile)
    requires i < j < |Regions(h)|
    ensures var rs := Regions(h);
            && rs[i].0 % CACHE_LINE == 0 && rs[i].1 > 0
            && rs[i].0 + rs[i].1 <= rs[j].0 < rs[j].0 + rs[j].1 <= segmentSize
  {
    hide Up, PowerOfTwo;
    var rs := Regions(h);
    TilesApart(rs, 0, i, j);
    assert TileAt(rs, 0, i) && TileAt(rs, 0, j);
    if j < 8 { TilesApart(rs, 0, j, 8); }
    UpBounds(End(h), env.page);
  }

  // ----- The bridge's validator -----

  method RangeWithin(offset: word, extent: word, total: word) returns (ok: bool)
    ensures ok <==> offset % CACHE_LINE == 0 && extent > 0 && extent % CACHE_LINE == 0 && offset + extent <= total
  {
    var end := CheckedAdd(offset, extent);
    return offset % CACHE_LINE == 0 && extent != 0 && extent % CACHE_LINE == 0 && end.Some? && end.value <= total;
  }

  ghost predicate AlignedRegion(offset: nat, extent: nat) {
    offset % CACHE_LINE == 0 && extent % CACHE_LINE == 0 && extent > 0
  }

  lemma FixedTiles(h: Header)
    requires |h.channels| == CHANNELS && h.allocatorOffset == HEADER_BYTES
    ensures Tiles(Regions(h)[..4], 0) <==>
            && AlignedRegion(h.allocatorOffset, h.allocatorExtent)
            && AlignedRegion(h.journalOffset, h.journalExtent) && AlignedRegion(h.pinOffset, h.pinExtent)
            && h.journalOffset == h.allocatorOffset + h.allocatorExtent
            && h.pinOffset == h.journalOffset + h.journalExtent
  {
    var rs := Regions(h)[..4];
    assert rs[0] == (0, HEADER_BYTES) && rs[1] == (h.allocatorOffset, h.allocatorExtent);
    assert rs[2] == (h.journalOffset, h.journalExtent) && rs[3] == (h.pinOffset, h.pinExtent);
    if Tiles(rs, 0) {
      assert TileAt(rs, 0, 1) && TileAt(rs, 0, 2) && TileAt(rs, 0, 3);
    }
  }

  /** A region must start at the cursor, rounded up, and have the required size, rounded up. */
  method FollowsCursor(cursor: word, offset: word, extent: word, required: word) returns (ok: bool)
    requires cursor % CACHE_LINE == 0
    ensures ok <==> offset == cursor && extent == Up(required, CACHE_LINE)
  {
    SmallPowers();
    hide PowerOfTwo, CheckedAlignUp, Up;
    AlignedUp(cursor);
    UpBounds(required, CACHE_LINE);
    var wantedOffset := CheckedAlignUp(cursor, CACHE_LINE);
    var wantedExtent := CheckedAlignUp(required, CACHE_LINE);
    if wantedExtent.None? { AlignOverflows(required, CACHE_LINE); }
    return wantedOffset == Some(offset) && wantedExtent == Some(extent);
  }

  /** The journal and pin part of the moving cursor. */
  method ValidateFixedRegions(env: Env, h: Header) returns (ok: bool)
    requires Fits(h) && h.allocatorOffset == HEADER_BYTES && h.rootSlotCount <= MAX32
    ensures ok <==>
            && Tiles(Regions(h)[..4], 0) && h.pinOffset + h.pinExtent <= h.totalSize
            && h.journalExtent == Up(JournalBytes(h.rootSlotCount), CACHE_LINE)
            && h.pinExtent == Up(env.pinBytes, CACHE_LINE)
  {
    hide Up, Tiles, Regions;
    FixedTiles(h);
    var allocator := RangeWithin(h.allocatorOffset, h.allocatorExtent, h.totalSize);
    var journal := RangeWithin(h.journalOffset, h.journalExtent, h.totalSize);
    var pin := RangeWithin(h.pinOffset, h.pinExtent, h.totalSize);
    if !allocator || !journal || !pin { return false; }
    UpOfSum(h.allocatorOffset, h.allocatorExtent);
    UpOfSum(h.journalOffset, h.journalExtent);
    ok := FollowsCursor(h.allocatorOffset + h.allocatorExtent, h.journalOffset, h.journalExtent,
                        JournalBytes(h.rootSlotCount));
    if !ok { return; }
    ok := FollowsCursor(h.journalOffset + h.journalExtent, h.pinOffset, h.pinExtent, env.pinBytes);
  }

  /** Rounding up leaves an aligned cursor alone and cannot wrap. */
  lemma AlignedUp(cursor: nat)
    requires cursor < U64 && cursor % CACHE_LINE == 0
    ensures Up(cursor, CACHE_LINE) == cursor && cursor + CACHE_LINE - 1 < U64
  {}

  ghost predicate ChannelFollows(h: Header, start: nat, e: nat)
    requires |h.channels| == CHANNELS && e < CHANNELS
  {
    && CapacityOk(h.channels[e].capacity) && h.channels[e].capacity == h.channels[0].capacity
    && h.channels[e].extent == ChannelBytes(h.channels[e].capacity)
    && h.channels[e].offset % CACHE_LINE == 0
    && h.channels[e].offset == (if e == 0 then start else h.channels[e - 1].offset + h.channels[e - 1].extent)
    && h.channels[e].offset + h.channels[e].extent <= h.totalSize
  }

  ghost predicate ChannelsTile(h: Header, start: nat, edges: nat)
    requires |h.channels| == CHANNELS && edges <= CHANNELS
  {
    forall e :: 0 <= e < edges ==> ChannelFollows(h, start, e)
  }

  lemma ChannelMultiple(e: nat, capacity: nat)
    ensures e * ChannelBytes(capacity) % CACHE_LINE == 0 && ChannelBytes(capacity) % CACHE_LINE == 0
    ensures ChannelBytes(capacity) > 0
  {
    var lines := 3 + 2 * capacity;
    assert ChannelBytes(capacity) == lines * 64;
    DivModUnique(ChannelBytes(capacity), 64, lines, 0);
    Regroups(e, lines, 64);
    DivModUnique(e * ChannelBytes(capacity), 64, e * lines, 0);
  }

  method ValidateChannel(channel: Extent, cursor: nat, total: word) returns (ok: bool)
    requires channel.offset < U64 && channel.extent < U64 && channel.capacity < U64
    ensures ok <==>
            && channel.offset % CACHE_LINE == 0 && channel.offset + channel.extent <= total && channel.offset == cursor
            && CapacityOk(channel.capacity) && channel.extent == ChannelBytes(channel.capacity)
  {
    hide And, PowerOfTwo, ChannelBytes;
    ChannelMultiple(0, channel.capacity);
    var within := RangeWithin(channel.offset, channel.extent, total);
    if !within || channel.offset != cursor { return false; }
    if channel.capacity < MINIMUM_CAPACITY || channel.capacity > MAXIMUM_CAPACITY { return false; }
    PowerOfTwoTest(channel.capacity);
    if And(channel.capacity, channel.capacity - 1) != 0 { return false; }
    return channel.extent == ChannelBytes(channel.capacity);
  }

  method ValidateChannels(h: Header) returns (ok: bool)
    requires Fits(h) && h.pinOffset + h.pinExtent <= h.totalSize
    ensures ok <==> ChannelsTile(h, h.pinOffset + h.pinExtent, CHANNELS)
  {
    hide CapacityOk, ChannelBytes;
    var cursor := h.pinOffset + h.pinExtent;
    ghost var start := cursor;
    var commonCapacity := 0;
    var edge := 0;
    while edge < CHANNELS
      invariant 0 <= edge <= CHANNELS
      invariant ChannelsTile(h, start, edge)
      invariant cursor == if edge == 0 then start
                          else h.channels[edge - 1].offset + h.channels[edge - 1].extent
      invariant edge > 0 ==> commonCapacity == h.channels[0].capacity
    {
      assert ChannelsTile(h, start, CHANNELS) ==> ChannelFollows(h, start, edge);
      var valid := ValidateChannel(h.channels[edge], cursor, h.totalSize);
      if !valid { return false; }
      if edge == 0 {
        commonCapacity := h.channels[edge].capacity;
      } else if h.channels[edge].capacity != commonCapacity {
        return false;
      }
      cursor := h.channels[edge].offset + h.channels[edge].extent;
      edge := edge + 1;
    }
    return true;
  }

  lemma ChannelRegion(h: Header, e: nat)
    requires |h.channels| == CHANNELS && e < CHANNELS
    ensures Regions(h)[e + 4] == (h.channels[e].offset, h.channels[e].extent)
    ensures e > 0 ==> Regions(h)[e + 3] == (h.channels[e - 1].offset, h.channels[e - 1].extent)
    ensures Regions(h)[3] == (h.pinOffset, h.pinExtent)
  {}

  lemma TilingWalks(env: Env, h: Header)
    requires |h.channels| == CHANNELS && PageOk(env.page) && h.totalSize == Up(End(h), env.page)
    requires Tiles(Regions(h), 0) && SameChannels(h)
    ensures Tiles(Regions(h)[..4], 0) && h.pinOffset + h.pinExtent <= h.totalSize
    ensures ChannelsTile(h, h.pinOffset + h.pinExtent, CHANNELS)
  {
    hide PowerOfTwo, Up, Regions, CapacityOk;
    var rs := Regions(h);
    UpBounds(End(h), env.page);
    ChannelRegion(h, 4);
    TilesApart(rs, 0, 3, 8);
    forall i | 0 <= i < 4 ensures TileAt(rs[..4], 0, i) { assert TileAt(rs, 0, i); }
    var start := h.pinOffset + h.pinExtent;
    forall e | 0 <= e < CHANNELS ensures ChannelFollows(h, start, e) {
      ChannelRegion(h, e);
      assert TileAt(rs, 0, e + 4);
      if e < 4 { TilesApart(rs, 0, e + 4, 8); }
    }
  }

  lemma WalksTile(h: Header)
    requires |h.channels| == CHANNELS && Tiles(Regions(h)[..4], 0)
    requires ChannelsTile(h, h.pinOffset + h.pinExtent, CHANNELS)
    ensures Tiles(Regions(h), 0) && SameChannels(h)
  {
    hide PowerOfTwo, Regions, CapacityOk, ChannelBytes;
    var rs := Regions(h);
    ChannelRegion(h, 0);
    forall i | 0 <= i < |rs| ensures TileAt(rs, 0, i) {
      if i < 4 {
        assert TileAt(rs[..4], 0, i);
        if i > 0 { assert rs[..4][i - 1] == rs[i - 1]; }
      } else {
        var e := i - 4;
        ChannelRegion(h, e);
        assert ChannelFollows(h, h.pinOffset + h.pinExtent, e);
        ChannelMultiple(e, h.channels[e].capacity);
      }
    }
    forall e | 0 <= e < CHANNELS
      ensures CapacityOk(h.channels[e].capacity) && h.channels[e].capacity == h.channels[0].capacity
      ensures h.channels[e].extent == ChannelBytes(h.channels[e].capacity)
    {
      assert ChannelFollows(h, h.pinOffset + h.pinExtent, e);
    }
  }

  method ValidateManifestByBridge(env: Env, h: Header, segmentSize: word, profile: Profile) returns (ok: bool)
    requires Fits(h)
    ensures ok <==> BridgeAccepts(env, h, segmentSize, profile)
  {
    hide Up, PowerOfTwo, Pow2, And, CheckedAlignUp, Tiles, ChannelsTile, SameChannels, JournalBytes;
    if segmentSize < HEADER_BYTES { TooSmall(env, h, segmentSize, profile); return false; }
    if !Identified(env, h, profile) || h.totalSize != segmentSize { return false; }
    if h.allocatorOffset != HEADER_BYTES { AllocatorFirst(h); return false; }
    if h.rootSlotCount == 0 || h.rootSlotCount != h.childSlotCount
       || h.slotCount != (h.rootSlotCount + h.childSlotCount) % U64
       || h.slotCount > MAX32 || h.rootSlotCount > MAX32 { return false; }
    var fixedRegions := ValidateFixedRegions(env, h);
    var page := env.page >= CACHE_LINE;
    if page {
      PowerOfTwoTest(env.page);
      page := And(env.page, env.page - 1) == 0;
    }
    if !page { return false; }
    if !fixedRegions {
      if BridgeAccepts(env, h, segmentSize, profile) { TilingWalks(env, h); }
      return false;
    }
    var channels := ValidateChannels(h);
    if !channels {
      if BridgeAccepts(env, h, segmentSize, profile) { TilingWalks(env, h); }
      return false;
    }
    EndFits(h);
    var total := CheckedAlignUp(End(h), env.page);
    if total.None? { AlignOverflows(End(h), env.page); }
    if total != Some(h.totalSize) { return false; }
    WalksTile(h);
    return true;
  }

  lemma EndFits(h: Header)
    requires Fits(h) && ChannelsTile(h, h.pinOffset + h.pinExtent, CHANNELS)
    ensures End(h) < U64
  {
    assert ChannelFollows(h, h.pinOffset + h.pinExtent, CHANNELS - 1);
  }

  lemma AllocatorFirst(h: Header)
    requires |h.channels| == CHANNELS
    ensures Tiles(Regions(h), 0) ==> h.allocatorOffset == HEADER_BYTES
  {
    var rs := Regions(h);
    assert Tiles(rs, 0) ==> TileAt(rs, 0, 1);
  }

  lemma TooSmall(env: Env, h: Header, segmentSize: nat, profile: Profile)
    requires |h.channels| == CHANNELS && segmentSize < HEADER_BYTES
    ensures !BridgeAccepts(env, h, segmentSize, profile)
  {
    hide Up, PowerOfTwo;
    if BridgeAccepts(env, h, segmentSize, profile) {
      BridgeAcceptedIsSound(env, h, segmentSize, profile, 0, 1);
    }
  }

  // ----- The pipeline's validator -----

  /** Every region of the ideal layout starts on a cache line where the previous one ends. */
  lemma IdealRegions(env: Env, profile: Profile, capacity: nat)
    requires PageOk(env.page)
    ensures var l := Ideal(env, profile, capacity);
            && l.allocatorExtent % CACHE_LINE == 0 && l.journalExtent % CACHE_LINE == 0 && l.pinExtent % CACHE_LINE == 0
            && l.journalOffset == HEADER_BYTES + l.allocatorExtent
            && l.pinOffset == l.journalOffset + l.journalExtent
            && l.channels == ChannelTable(l.pinOffset + l.pinExtent, capacity)
            && l.pinOffset + l.pinExtent + CHANNELS * ChannelBytes(capacity) <= l.totalSize
  {
    TotalCovers(env, profile, capacity);
    hide Up, PowerOfTwo, AllocatorBytes, SlotsPerClass, JournalBytes, ChannelTable, ChannelBytes, Ideal;
    var l := Ideal(env, profile, capacity);
    IdealSteps(env, profile, capacity);
    AllocatorAligned(env, profile, 2 * SlotsPerClass(capacity));
    UpBounds(JournalBytes(SlotsPerClass(capacity)), CACHE_LINE);
    UpBounds(env.pinBytes, CACHE_LINE);
    UpOfSum(HEADER_BYTES, l.allocatorExtent);
    UpOfSum(l.journalOffset, l.journalExtent);
  }

  lemma IdealSteps(env: Env, profile: Profile, capacity: nat)
    requires env.page > 0
    ensures var l := Ideal(env, profile, capacity);
            && l.allocatorExtent == AllocatorBytes(env, profile, 2 * SlotsPerClass(capacity))
            && l.journalOffset == Up(HEADER_BYTES + l.allocatorExtent, CACHE_LINE)
            && l.journalExtent == Up(JournalBytes(SlotsPerClass(capacity)), CACHE_LINE)
            && l.pinOffset == Up(l.journalOffset + l.journalExtent, CACHE_LINE)
            && l.pinExtent == Up(env.pinBytes, CACHE_LINE)
            && l.channels == ChannelTable(l.pinOffset + l.pinExtent, capacity)
  {
    hide Up, AllocatorBytes, SlotsPerClass, JournalBytes, ChannelTable, ChannelBytes;
  }

  lemma AllocatorAligned(env: Env, profile: Profile, slots: nat)
    ensures AllocatorBytes(env, profile, slots) % CACHE_LINE == 0
    ensures slots > 0 ==> AllocatorBytes(env, profile, slots) > 0
  {
    hide Up;
    UpBounds(MetadataBytes(slots) + SlotStride(env, profile) * slots, CACHE_LINE);
    UpBounds(Up(Up(64 + 16 * 2, 8) + 8 * ((slots + 63) / 64), 4) + 4 * slots + 4 * 2, 64);
  }

  lemma TableEntry(offset: nat, capacity: nat, e: nat)
    requires e < CHANNELS && offset % CACHE_LINE == 0
    ensures var t := ChannelTable(offset, capacity);
            && t[e].offset % CACHE_LINE == 0 && t[e].extent % CACHE_LINE == 0 && t[e].extent > 0
            && t[e].capacity == capacity && t[e].extent == ChannelBytes(capacity)
            && t[e].offset == (if e == 0 then offset else t[e - 1].offset + t[e - 1].extent)
            && t[e].offset + t[e].extent <= offset + CHANNELS * ChannelBytes(capacity)
  {
    hide ChannelBytes, Up;
    var bytes := ChannelBytes(capacity);
    EdgeWithin(e, bytes);
    if e > 0 { EdgeWithin(e - 1, bytes); }
    ChannelMultiple(e, capacity);
    UpOfSum(offset, e * bytes);
  }

  /** RangeWithin of the pipeline, which allows an empty range. */
  method PipelineRangeWithin(offset: word, extent: word, total: word) returns (ok: bool)
    ensures ok <==> offset % CACHE_LINE == 0 && extent % CACHE_LINE == 0 && offset + extent <= total
  {
    var end := CheckedAdd(offset, extent);
    return offset % CACHE_LINE == 0 && extent % CACHE_LINE == 0 && end.Some? && end.value <= total;
  }

  ghost predicate Canonical(env: Env, h: Header, profile: Profile, capacity: nat) {
    LayoutExists(env, profile, capacity) && h == Published(env, profile, Ideal(env, profile, capacity))
  }

  lemma CanonicalRanges(env: Env, h: Header, profile: Profile, capacity: nat)
    requires Canonical(env, h, profile, capacity)
    ensures |h.channels| == CHANNELS
    ensures h.allocatorOffset % CACHE_LINE == 0 && h.allocatorExtent % CACHE_LINE == 0
            && h.allocatorOffset + h.allocatorExtent <= h.totalSize
    ensures h.journalOffset % CACHE_LINE == 0 && h.journalExtent % CACHE_LINE == 0
            && h.journalOffset + h.journalExtent <= h.totalSize
    ensures h.pinOffset % CACHE_LINE == 0 && h.pinExtent % CACHE_LINE == 0 && h.pinOffset + h.pinExtent <= h.totalSize
    ensures forall e :: 0 <= e < CHANNELS ==>
              && h.channels[e].offset % CACHE_LINE == 0 && h.channels[e].extent % CACHE_LINE == 0
              && h.channels[e].offset + h.channels[e].extent <= h.totalSize && h.channels[e].capacity == capacity
  {
    hide Ideal, PowerOfTwo, ChannelTable, Up, SlotsPerClass, AllocatorBytes, JournalBytes, ChannelBytes, PayloadBytes;
    hide LayoutExists, ProfileToWire;
    PageOfLayout(env, profile, capacity);
    var l := Ideal(env, profile, capacity);
    IdealRegions(env, profile, capacity);
    AllocatorStart(env, profile, capacity);
    FiveChannels(env, profile, capacity);
    UpOfSum(HEADER_BYTES, l.allocatorExtent);
    UpOfSum(l.journalOffset, l.journalExtent);
    UpOfSum(l.pinOffset, l.pinExtent);
    forall e | 0 <= e < CHANNELS
      ensures && h.channels[e].offset % CACHE_LINE == 0 && h.channels[e].extent % CACHE_LINE == 0
              && h.channels[e].offset + h.channels[e].extent <= h.totalSize && h.channels[e].capacity == capacity
    {
      TableEntry(h.pinOffset + h.pinExtent, capacity, e);
    }
  }

  lemma PageOfLayout(env: Env, profile: Profile, capacity: nat)
    requires LayoutExists(env, profile, capacity)
    ensures env.page > 0 && PageOk(env.page)
  {
    hide Ideal;
  }

  lemma AllocatorStart(env: Env, profile: Profile, capacity: nat)
    requires env.page > 0
    ensures Ideal(env, profile, capacity).allocatorOffset == HEADER_BYTES
    ensures Ideal(env, profile, capacity).rootSlotCount == SlotsPerClass(capacity)
    ensures Ideal(env, profile, capacity).childSlotCount == SlotsPerClass(capacity)
    ensures Ideal(env, profile, capacity).slotCount == 2 * SlotsPerClass(capacity)
    ensures Ideal(env, profile, capacity).journalExtent == Up(JournalBytes(SlotsPerClass(capacity)), CACHE_LINE)
    ensures Ideal(env, profile, capacity).pinExtent == Up(env.pinBytes, CACHE_LINE)
    ensures Ideal(env, profile, capacity).allocatorExtent == AllocatorBytes(env, profile, 2 * SlotsPerClass(capacity))
  {}

  method ValidateRanges(h: Header, capacity: nat) returns (ok: bool)
    requires Fits(h)
    ensures ok <==>
            && h.allocatorOffset % CACHE_LINE == 0 && h.allocatorExtent % CACHE_LINE == 0
            && h.allocatorOffset + h.allocatorExtent <= h.totalSize
            && h.journalOffset % CACHE_LINE == 0 && h.journalExtent % CACHE_LINE == 0
            && h.journalOffset + h.journalExtent <= h.totalSize
            && h.pinOffset % CACHE_LINE == 0 && h.pinExtent % CACHE_LINE == 0
            && h.pinOffset + h.pinExtent <= h.totalSize
            && forall e :: 0 <= e < CHANNELS ==>
                 && h.channels[e].offset % CACHE_LINE == 0 && h.channels[e].extent % CACHE_LINE == 0
                 && h.channels[e].offset + h.channels[e].extent <= h.totalSize && h.channels[e].capacity == capacity
  {
    var allocator := PipelineRangeWithin(h.allocatorOffset, h.allocatorExtent, h.totalSize);
    if !allocator { return false; }
    var journal := PipelineRangeWithin(h.journalOffset, h.journalExtent, h.totalSize);
    if !journal { return false; }
    var pin := PipelineRangeWithin(h.pinOffset, h.pinExtent, h.totalSize);
    if !pin { return false; }
    var edge := 0;
    while edge < CHANNELS
      invariant 0 <= edge <= CHANNELS
      invariant forall e :: 0 <= e < edge ==>
                  && h.channels[e].offset % CACHE_LINE == 0 && h.channels[e].extent % CACHE_LINE == 0
                  && h.channels[e].offset + h.channels[e].extent <= h.totalSize && h.channels[e].capacity == capacity
    {
      var channel := PipelineRangeWithin(h.channels[edge].offset, h.channels[edge].extent, h.totalSize);
      if !channel || h.channels[edge].capacity != capacity { return false; }
      edge := edge + 1;
    }
    return true;
  }

  method MatchesLayout(h: Header, l: SegmentLayout) returns (ok: bool)
    requires |h.channels| == |l.channels| == CHANNELS
    ensures ok <==>
            && h.totalSize == l.totalSize && h.allocatorOffset == l.allocatorOffset
            && h.allocatorExtent == l.allocatorExtent && h.slotCount == l.slotCount
            && h.rootSlotCount == l.rootSlotCount && h.childSlotCount == l.childSlotCount
            && h.journalOffset == l.journalOffset && h.journalExtent == l.journalExtent
            && h.pinOffset == l.pinOffset && h.pinExtent == l.pinExtent && h.channels == l.channels
  {
    if h.totalSize != l.totalSize || h.allocatorOffset != l.allocatorOffset || h.allocatorExtent != l.allocatorExtent
       || h.slotCount != l.slotCount || h.rootSlotCount != l.rootSlotCount || h.childSlotCount != l.childSlotCount
       || h.journalOffset != l.journalOffset || h.journalExtent != l.journalExtent
       || h.pinOffset != l.pinOffset || h.pinExtent != l.pinExtent { return false; }
    var edge := 0;
    while edge < CHANNELS
      invariant 0 <= edge <= CHANNELS && h.channels[..edge] == l.channels[..edge]
    {
      if h.channels[edge] != l.channels[edge] { return false; }
      edge := edge + 1;
    }
    assert h.channels[..edge] == h.channels && l.channels[..edge] == l.channels;
    return true;
  }

  /** The pipeline accepts one manifest only: the published manifest of the layout it computes itself. */
  method ValidateManifestByPipeline(env: Env, h: Header, segmentSize: word, profile: Profile, capacity: word)
    returns (ok: bool)
    requires Fits(h)
    ensures ok <==> Canonical(env, h, profile, capacity) && h.totalSize == segmentSize
  {
    hide Ideal, ChannelTable, PowerOfTwo;
    if Canonical(env, h, profile, capacity) {
      CanonicalRanges(env, h, profile, capacity);
      CanonicalSize(env, h, profile, capacity);
    }
    if segmentSize < HEADER_BYTES { return false; }
    if !Identified(env, h, profile) || h.totalSize != segmentSize { return false; }
    var ranges := ValidateRanges(h, capacity);
    if !ranges { return false; }
    var expected := ComputeSegmentLayout(env, profile, capacity);
    if expected.None? { return false; }
    FiveChannels(env, profile, capacity);
    ok := MatchesLayout(h, expected.value);
  }

  lemma FiveChannels(env: Env, profile: Profile, capacity: nat)
    requires env.page > 0
    ensures |Ideal(env, profile, capacity).channels| == CHANNELS
  {}

  lemma CanonicalSize(env: Env, h: Header, profile: Profile, capacity: nat)
    requires Canonical(env, h, profile, capacity)
    ensures h.totalSize >= HEADER_BYTES
  {
    hide Ideal, ChannelTable;
    IdealRegions(env, profile, capacity);
  }

  // ----- The two validators against each other -----

  lemma SlotBounds(capacity: nat)
    requires capacity <= MAXIMUM_CAPACITY
    ensures 0 < 2 * SlotsPerClass(capacity) <= MAX32 && CHANNELS * capacity + 16 <= SlotsPerClass(capacity)
  {
    UpBounds(CHANNELS * capacity + 16, 64);
  }

  /** Every manifest built from a layout is accepted by the bridge, provided the pin table has a size. */
  lemma CanonicalBridgeAccepted(env: Env, h: Header, profile: Profile, capacity: nat)
    requires Canonical(env, h, profile, capacity) && env.pinBytes > 0
    ensures |h.channels| == CHANNELS && BridgeAccepts(env, h, h.totalSize, profile)
  {
    hide PowerOfTwo, SlotsPerClass, AllocatorBytes, Up;
    hide ChannelTable, Ideal;
    FiveChannels(env, profile, capacity);
    IdealRegions(env, profile, capacity);
    AllocatorStart(env, profile, capacity);
    SlotBounds(capacity);
    AllocatorAligned(env, profile, 2 * SlotsPerClass(capacity));
    UpBounds(env.pinBytes, CACHE_LINE);
    UpBounds(JournalBytes(SlotsPerClass(capacity)), CACHE_LINE);
    CanonicalTiles(env, h, profile, capacity);
    TotalCovers(env, profile, capacity);
    TableEnd(h.pinOffset + h.pinExtent, capacity);
  }

  lemma TableEnd(offset: nat, capacity: nat)
    ensures var t := ChannelTable(offset, capacity);
            t[CHANNELS - 1].offset + t[CHANNELS - 1].extent == offset + CHANNELS * ChannelBytes(capacity)
  {
    EdgeWithin(CHANNELS - 1, ChannelBytes(capacity));
  }

  lemma CanonicalTiles(env: Env, h: Header, profile: Profile, capacity: nat)
    requires Canonical(env, h, profile, capacity)
    requires h.allocatorExtent > 0 && h.journalExtent > 0 && h.pinExtent > 0
    ensures |h.channels| == CHANNELS && Tiles(Regions(h), 0) && SameChannels(h)
  {
    hide PowerOfTwo, Ideal, ChannelTable, Regions, Up, SlotsPerClass, AllocatorBytes, JournalBytes, ChannelBytes, Tiles;
    FiveChannels(env, profile, capacity);
    IdealRegions(env, profile, capacity);
    AllocatorStart(env, profile, capacity);
    FixedTiles(h);
    var start := h.pinOffset + h.pinExtent;
    forall e | 0 <= e < CHANNELS ensures ChannelFollows(h, start, e) {
      TableEntry(start, capacity, e);
      TableEntry(start, capacity, 0);
    }
    WalksTile(h);
  }

  /** Acceptance by the pipeline implies acceptance by the bridge. */
  lemma PipelineImpliesBridge(env: Env, h: Header, segmentSize: nat, profile: Profile, capacity: nat)
    requires Canonical(env, h, profile, capacity) && h.totalSize == segmentSize && env.pinBytes > 0
    ensures |h.channels| == CHANNELS && BridgeAccepts(env, h, segmentSize, profile)
    ensures h.rootSlotCount == h.childSlotCount >= CHANNELS * capacity + 16
  {
    hide Canonical, BridgeAccepts;
    CanonicalBridgeAccepted(env, h, profile, capacity);
    CanonicalSlots(env, h, profile, capacity);
  }

  lemma CanonicalSlots(env: Env, h: Header, profile: Profile, capacity: nat)
    requires Canonical(env, h, profile, capacity)
    ensures h.rootSlotCount == h.childSlotCount == SlotsPerClass(capacity) >= CHANNELS * capacity + 16
  {
    hide Ideal;
    AllocatorStart(env, profile, capacity);
    SlotBounds(capacity);
  }

  /** The converse holds exactly when the slot count and the allocator extent, which the bridge takes from
      the manifest, are those of the layout, and the segment is within the size limit. */
  lemma BridgeImpliesPipelineIff(env: Env, h: Header, segmentSize: nat, profile: Profile)
    requires |h.channels| == CHANNELS && BridgeAccepts(env, h, segmentSize, profile) && env.frameSize <= MAX32
    ensures var capacity := h.channels[0].capacity;
            Canonical(env, h, profile, capacity) <==>
            && h.rootSlotCount == SlotsPerClass(capacity)
            && h.allocatorExtent == AllocatorBytes(env, profile, 2 * SlotsPerClass(capacity))
            && segmentSize <= MAXIMUM_SEGMENT_BYTES
  {
    hide PowerOfTwo, Up, SlotsPerClass, AllocatorBytes, Ideal, ChannelTable, Regions;
    var capacity := h.channels[0].capacity;
    var l := Ideal(env, profile, capacity);
    AllocatorStart(env, profile, capacity);
    IdealRegions(env, profile, capacity);
    if h.rootSlotCount == SlotsPerClass(capacity)
       && h.allocatorExtent == AllocatorBytes(env, profile, 2 * SlotsPerClass(capacity))
    {
      BridgeFixesTheRest(env, h, segmentSize, profile);
      TotalCovers(env, profile, capacity);
      TableEnd(h.pinOffset + h.pinExtent, capacity);
    }
  }

  /** The manifest of a segment with `slots` slots per class instead of the computed number. */
  function Resized(env: Env, profile: Profile, capacity: nat, slots: nat): Header
    requires env.page > 0
  {
    var allocator := AllocatorBytes(env, profile, 2 * slots);
    var journal := Up(JournalBytes(slots), CACHE_LINE);
    var pin := Up(env.pinBytes, CACHE_LINE);
    var start := HEADER_BYTES + allocator + journal + pin;
    Header(MANIFEST_MAGIC, MANIFEST_VERSION, HEADER_BYTES, Up(start + CHANNELS * ChannelBytes(capacity), env.page),
           ProfileToWire(profile), 0, PayloadBytes(profile), HEADER_BYTES, allocator, env.frameSize, 2 * slots,
           CHANNELS, EXTENT_BYTES, slots, slots, HEADER_BYTES + allocator, journal,
           HEADER_BYTES + allocator + journal, pin, ChannelTable(start, capacity), 0)
  }

  /** Where the validators differ: for every profile, capacity and wrong number of slots, one per class included, there
      is a manifest the bridge accepts and the pipeline refuses. */
  lemma BridgeAcceptsOtherSlotCounts(env: Env, profile: Profile, capacity: nat, slots: nat)
    requires CapacityOk(capacity) && PageOk(env.page) && env.pinBytes > 0
    requires 0 < slots && 2 * slots <= MAX32 && slots != SlotsPerClass(capacity)
    ensures var h := Resized(env, profile, capacity, slots);
            && |h.channels| == CHANNELS && h.rootSlotCount == slots && BridgeAccepts(env, h, h.totalSize, profile)
            && forall p, c :: !Canonical(env, h, p, c)
  {
    hide PowerOfTwo, Up, AllocatorBytes, ChannelTable, ChannelBytes, Ideal, SlotsPerClass, Regions;
    var h := Resized(env, profile, capacity, slots);
    ResizedTiles(env, profile, capacity, slots);
    TableEnd(h.pinOffset + h.pinExtent, capacity);
    forall p, c | Canonical(env, h, p, c)
      ensures false
    {
      CanonicalRanges(env, h, p, c);
      TableEntry0(h.pinOffset + h.pinExtent, capacity);
      CanonicalSlots(env, h, p, c);
    }
  }

  lemma TableEntry0(offset: nat, capacity: nat)
    ensures ChannelTable(offset, capacity)[0].capacity == capacity
  {
  }

  lemma ResizedTiles(env: Env, profile: Profile, capacity: nat, slots: nat)
    requires CapacityOk(capacity) && env.page > 0 && env.pinBytes > 0 && slots > 0
    ensures var h := Resized(env, profile, capacity, slots);
            |h.channels| == CHANNELS && Tiles(Regions(h), 0) && SameChannels(h)
  {
    hide ChannelTable, Regions, Up, AllocatorBytes, JournalBytes, ChannelBytes, Tiles, CapacityOk, ProfileToWire;
    hide ChannelFollows;
    var h := Resized(env, profile, capacity, slots);
    ResizedRegions(env, profile, capacity, slots);
    FixedTiles(h);
    var start := h.pinOffset + h.pinExtent;
    forall e | 0 <= e < CHANNELS ensures ChannelFollows(h, start, e) {
      TableFollows(h, start, capacity, e);
    }
    WalksTile(h);
  }

  lemma ResizedRegions(env: Env, profile: Profile, capacity: nat, slots: nat)
    requires env.page > 0 && env.pinBytes > 0 && slots > 0
    ensures var h := Resized(env, profile, capacity, slots);
            var start := h.pinOffset + h.pinExtent;
            && AlignedRegion(h.allocatorOffset, h.allocatorExtent)
            && AlignedRegion(h.journalOffset, h.journalExtent) && AlignedRegion(h.pinOffset, h.pinExtent)
            && start % CACHE_LINE == 0 && start + CHANNELS * ChannelBytes(capacity) <= h.totalSize
  {
    hide ChannelTable, Up, AllocatorBytes, JournalBytes, ChannelBytes, ProfileToWire;
    var h := Resized(env, profile, capacity, slots);
    AllocatorAligned(env, profile, 2 * slots);
    JournalNotEmpty(slots);
    UpBounds(JournalBytes(slots), CACHE_LINE);
    UpBounds(env.pinBytes, CACHE_LINE);
    UpOfSum(HEADER_BYTES, h.allocatorExtent);
    UpOfSum(h.journalOffset, h.journalExtent);
    UpOfSum(h.pinOffset, h.pinExtent);
    UpBounds(h.pinOffset + h.pinExtent + CHANNELS * ChannelBytes(capacity), env.page);
  }

  lemma TableFollows(h: Header, start: nat, capacity: nat, e: nat)
    requires e < CHANNELS && CapacityOk(capacity) && start % CACHE_LINE == 0
    requires h.channels == ChannelTable(start, capacity) && start + CHANNELS * ChannelBytes(capacity) <= h.totalSize
    ensures ChannelFollows(h, start, e)
  {
    hide ChannelTable, ChannelBytes, CapacityOk;
    TableEntry(start, capacity, e);
    TableEntry(start, capacity, 0);
  }

  lemma JournalNotEmpty(slots: nat)
    requires slots > 0
    ensures JournalBytes(slots) > 0
  {
  }

  lemma BridgeFixesTheRest(env: Env, h: Header, segmentSize: nat, profile: Profile)
    requires |h.channels| == CHANNELS && BridgeAccepts(env, h, segmentSize, profile)
    ensures h.allocatorOffset == HEADER_BYTES && h.journalOffset == HEADER_BYTES + h.allocatorExtent
    ensures h.pinOffset == h.journalOffset + h.journalExtent
    ensures h.channels == ChannelTable(h.pinOffset + h.pinExtent, h.channels[0].capacity)
  {
    hide PowerOfTwo, Up, Regions;
    AllocatorFirst(h);
    TilingWalks(env, h);
    FixedTiles(h);
    FollowingIsTable(h, h.pinOffset + h.pinExtent);
  }

  lemma FollowingIsTable(h: Header, start: nat)
    requires |h.channels| == CHANNELS && ChannelsTile(h, start, CHANNELS)
    ensures h.channels == ChannelTable(start, h.channels[0].capacity)
  {
    hide CapacityOk;
    var bytes := ChannelBytes(h.channels[0].capacity);
    assert ChannelFollows(h, start, 0) && ChannelFollows(h, start, 1) && ChannelFollows(h, start, 2);
    assert ChannelFollows(h, start, 3) && ChannelFollows(h, start, 4);
  }
}
