/** The slab allocator's own view of its extent (central_slab.cc, class_table.cc): where its metadata and its slots
    stand, and that the extent computed for a segment is what it needs; likewise journal and channels. */
module Slab {
  import opened Payload
  import opened Arithmetic
  import opened Layout
  import opened Manifest

  const SUPERBLOCK: nat := 64
  const DESCRIPTOR: nat := 16
  const CONTROL_BLOCK: nat := 3 * 64
  const INDEX_SLOT: nat := 128
  const JOURNAL_CONTROL: nat := 64
  const JOURNAL_RECORD: nat := 128

  datatype Entry = Entry(size: nat, count: nat)

  // ----- The class table -----

  /** The first slot of class `k`: a class begins with a word of the bitmap. */
  function FirstSlot(classes: seq<Entry>, k: nat): (r: nat)
    requires k <= |classes|
    ensures r % 64 == 0
  {
    if k == 0 then 0
    else
      UpBounds(FirstSlot(classes, k - 1) + classes[k - 1].count, 64);
      Up(FirstSlot(classes, k - 1) + classes[k - 1].count, 64)
  }

  function TotalSlots(classes: seq<Entry>): nat {
    FirstSlot(classes, |classes|)
  }

  /** Slot `x` of class `k` among all slots. */
  function IndexOf(classes: seq<Entry>, k: nat, x: nat): nat
    requires k < |classes|
  {
    FirstSlot(classes, k) + x
  }

  lemma {:induction false} ClassesFollow(classes: seq<Entry>, k: nat, m: nat)
    requires k < m <= |classes|
    ensures FirstSlot(classes, k) + classes[k].count <= FirstSlot(classes, m)
    decreases m
  {
    UpBounds(FirstSlot(classes, m - 1) + classes[m - 1].count, 64);
    if k < m - 1 {
      ClassesFollow(classes, k, m - 1);
    }
  }

  /** The slots of all classes are numbered apart and below the total. */
  lemma IndicesDiffer(classes: seq<Entry>, k: nat, x: nat, m: nat, y: nat)
    requires k < |classes| && m < |classes| && x < classes[k].count && y < classes[m].count
    ensures IndexOf(classes, k, x) < TotalSlots(classes)
    ensures IndexOf(classes, k, x) == IndexOf(classes, m, y) <==> k == m && x == y
  {
    hide FirstSlot;
    ClassesFollow(classes, k, |classes|);
    if k < m {
      ClassesFollow(classes, k, m);
    } else if m < k {
      ClassesFollow(classes, m, k);
    }
  }

  // ----- Metadata -----

  function BitmapAt(classes: nat): nat {
    Up(SUPERBLOCK + DESCRIPTOR * classes, 8)
  }

  function BitmapWords(slots: nat): nat {
    (slots + 63) / 64
  }

  function GenerationsAt(classes: nat, slots: nat): nat {
    Up(BitmapAt(classes) + 8 * BitmapWords(slots), 4)
  }

  function DrainingAt(classes: nat, slots: nat): nat {
    GenerationsAt(classes, slots) + 4 * slots
  }

  function SlotsAt(classes: nat, slots: nat): nat {
    Up(DrainingAt(classes, slots) + 4 * classes, SLAB_HEADER)
  }

  /** The parts in front of the slots follow each other without overlap, each aligned to what it holds: a descriptor and
      a draining flag for every class, a bit in a word of the bitmap and a generation for every slot. */
  lemma MetadataHolds(classes: nat, slots: nat, k: nat, i: nat)
    requires k < classes && i < slots
    ensures SUPERBLOCK + DESCRIPTOR * (k + 1) <= BitmapAt(classes)
    ensures BitmapAt(classes) + 8 * (i / 64 + 1) <= GenerationsAt(classes, slots)
    ensures GenerationsAt(classes, slots) + 4 * (i + 1) <= DrainingAt(classes, slots)
    ensures DrainingAt(classes, slots) + 4 * (k + 1) <= SlotsAt(classes, slots)
    ensures BitmapAt(classes) % 8 == 0 && GenerationsAt(classes, slots) % 4 == 0
    ensures DrainingAt(classes, slots) % 4 == 0 && SlotsAt(classes, slots) % SLAB_HEADER == 0
  {
    hide Up, BitmapWords;
    UpBounds(SUPERBLOCK + DESCRIPTOR * classes, 8);
    UpBounds(BitmapAt(classes) + 8 * BitmapWords(slots), 4);
    UpBounds(DrainingAt(classes, slots) + 4 * classes, SLAB_HEADER);
    WordOfSlot(slots, i);
    FoursAdd(GenerationsAt(classes, slots), slots);
  }

  lemma WordOfSlot(slots: nat, i: nat)
    requires i < slots
    ensures i / 64 + 1 <= BitmapWords(slots)
  {}

  lemma FoursAdd(x: nat, n: nat)
    requires x % 4 == 0
    ensures (x + 4 * n) % 4 == 0
  {}

  lemma EightsAdd(x: nat, n: nat)
    requires x % 8 == 0
    ensures (x + 8 * n) % 4 == 0
  {}

  lemma UpOfMultiple(x: nat, a: nat)
    requires a > 0 && x % a == 0
    ensures Up(x, a) == x
  {}

  /** Setting up the allocator leaves out the alignment of the generations, which changes nothing. */
  lemma GenerationsFollowTheBitmap(classes: nat, slots: nat)
    ensures GenerationsAt(classes, slots) == BitmapAt(classes) + 8 * BitmapWords(slots)
  {
    hide Up, BitmapWords;
    UpBounds(SUPERBLOCK + DESCRIPTOR * classes, 8);
    EightsAdd(BitmapAt(classes), BitmapWords(slots));
    UpOfMultiple(BitmapAt(classes) + 8 * BitmapWords(slots), 4);
  }

  // ----- Slots -----

  /** The stride of a class table: the largest class is the last. */
  function Stride(classes: seq<Entry>): nat
    requires classes != []
  {
    Up(SLAB_HEADER + classes[|classes| - 1].size, SLAB_HEADER)
  }

  function RequiredBytes(classes: seq<Entry>): nat
    requires classes != []
  {
    SlotsAt(|classes|, TotalSlots(classes)) + Stride(classes) * TotalSlots(classes)
  }

  ghost predicate Increasing(classes: seq<Entry>) {
    forall i, j :: 0 <= i < j < |classes| ==> classes[i].size < classes[j].size
  }

  /** An object of any class fits behind the header of any slot. */
  lemma ObjectsFit(classes: seq<Entry>, k: nat)
    requires Increasing(classes) && k < |classes|
    ensures SLAB_HEADER + classes[k].size <= Stride(classes) && Stride(classes) % SLAB_HEADER == 0
  {
    UpBounds(SLAB_HEADER + classes[|classes| - 1].size, SLAB_HEADER);
  }

  /** A channel has room for its control block and an index slot for every position, apart from each other. */
  lemma ChannelHolds(capacity: nat, i: nat, j: nat)
    requires i < j <= capacity
    ensures CONTROL_BLOCK <= SlotAt(CONTROL_BLOCK, INDEX_SLOT, i)
    ensures SlotAt(CONTROL_BLOCK, INDEX_SLOT, i) + INDEX_SLOT <= SlotAt(CONTROL_BLOCK, INDEX_SLOT, j)
    ensures SlotAt(CONTROL_BLOCK, INDEX_SLOT, capacity) == ChannelBytes(capacity)
  {
    SlotsAreApart(CONTROL_BLOCK, INDEX_SLOT, capacity, i, j);
  }

  /** A journal has room for its control and a record for every transaction, apart from each other. */
  lemma JournalHolds(transactions: nat, i: nat, j: nat)
    requires i < j <= transactions
    ensures JOURNAL_CONTROL <= SlotAt(JOURNAL_CONTROL, JOURNAL_RECORD, i)
    ensures SlotAt(JOURNAL_CONTROL, JOURNAL_RECORD, i) + JOURNAL_RECORD <= SlotAt(JOURNAL_CONTROL, JOURNAL_RECORD, j)
    ensures SlotAt(JOURNAL_CONTROL, JOURNAL_RECORD, transactions) == JournalBytes(transactions)
  {
    SlotsAreApart(JOURNAL_CONTROL, JOURNAL_RECORD, transactions, i, j);
  }

  // ----- The allocator of a segment -----

  function SegmentClasses(env: Env, profile: Profile, perClass: nat): seq<Entry> {
    [Entry(env.frameSize, perClass), Entry(PayloadBytes(profile), perClass)]
  }

  /** What the segment layout sets aside for the allocator is what the allocator computes from its class table, to the
      byte. */
  lemma ExtentIsRequired(env: Env, profile: Profile, capacity: nat)
    requires ClassTableOk(Classes(env, profile))
    ensures var perClass := SlotsPerClass(capacity);
            var classes := SegmentClasses(env, profile, perClass);
            && Increasing(classes) && TotalSlots(classes) == 2 * perClass && FirstSlot(classes, 1) == perClass
            && SlotsAt(2, 2 * perClass) == MetadataBytes(2 * perClass) && Stride(classes) == SlotStride(env, profile)
            && RequiredBytes(classes) == AllocatorBytes(env, profile, 2 * perClass)
  {
    ClassesStayApart(env, profile);
    var perClass := SlotsPerClass(capacity);
    var classes := SegmentClasses(env, profile, perClass);
    SameStride(env, profile, perClass);
    SegmentNumbers(env, profile, capacity);
    hide SlotsPerClass, Up, FirstSlot, SlotStride, Stride, PayloadBytes;
    SameMetadata(2 * perClass);
    MetadataAligned(2 * perClass);
    hide MetadataBytes, SlotsAt, Classes;
    StrideIsLeast(env, profile, 0);
    RoundedTotal(MetadataBytes(2 * perClass), SlotStride(env, profile), 2 * perClass);
  }

  lemma RoundedTotal(metadata: nat, stride: nat, slots: nat)
    requires metadata % 64 == 0 && stride % 64 == 0
    ensures Up(metadata + stride * slots, 64) == metadata + stride * slots
  {
    AlignedProduct(slots, stride);
    Commutes(slots, stride);
    UpOfSum(metadata, stride * slots);
  }

  lemma SameStride(env: Env, profile: Profile, perClass: nat)
    requires 0 < env.frameSize < PayloadBytes(profile)
    ensures Stride(SegmentClasses(env, profile, perClass)) == SlotStride(env, profile)
  {}

  lemma SameMetadata(slots: nat)
    ensures SlotsAt(2, slots) == MetadataBytes(slots)
  {}

  lemma Commutes(x: nat, y: nat)
    ensures x * y == y * x
  {}

  /** In a segment, frames take the first half of the slots and payloads the second. */
  lemma SegmentNumbers(env: Env, profile: Profile, capacity: nat)
    ensures var perClass := SlotsPerClass(capacity);
            var classes := SegmentClasses(env, profile, perClass);
            FirstSlot(classes, 1) == perClass && TotalSlots(classes) == 2 * perClass
  {
    var perClass := SlotsPerClass(capacity);
    var classes := SegmentClasses(env, profile, perClass);
    UpBounds(CHANNELS * capacity + 16, 64);
    assert FirstSlot(classes, 0) == 0;
    assert FirstSlot(classes, 1) == Up(perClass, 64) == perClass;
    UpOfSum(perClass, perClass);
    assert FirstSlot(classes, 2) == Up(perClass + perClass, 64);
  }
}
