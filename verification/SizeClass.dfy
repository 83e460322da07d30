/** Size classes: rounding of requests, bins, and the slots of a run. */
module SizeClass {
  import opened Powers
  import opened RbTreeModel
  import opened RunMemory

  const RUN_HEADER_SIZE: nat := 24
  const BIN_COUNT: nat := 10
  const WORD: nat := 0x1_0000_0000

  function AlignCustom(size: nat, alignment: nat): nat
    requires alignment > 0
  {
    (size + (alignment - 1)) / alignment * alignment
  }

  function GetAlignment(size: nat): (a: nat)
    ensures a > 0
  {
    if size < 64 then 8 else if size < 256 then 64 else 1
  }

  function GetBinIndex(size: nat): int {
    if size < 64 then (size - 8) / 8 else if size < 256 then 7 + (size - 64) / 64 else -1
  }

  /** Number of slots of the given size in a run. */
  function SlotsFor(size: nat): int
    requires size > 0
  {
    var runSize := GetRunSize(size);
    var slots := (runSize - RUN_HEADER_SIZE) / size;
    if runSize - (slots + 1) * size < 0 then slots - 1 else slots
  }

  /** The slot size bin `i` serves. */
  function BinSlotSize(i: nat): nat {
    if i < 7 then 8 * (i + 1) else if i == 7 then 64 else if i == 8 then 128 else 192
  }

  /** A rounded request lands in the bin of exactly its size, or is large. */
  lemma RoundedRequest(size: nat)
    requires size > 0
    ensures var s := AlignCustom(size, GetAlignment(size));
      && s >= size && -1 <= GetBinIndex(s) < BIN_COUNT
      && (GetBinIndex(s) >= 0 ==> s == BinSlotSize(GetBinIndex(s)))
      && (GetBinIndex(s) < 0 ==> s >= 256 && (s == size || s == 256))
      && (GetBinIndex(s) < 0 <==> size > 192)
  {
  }

  /** The header and the slots of every bin fit into its runs. */
  lemma SlotsFit(i: nat)
    requires i < BIN_COUNT
    ensures var s := BinSlotSize(i);
      && s % 8 == 0 && 8 <= s && GetBinIndex(s) == i
      && 0 < SlotsFor(s) <= 63
      && RUN_HEADER_SIZE + SlotsFor(s) * s <= GetRunSize(s)
      && (GetRunSize(s) == 512 || GetRunSize(s) == 4096)
  {
    if i == 0 {} else if i == 1 {} else if i == 2 {} else if i == 3 {} else if i == 4 {}
    else if i == 5 {} else if i == 6 {} else if i == 7 {} else if i == 8 {} else {}
  }

  /** Address of slot `j`, counted down from the end of the run. */
  function SlotAddress(run: Addr, slotSize: nat, j: nat): int {
    run + GetRunSize(slotSize) - (j + 1) * slotSize
  }

  /** The slot index `mm_free` computes from an address. */
  function SlotIndex(run: Addr, slotSize: nat, p: Addr): int
    requires slotSize > 0
  {
    (run + GetRunSize(slotSize) - p) / slotSize - 1
  }

  /** `n` slots of `s` bytes at the end of a run of `size` bytes. */
  lemma SlotWithin(run: Addr, s: nat, n: nat, size: nat, j: nat)
    requires j < n && 0 < s && RUN_HEADER_SIZE + n * s <= size
    ensures run + RUN_HEADER_SIZE <= run + size - (j + 1) * s && run + size - (j + 1) * s + s <= run + size
    ensures (run + size - (run + size - (j + 1) * s)) / s - 1 == j
  {
    MulMonotone(j + 1, n, s);
    MulMonotone(1, j + 1, s);
    ProductQuotient(j + 1, s);
  }

  /** Slots lie behind the header, inside the run, are aligned, and are pairwise disjoint;
      the index computation inverts the address computation. */
  lemma SlotGeometry(i: nat, run: Addr, j: nat)
    requires i < BIN_COUNT && j < SlotsFor(BinSlotSize(i)) && run % 8 == 0
    ensures var (s, p) := (BinSlotSize(i), SlotAddress(run, BinSlotSize(i), j));
      && run + RUN_HEADER_SIZE <= p && p + s <= run + GetRunSize(s) && p % 8 == 0
      && SlotIndex(run, s, p) == j
  {
    hide BinSlotSize, SlotsFor, GetRunSize;
    SlotsFit(i);
    var s := BinSlotSize(i);
    SlotWithin(run, s, SlotsFor(s), GetRunSize(s), j);
    MulMod8(j + 1, s);
    AlignedDifference(run + GetRunSize(s), (j + 1) * s);
  }

  lemma AlignedDifference(a: int, b: int)
    requires a % 8 == 0 && b % 8 == 0
    ensures (a - b) % 8 == 0
  {
  }

  lemma SlotsDisjoint(i: nat, run: Addr, j: nat, k: nat)
    requires i < BIN_COUNT && j < k
    ensures var s := BinSlotSize(i);
      SlotAddress(run, s, k) + s <= SlotAddress(run, s, j)
  {
    MulMonotone(j + 2, k + 1, BinSlotSize(i));
    assert (j + 2) * BinSlotSize(i) == (j + 1) * BinSlotSize(i) + BinSlotSize(i);
  }

  lemma MulMonotone(a: nat, b: nat, s: nat)
    requires a <= b
    ensures a * s <= b * s
  {
  }

  lemma MulMod8(a: nat, s: nat)
    requires s % 8 == 0
    ensures (a * s) % 8 == 0
  {
    assert a * s == 8 * (a * (s / 8));
  }

  // ----- large requests -----

  /** Bytes asked of the run allocator for a large request, in 32-bit arithmetic. */
  function LargeRequest(size: nat): nat {
    ((size + RUN_HEADER_SIZE) + 7) % WORD / 8 * 8
  }

  /** The rounded request holds header and payload exactly when the addition does not wrap. When it wraps, at
      most the header fits, and not even that below 2^32 - 7. */
  lemma LargeRequestHolds(size: nat)
    requires size < WORD
    ensures LargeRequest(size) % 8 == 0
    ensures size <= WORD - 32 <==> LargeRequest(size) >= size + RUN_HEADER_SIZE
    ensures size <= WORD - 32 ==> LargeRequest(size) < size + RUN_HEADER_SIZE + 8
    ensures WORD - 32 < size < WORD - 7 ==> LargeRequest(size) < RUN_HEADER_SIZE
    ensures WORD - 7 <= size ==> LargeRequest(size) == RUN_HEADER_SIZE
  {
  }
}
