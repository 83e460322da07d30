/** Blocks in the hands of callers: where they lie and how they come and go. */
module HeapBlocks {
  import opened Powers
  import opened RbTreeModel
  import opened RunMemory
  import opened RbTree
  import opened Bitmap
  import opened SizeClass
  import opened HeapModel

  /** Where a live block is: the run, and the slot when the run has slots. */
  datatype Place = Place(run: Addr, slot: nat)

  function BlockAddress(info: map<Addr, Info>, at: Place): int
    requires at.run in info
  {
    if info[at.run].slotCount == 0 then at.run + RUN_HEADER_SIZE
    else SlotAddress(at.run, info[at.run].slotSize, at.slot)
  }

  /** Bytes a block can hold. */
  function Capacity(info: map<Addr, Info>, at: Place): int
    requires at.run in info
  {
    var h := info[at.run];
    if h.slotCount == 0 then h.word - RUN_HEADER_SIZE else h.slotSize
  }

  /** A slot of a bin run, or the payload of a large allocation. */
  ghost predicate Spot(info: map<Addr, Info>, owner: map<Addr, TreeRef>, at: Place) {
    && at.run in owner && at.run in info && owner[at.run] != FreeRuns
    && (if owner[at.run].Bin? then at.slot < info[at.run].slotCount else at.slot == 0)
  }

  /** A spot that is handed out. */
  ghost predicate Taken(info: map<Addr, Info>, owner: map<Addr, TreeRef>, at: Place) {
    Spot(info, owner, at) && (owner[at.run].Bin? ==> !Bit(info[at.run].word, at.slot))
  }

  /** `live` maps the addresses handed out to callers to their places: exactly the taken ones. */
  ghost predicate LiveOk(info: map<Addr, Info>, owner: map<Addr, TreeRef>, live: map<Addr, Place>) {
    && (forall p :: p in live ==> Taken(info, owner, live[p]) && BlockAddress(info, live[p]) == p)
    && (forall at :: Taken(info, owner, at) ==> BlockAddress(info, at) in live && live[BlockAddress(info, at)] == at)
  }

  /** Every bin run, except possibly `but`, holds at least one live block. */
  ghost predicate BusyBut(info: map<Addr, Info>, owner: map<Addr, TreeRef>, but: Addr) {
    forall r :: r in owner && owner[r].Bin? && r != but ==> r in info && info[r].word != Pow2(info[r].slotCount) - 1
  }

  // ----- where blocks lie -----

  /** A spot lies behind the header of its run and inside it, and is aligned. */
  lemma SpotBounds(info: map<Addr, Info>, owner: map<Addr, TreeRef>, lo: Addr, hi: Addr, at: Place)
    requires RunsOk(info, owner, lo, hi) && KindsOk(info, owner) && Spot(info, owner, at)
    ensures var (p, n) := (BlockAddress(info, at), Capacity(info, at));
      && at.run + RUN_HEADER_SIZE <= p && p + n <= at.run + InfoSize(info[at.run]) && p % 8 == 0
      && n >= 0 && (owner[at.run].Bin? ==> n > 0)
  {
    hide GetRunSize, SlotsFor, GetBinIndex, BinSlotSize, Pow2;
    if owner[at.run].Bin? {
      SlotsFit(owner[at.run].i);
      SlotGeometry(owner[at.run].i, at.run, at.slot);
    }
  }

  /** Different spots do not share bytes, and do not begin at the same address either. */
  lemma SpotsDisjoint(info: map<Addr, Info>, owner: map<Addr, TreeRef>, lo: Addr, hi: Addr, a: Place, b: Place)
    requires RunsOk(info, owner, lo, hi) && KindsOk(info, owner)
    requires Spot(info, owner, a) && Spot(info, owner, b) && a != b
    ensures BlockAddress(info, a) + Capacity(info, a) <= BlockAddress(info, b)
         || BlockAddress(info, b) + Capacity(info, b) <= BlockAddress(info, a)
    ensures BlockAddress(info, a) != BlockAddress(info, b)
  {
    SpotBounds(info, owner, lo, hi, a);
    SpotBounds(info, owner, lo, hi, b);
    if a.run == b.run {
      var i := owner[a.run].i;
      if a.slot < b.slot {
        SlotsDisjoint(i, a.run, a.slot, b.slot);
      } else {
        SlotsDisjoint(i, a.run, b.slot, a.slot);
      }
    }
  }

  /** The promise to callers: live blocks are aligned, pairwise disjoint, and overlap neither a header nor a
      free run. */
  lemma LiveBlocksApart(info: map<Addr, Info>, owner: map<Addr, TreeRef>, live: map<Addr, Place>, lo: Addr, hi: Addr,
        p: Addr)
    requires RunsOk(info, owner, lo, hi) && KindsOk(info, owner) && LiveOk(info, owner, live) && p in live
    ensures p % 8 == 0 && lo <= p && p + Capacity(info, live[p]) <= hi
    ensures forall q :: q in live && q != p ==>
      p + Capacity(info, live[p]) <= q || q + Capacity(info, live[q]) <= p
    ensures forall r :: r in owner ==> p + Capacity(info, live[p]) <= r || r + RUN_HEADER_SIZE <= p
    ensures forall r :: r in owner && owner[r] == FreeRuns ==>
      p + Capacity(info, live[p]) <= r || r + InfoSize(info[r]) <= p
  {
    SpotBounds(info, owner, lo, hi, live[p]);
    forall q | q in live && q != p
      ensures p + Capacity(info, live[p]) <= q || q + Capacity(info, live[q]) <= p
    {
      SpotsDisjoint(info, owner, lo, hi, live[p], live[q]);
    }
  }

  // ----- how blocks come and go -----

  /** The blocks keep their sizes. */
  ghost predicate SameBlocks(info0: map<Addr, Info>, info1: map<Addr, Info>, live: map<Addr, Place>) {
    forall p :: p in live ==>
      live[p].run in info0 && live[p].run in info1 && Capacity(info1, live[p]) == Capacity(info0, live[p])
  }

  /** Blocks do not depend on the free list. */
  lemma LiveFrame(info0: map<Addr, Info>, owner0: map<Addr, TreeRef>, info1: map<Addr, Info>,
        owner1: map<Addr, TreeRef>, live: map<Addr, Place>, but: Addr)
    requires SameUsedRuns(info0, owner0, info1, owner1)
    ensures LiveOk(info0, owner0, live) ==> LiveOk(info1, owner1, live)
    ensures BusyBut(info0, owner0, but) ==> BusyBut(info1, owner1, but)
    ensures LiveOk(info0, owner0, live) ==> SameBlocks(info0, info1, live)
  {
    forall at ensures Taken(info0, owner0, at) <==> Taken(info1, owner1, at) {}
  }

  /** A bin run with all slots free adds no block. */
  lemma LiveFreshRun(info: map<Addr, Info>, owner: map<Addr, TreeRef>, live: map<Addr, Place>, r: Addr, i: nat)
    requires LiveOk(info, owner, live) && BusyBut(info, owner, 0) && r !in owner && 0 !in owner && i < BIN_COUNT
    requires SlotsFor(BinSlotSize(i)) > 0
    ensures LiveOk(info[r := BinHeader(i)], owner[r := Bin(i)], live)
      && BusyBut(info[r := BinHeader(i)], owner[r := Bin(i)], r)
  {
    var n := SlotsFor(BinSlotSize(i));
    var (info1, owner1) := (info[r := BinHeader(i)], owner[r := Bin(i)]);
    forall at ensures Taken(info1, owner1, at) <==> Taken(info, owner, at) {
      if at.run == r && at.slot < n {
        AllBitsSet(n, at.slot);
      }
    }
  }

  /** A large allocation adds its payload as a block. */
  lemma LiveLarge(info: map<Addr, Info>, owner: map<Addr, TreeRef>, live: map<Addr, Place>, r: Addr, n: nat, lo: Addr,
        hi: Addr)
    requires LiveOk(info, owner, live) && BusyBut(info, owner, 0) && r !in owner
    requires var (info1, owner1) := (Sized(info, r, n), owner[r := LargeAllocations]);
      RunsOk(info1, owner1, lo, hi) && KindsOk(info1, owner1)
    ensures var (info1, owner1) := (Sized(info, r, n), owner[r := LargeAllocations]);
      && r + RUN_HEADER_SIZE !in live
      && LiveOk(info1, owner1, live[r + RUN_HEADER_SIZE := Place(r, 0)]) && BusyBut(info1, owner1, 0)
  {
    var (info1, owner1) := (Sized(info, r, n), owner[r := LargeAllocations]);
    var p := r + RUN_HEADER_SIZE;
    forall at ensures Taken(info1, owner1, at) <==> Taken(info, owner, at) || at == Place(r, 0) {}
    assert Spot(info1, owner1, Place(r, 0));
    FreshAddress(info, owner, live, info1, owner1, lo, hi, Place(r, 0));
  }

  /** A spot that no block occupied has an address no block had. */
  lemma FreshAddress(info: map<Addr, Info>, owner: map<Addr, TreeRef>, live: map<Addr, Place>,
                     info1: map<Addr, Info>, owner1: map<Addr, TreeRef>, lo: Addr, hi: Addr, at: Place)
    requires LiveOk(info, owner, live) && RunsOk(info1, owner1, lo, hi) && KindsOk(info1, owner1)
    requires Spot(info1, owner1, at) && !Taken(info, owner, at)
    requires forall p :: p in live ==>
      Spot(info1, owner1, live[p]) && BlockAddress(info1, live[p]) == BlockAddress(info, live[p])
    ensures BlockAddress(info1, at) !in live && BlockAddress(info1, at) >= 0
  {
    hide RunsOk, KindsOk;
    var p := BlockAddress(info1, at);
    SpotBounds(info1, owner1, lo, hi, at);
    if p in live {
      SpotBounds(info1, owner1, lo, hi, live[p]);
      SpotsDisjoint(info1, owner1, lo, hi, live[p], at);
    }
  }

  /** The header of `r` after slot `j` changes hands. */
  function Toggled(info: map<Addr, Info>, r: Addr, j: nat): map<Addr, Info>
    requires r in info
  {
    info[r := info[r].(word := Toggle(info[r].word, j))]
  }

  lemma ToggledTaken(info: map<Addr, Info>, owner: map<Addr, TreeRef>, r: Addr, j: nat, at: Place)
    requires r in owner && owner[r].Bin? && r in info && info[r].slotCount != 0
    ensures var info1 := Toggled(info, r, j);
      && (Spot(info1, owner, at) <==> Spot(info, owner, at))
      && (at != Place(r, j) ==> (Taken(info1, owner, at) <==> Taken(info, owner, at)))
      && (Spot(info, owner, at) && at == Place(r, j) ==> (Taken(info1, owner, at) <==> !Taken(info, owner, at)))
      && (at.run in info ==>
            BlockAddress(info1, at) == BlockAddress(info, at) && Capacity(info1, at) == Capacity(info, at))
  {
    ToggleFlips(info[r].word, j, at.slot);
  }

  /** Handing out a free slot adds one block. */
  lemma LiveTake(info: map<Addr, Info>, owner: map<Addr, TreeRef>, live: map<Addr, Place>, lo: Addr, hi: Addr,
        r: Addr, j: nat)
    requires RunsOk(info, owner, lo, hi) && KindsOk(info, owner) && LiveOk(info, owner, live)
    requires r in owner && owner[r].Bin? && Spot(info, owner, Place(r, j)) && Bit(info[r].word, j)
    ensures var p := BlockAddress(info, Place(r, j));
      p !in live && p >= 0 && LiveOk(Toggled(info, r, j), owner, live[p := Place(r, j)])
  {
    var at := Place(r, j);
    var p := BlockAddress(info, at);
    FreshAddress(info, owner, live, info, owner, lo, hi, at);
    var (info1, live1) := (Toggled(info, r, j), live[p := at]);
    forall q | q in live1 ensures Taken(info1, owner, live1[q]) && BlockAddress(info1, live1[q]) == q {
      ToggledTaken(info, owner, r, j, live1[q]);
    }
    forall a | Taken(info1, owner, a) ensures BlockAddress(info1, a) in live1 && live1[BlockAddress(info1, a)] == a {
      ToggledTaken(info, owner, r, j, a);
    }
  }

  /** Taking a slot back removes one block. */
  lemma LiveDrop(info: map<Addr, Info>, owner: map<Addr, TreeRef>, live: map<Addr, Place>, lo: Addr, hi: Addr, p: Addr)
    requires RunsOk(info, owner, lo, hi) && KindsOk(info, owner) && LiveOk(info, owner, live)
    requires p in live && owner[live[p].run].Bin?
    ensures LiveOk(Toggled(info, live[p].run, live[p].slot), owner, live - {p})
  {
    var (r, j) := (live[p].run, live[p].slot);
    var (info1, live1) := (Toggled(info, r, j), live - {p});
    forall q | q in live1 ensures Taken(info1, owner, live1[q]) && BlockAddress(info1, live1[q]) == q {
      ToggledTaken(info, owner, r, j, live1[q]);
    }
    forall a | Taken(info1, owner, a) ensures BlockAddress(info1, a) in live1 && live1[BlockAddress(info1, a)] == a {
      ToggledTaken(info, owner, r, j, a);
    }
  }

  /** The header of a bin run stays well-formed when a slot changes hands. */
  lemma ToggledKinds(info: map<Addr, Info>, owner: map<Addr, TreeRef>, lo: Addr, hi: Addr, r: Addr, j: nat)
    requires RunsOk(info, owner, lo, hi) && KindsOk(info, owner)
    requires r in owner && owner[r].Bin? && j < info[r].slotCount
    ensures RunsOk(Toggled(info, r, j), owner, lo, hi) && KindsOk(Toggled(info, r, j), owner)
  {
    ToggleInRange(info[r].word, j, info[r].slotCount);
  }

  /** When all slots of a bin run are free, the run can go. */
  lemma LiveEmptyRun(info: map<Addr, Info>, owner: map<Addr, TreeRef>, live: map<Addr, Place>, r: Addr)
    requires LiveOk(info, owner, live) && BusyBut(info, owner, r) && r in owner && owner[r].Bin? && r in info
    requires info[r].word == Pow2(info[r].slotCount) - 1
    ensures LiveOk(info, owner - {r}, live) && BusyBut(info, owner - {r}, 0)
  {
    forall at ensures Taken(info, owner - {r}, at) <==> Taken(info, owner, at) {
      if at.run == r && at.slot < info[r].slotCount {
        AllBitsSet(info[r].slotCount, at.slot);
      }
    }
  }

  /** All slots of a bin run are free exactly when no live block lies in it. */
  lemma EmptyRun(info: map<Addr, Info>, owner: map<Addr, TreeRef>, live: map<Addr, Place>, r: Addr)
    requires KindsOk(info, owner) && LiveOk(info, owner, live) && r in owner && owner[r].Bin?
    ensures r in info && info[r].word < Pow2(info[r].slotCount)
    ensures AllSet(info[r].word, info[r].slotCount) <==> forall p :: p in live ==> live[p].run != r
  {
    hide Bit, Pow2;
    if AllSet(info[r].word, info[r].slotCount) {
      forall p | p in live ensures live[p].run != r {
        assert Taken(info, owner, live[p]);
      }
    } else {
      var j: nat :| j < info[r].slotCount && !Bit(info[r].word, j);
      var p := BlockAddress(info, Place(r, j));
      assert Taken(info, owner, Place(r, j)) && p in live && live[p].run == r;
    }
  }

  lemma LiveDropLarge(info: map<Addr, Info>, owner: map<Addr, TreeRef>, live: map<Addr, Place>, p: Addr)
    requires LiveOk(info, owner, live) && BusyBut(info, owner, 0)
    requires p in live && owner[live[p].run] == LargeAllocations
    ensures LiveOk(info, owner - {live[p].run}, live - {p}) && BusyBut(info, owner - {live[p].run}, 0)
  {
    var r := live[p].run;
    forall at ensures Taken(info, owner - {r}, at) <==> Taken(info, owner, at) && at != live[p] {}
  }

  /** Once no block is live, every run is back on the free list. */
  lemma AllFreed(info: map<Addr, Info>, owner: map<Addr, TreeRef>, live: map<Addr, Place>)
    requires KindsOk(info, owner) && LiveOk(info, owner, live) && BusyBut(info, owner, 0) && live == map[]
      && 0 !in owner
    ensures forall r :: r in owner ==> owner[r] == FreeRuns
  {
    forall r | r in owner ensures owner[r] == FreeRuns {
      if owner[r].Bin? {
        var j := ClearBit(info[r].word, info[r].slotCount);
        assert Taken(info, owner, Place(r, j));
      } else if owner[r] == LargeAllocations {
        assert Taken(info, owner, Place(r, 0));
      }
    }
  }

  /** A heap without runs. */
  lemma EmptyHeap(links: map<Addr, Link>, info: map<Addr, Info>, roots: map<TreeRef, Addr>, trees: map<TreeRef, Tree>,
        lo: Addr, hi: Addr)
    requires forall k :: ValidRef(k) ==> k in roots && k in trees && roots[k] == 0 && trees[k] == Leaf
    ensures CoreOk(links, info, roots, trees, map[], lo, hi) && KindsOk(info, map[])
    ensures BusyBut(info, map[], 0) && LiveOk(info, map[], map[])
  {
    assert RedBlack(Leaf, 0);
  }

  // ----- steps of allocation and release, for the state of the allocator -----

  /** A detached run becomes a bin run that no block lives in yet. */
  lemma BinRunSteps(info0: map<Addr, Info>, owner0: map<Addr, TreeRef>, info1: map<Addr, Info>,
        owner1: map<Addr, TreeRef>, live: map<Addr, Place>, lo: Addr, hi: Addr, r: Addr, i: nat, a: Addr, n: nat)
    requires LiveOk(info0, owner0, live) && BusyBut(info0, owner0, 0) && SameUsedRuns(info0, owner0, info1, owner1)
    requires Detached(info1, owner1, lo, hi, r) && 0 !in owner1 && i < BIN_COUNT && SlotsFor(BinSlotSize(i)) > 0
    requires FreeBytesMove(info0, owner0, info1, owner1, r, a, n) && InfoSize(BinHeader(i)) <= InfoSize(info1[r])
    ensures var (info2, owner2) := (info1[r := BinHeader(i)], owner1[r := Bin(i)]);
      && LiveOk(info2, owner2, live) && BusyBut(info2, owner2, r) && SameBlocks(info0, info2, live)
      && SameUsedRuns(info0, owner0, info2, owner1)
      && Conserved(info0, owner0, info2, owner2, a, n, r + InfoSize(BinHeader(i)),
        InfoSize(info1[r]) - InfoSize(BinHeader(i)))
  {
    DetachedFacts(info1, owner1, lo, hi, r);
    LiveFrame(info0, owner0, info1, owner1, live, 0);
    LiveFreshRun(info1, owner1, live, r, i);
    ConservedUse(info0, owner0, info1, owner1, r, BinHeader(i), Bin(i), a, n);
    assert forall p :: p in live ==> live[p].run in owner1;
  }

  /** An empty bin stays empty while runs move between the free list and the heap. */
  lemma EmptyBinStays(info0: map<Addr, Info>, owner0: map<Addr, TreeRef>, links: map<Addr, Link>,
        info1: map<Addr, Info>, roots: map<TreeRef, Addr>, trees: map<TreeRef, Tree>, owner1: map<Addr, TreeRef>,
        lo: Addr, hi: Addr, k: TreeRef)
    requires SameUsedRuns(info0, owner0, info1, owner1) && CoreOk(links, info1, roots, trees, owner1, lo, hi)
    requires ValidRef(k) && k != FreeRuns && forall r :: r in owner0 ==> owner0[r] != k
    ensures k in trees && trees[k].Leaf?
  {
    TreeOrder(links, info1, roots, trees, owner1, lo, hi, k);
  }

  /** Taking a free slot of `r`, the only run that may be idle, leaves no idle run. */
  lemma TakeStep(links: map<Addr, Link>, info: map<Addr, Info>, roots: map<TreeRef, Addr>, trees: map<TreeRef, Tree>,
        owner: map<Addr, TreeRef>, live: map<Addr, Place>, lo: Addr, hi: Addr, r: Addr, j: nat, i: nat, but: Addr)
    requires CoreOk(links, info, roots, trees, owner, lo, hi) && KindsOk(info, owner) && LiveOk(info, owner, live)
    requires BusyBut(info, owner, but) && (but == r || but !in owner) && i < BIN_COUNT
    requires r in owner && owner[r] == Bin(i) && r in info && Bit(info[r].word, j)
    ensures var (info1, p) := (Toggled(info, r, j), SlotAddress(r, BinSlotSize(i), j));
      && p > 0 && p !in live && p % 8 == 0 && info[r].slotSize == BinSlotSize(i)
      && CoreOk(links, info1, roots, trees, owner, lo, hi) && KindsOk(info1, owner)
      && LiveOk(info1, owner, live[p := Place(r, j)]) && BusyBut(info1, owner, 0)
      && SameBlocks(info, info1, live) && Capacity(info1, Place(r, j)) == BinSlotSize(i)
      && Conserved(info, owner, info1, owner, 0, 0, 0, 0)
  {
    hide GetRunSize, SlotsFor, GetBinIndex, BinSlotSize, TreesOk, RunsOk, Conserved;
    SlotsFit(i);
    if j >= info[r].slotCount {
      NoHighBit(info[r].word, info[r].slotCount, j);
    }
    LiveTake(info, owner, live, lo, hi, r, j);
    ToggledKinds(info, owner, lo, hi, r, j);
    SpotBounds(info, owner, lo, hi, Place(r, j));
    ToggleFlips(info[r].word, j, j);
    AllBitsSet(info[r].slotCount, j);
    SameSizesConserved(info, Toggled(info, r, j), owner);
  }

  lemma SameSizesConserved(info0: map<Addr, Info>, info1: map<Addr, Info>, owner: map<Addr, TreeRef>)
    requires forall r :: r in owner ==> r in info0 && r in info1 && InfoSize(info0[r]) == InfoSize(info1[r])
    ensures Conserved(info0, owner, info1, owner, 0, 0, 0, 0)
  {
    forall x: Addr ensures TrackedByte(info1, owner, x) <==> TrackedByte(info0, owner, x) {
      if TrackedByte(info0, owner, x) {
        var s :| s in owner && Covers(info0, s, x);
        assert Covers(info1, s, x);
      }
      if TrackedByte(info1, owner, x) {
        var s :| s in owner && Covers(info1, s, x);
        assert Covers(info0, s, x);
      }
    }
  }

  lemma ConservedThen(info0: map<Addr, Info>, owner0: map<Addr, TreeRef>, info1: map<Addr, Info>,
        owner1: map<Addr, TreeRef>, info2: map<Addr, Info>, owner2: map<Addr, TreeRef>, a: Addr, n: nat, b: Addr,
        m: nat)
    requires Conserved(info0, owner0, info1, owner1, a, n, b, m) && Conserved(info1, owner1, info2, owner2, 0, 0, 0, 0)
    ensures Conserved(info0, owner0, info2, owner2, a, n, b, m)
  {
  }

  lemma SameBlocksThen(info0: map<Addr, Info>, info1: map<Addr, Info>, info2: map<Addr, Info>, live: map<Addr, Place>)
    requires SameBlocks(info0, info1, live) && SameBlocks(info1, info2, live)
    ensures SameBlocks(info0, info2, live)
  {
  }

  lemma Unchanged(info: map<Addr, Info>, owner: map<Addr, TreeRef>, live: map<Addr, Place>, a: Addr)
    requires KindsOk(info, owner) && LiveOk(info, owner, live)
    ensures SameBlocks(info, info, live) && Conserved(info, owner, info, owner, a, 0, 0, 0)
  {
  }

  /** A detached run becomes a large allocation. */
  lemma LargeSteps(links: map<Addr, Link>, roots: map<TreeRef, Addr>, trees: map<TreeRef, Tree>,
        info0: map<Addr, Info>, owner0: map<Addr, TreeRef>, info1: map<Addr, Info>, owner1: map<Addr, TreeRef>,
        live: map<Addr, Place>, lo: Addr, hi: Addr, r: Addr, n: nat, a: Addr, k: nat)
    requires CoreOk(links, info1, roots, trees, owner1, lo, hi)
    requires LiveOk(info0, owner0, live) && BusyBut(info0, owner0, 0) && SameUsedRuns(info0, owner0, info1, owner1)
    requires KindsOk(info1, owner1) && Detached(info1, owner1, lo, hi, r)
    requires info1[r].slotCount == 0 && info1[r].word == n >= RUN_HEADER_SIZE
    requires FreeBytesMove(info0, owner0, info1, owner1, r, a, k)
    ensures var (info2, owner2, p) := (Sized(info1, r, n), owner1[r := LargeAllocations], r + RUN_HEADER_SIZE);
      && CoreOk(links[r := Link(0, 0, 0, Black)], info2, roots, trees, owner1, lo, hi)
        && Detached(info2, owner1, lo, hi, r)
      && KindsOk(info2, owner2) && p !in live && p % 8 == 0 && p > 0 && BusyBut(info2, owner2, 0)
      && LiveOk(info2, owner2, live[p := Place(r, 0)])
      && SameBlocks(info0, info2, live) && Capacity(info2, Place(r, 0)) == n - RUN_HEADER_SIZE
      && Conserved(info0, owner0, info2, owner2, a, k, 0, 0)
  {
    LargeRun(links, roots, trees, info1, owner1, lo, hi, r, n);
    LiveFrame(info0, owner0, info1, owner1, live, 0);
    LiveLarge(info1, owner1, live, r, n, lo, hi);
    ConservedUse(info0, owner0, info1, owner1, r, Info(0, 0, n), LargeAllocations, a, k);
    LargeBlocks(info0, info1, owner1, live, r, n);
  }

  lemma LargeBlocks(info0: map<Addr, Info>, info1: map<Addr, Info>, owner1: map<Addr, TreeRef>,
        live: map<Addr, Place>, r: Addr, n: nat)
    requires SameBlocks(info0, info1, live) && LiveOk(info1, owner1, live) && r !in owner1
    ensures SameBlocks(info0, Sized(info1, r, n), live)
  {
  }

  lemma LargeRun(links: map<Addr, Link>, roots: map<TreeRef, Addr>, trees: map<TreeRef, Tree>,
                 info: map<Addr, Info>, owner: map<Addr, TreeRef>, lo: Addr, hi: Addr, r: Addr, n: nat)
    requires CoreOk(links, info, roots, trees, owner, lo, hi) && KindsOk(info, owner)
      && Detached(info, owner, lo, hi, r)
    requires info[r].slotCount == 0 && info[r].word == n >= RUN_HEADER_SIZE
    ensures var (info2, owner2) := (Sized(info, r, n), owner[r := LargeAllocations]);
      && CoreOk(links[r := Link(0, 0, 0, Black)], info2, roots, trees, owner, lo, hi)
        && Detached(info2, owner, lo, hi, r)
      && KindsOk(info2, owner2) && RunsOk(info2, owner2, lo, hi)
      && r !in owner && r % 8 == 0 && r > 0
  {
    ReinitCore(links, info, roots, trees, owner, lo, hi, r, n);
    RunAdded(Sized(info, r, n), owner, lo, hi, LargeAllocations, r);
  }

  /** The run of a live block that is not empty contains its address, and no other run does; the run of an empty
      block does not. */
  lemma BlockRun(info: map<Addr, Info>, owner: map<Addr, TreeRef>, live: map<Addr, Place>, lo: Addr, hi: Addr, p: Addr)
    requires RunsOk(info, owner, lo, hi) && KindsOk(info, owner) && LiveOk(info, owner, live) && p in live
    ensures live[p].run in owner && live[p].run in info && owner[live[p].run] != FreeRuns
    ensures Covers(info, live[p].run, p) <==> Capacity(info, live[p]) > 0
    ensures Capacity(info, live[p]) > 0 ==> forall r :: r in owner && Covers(info, r, p) ==> r == live[p].run
  {
    SpotBounds(info, owner, lo, hi, live[p]);
  }

  lemma LiveRun(links: map<Addr, Link>, info: map<Addr, Info>, roots: map<TreeRef, Addr>, trees: map<TreeRef, Tree>,
                owner: map<Addr, TreeRef>, live: map<Addr, Place>, lo: Addr, hi: Addr, p: Addr)
    requires CoreOk(links, info, roots, trees, owner, lo, hi) && KindsOk(info, owner) && LiveOk(info, owner, live)
    ensures forall r :: r in owner ==> ValidRef(owner[r]) && r in info && r > 0
    ensures p in live ==> live[p].run in owner && live[p].run in info && owner[live[p].run] != FreeRuns
    ensures p in live && Capacity(info, live[p]) > 0 ==>
      Covers(info, live[p].run, p) && forall r :: r in owner && Covers(info, r, p) ==> r == live[p].run
  {
    if p in live {
      BlockRun(info, owner, live, lo, hi, p);
    }
  }

  /** The index computed from a slot's address is the slot's index. */
  lemma ReleaseIndex(info: map<Addr, Info>, owner: map<Addr, TreeRef>, live: map<Addr, Place>, lo: Addr, hi: Addr,
        p: Addr, i: nat)
    requires RunsOk(info, owner, lo, hi) && KindsOk(info, owner) && LiveOk(info, owner, live)
    requires p in live && owner[live[p].run] == Bin(i)
    ensures var r := live[p].run;
      && info[r].slotSize == BinSlotSize(i) > 0 && live[p].slot < info[r].slotCount
      && SlotIndex(r, info[r].slotSize, p) == live[p].slot && r <= p <= r + InfoSize(info[r])
      && InfoSize(info[r]) == GetRunSize(info[r].slotSize)
  {
    SlotsFit(i);
    SlotGeometry(i, live[p].run, live[p].slot);
  }

  /** Taking back the slot at `p`. */
  lemma ReleaseStep(links: map<Addr, Link>, info: map<Addr, Info>, roots: map<TreeRef, Addr>, trees: map<TreeRef, Tree>,
                    owner: map<Addr, TreeRef>, live: map<Addr, Place>, lo: Addr, hi: Addr, p: Addr, r: Addr, i: nat)
    requires CoreOk(links, info, roots, trees, owner, lo, hi) && KindsOk(info, owner) && LiveOk(info, owner, live)
    requires BusyBut(info, owner, 0) && p in live && live[p].run == r && r in owner && owner[r] == Bin(i) && r in info
    ensures info[r].slotSize > 0 && SlotIndex(r, info[r].slotSize, p) == live[p].slot && r <= p <= r + InfoSize(info[r])
    ensures info[r].slotCount > 0
    ensures InfoSize(info[r]) == GetRunSize(info[r].slotSize)
    ensures var info1 := Toggled(info, r, live[p].slot);
      && CoreOk(links, info1, roots, trees, owner, lo, hi) && KindsOk(info1, owner)
      && LiveOk(info1, owner, live - {p}) && BusyBut(info1, owner, r) && SameBlocks(info, info1, live - {p})
      && Conserved(info, owner, info1, owner, 0, 0, 0, 0)
      && (info1[r].word != Pow2(info1[r].slotCount) - 1 ==> BusyBut(info1, owner, 0))
  {
    ReleaseIndex(info, owner, live, lo, hi, p, i);
    LiveDrop(info, owner, live, lo, hi, p);
    ToggledKinds(info, owner, lo, hi, r, live[p].slot);
    ToggledBusy(info, owner, r, live[p].slot);
    ToggledBlocks(info, owner, live, r, live[p].slot);
    hide CoreOk, KindsOk, LiveOk, BusyBut, SameBlocks;
  }

  lemma ToggledBusy(info: map<Addr, Info>, owner: map<Addr, TreeRef>, r: Addr, j: nat)
    requires BusyBut(info, owner, 0) && r in owner && r in info && 0 !in owner
    ensures BusyBut(Toggled(info, r, j), owner, r)
    ensures Toggled(info, r, j)[r].word != Pow2(info[r].slotCount) - 1 ==> BusyBut(Toggled(info, r, j), owner, 0)
  {
  }

  lemma ToggledBlocks(info: map<Addr, Info>, owner: map<Addr, TreeRef>, live: map<Addr, Place>, r: Addr, j: nat)
    requires KindsOk(info, owner) && LiveOk(info, owner, live) && r in owner && r in info && info[r].slotCount != 0
    ensures SameBlocks(info, Toggled(info, r, j), live)
    ensures Conserved(info, owner, Toggled(info, r, j), owner, 0, 0, 0, 0)
  {
    SameSizesConserved(info, Toggled(info, r, j), owner);
  }

  /** The run `r` without live blocks joins the free list. */
  lemma GoneStep(info0: map<Addr, Info>, owner0: map<Addr, TreeRef>, info1: map<Addr, Info>, owner1: map<Addr, TreeRef>,
                 live: map<Addr, Place>, r: Addr)
    requires r in owner0 && r in info0 && owner0[r] != FreeRuns
    requires LiveOk(info0, owner0 - {r}, live) && BusyBut(info0, owner0 - {r}, 0)
    requires SameUsedRuns(info0, owner0 - {r}, info1, owner1)
    requires FreeBytesGrow(info0, owner0 - {r}, info1, owner1, r, InfoSize(info0[r]))
    ensures LiveOk(info1, owner1, live) && BusyBut(info1, owner1, 0) && SameBlocks(info0, info1, live)
    ensures Conserved(info0, owner0, info1, owner1, 0, 0, 0, 0)
  {
    LiveFrame(info0, owner0 - {r}, info1, owner1, live, 0);
    ConservedRelease(info0, owner0, info1, owner1, r);
  }

  lemma SubBlocks(info0: map<Addr, Info>, info1: map<Addr, Info>, live: map<Addr, Place>, p: Addr)
    requires SameBlocks(info0, info1, live)
    ensures SameBlocks(info0, info1, live - {p})
  {
  }
}
