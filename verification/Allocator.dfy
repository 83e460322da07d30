/** The allocator: runs from the heap and the free list, bins, large allocations. */
module Allocator {
  import opened Powers
  import opened RbTreeModel
  import opened RunMemory
  import opened RbTree
  import opened RbWalk
  import opened RbRemove
  import opened Bitmap
  import opened SizeClass
  import opened HeapModel
  import opened HeapBlocks
  import opened FreeList

  class Heap {
    const mem: Memory
    /** First byte of the heap, and the byte it cannot grow past. */
    const base: Addr
    const limit: Addr
    /** The bins come first, runs follow. */
    const lo: Addr := base + AlignCustom(BIN_COUNT * 4, 8)
    var brk: Addr
    var roots: map<TreeRef, Addr>
    ghost var trees: map<TreeRef, Tree>
    ghost var owner: map<Addr, TreeRef>
    ghost var live: map<Addr, Place>

    /** Trees and runs are consistent. */
    ghost predicate Core()
      reads this, mem
    {
      && CoreOk(mem.links, mem.info, roots, trees, owner, lo, brk)
      && lo % 8 == 0 && brk % 8 == 0 && 0 < base && lo <= brk <= limit
    }

    /** The free runs and how big they are. */
    ghost function FreeMap(): map<Addr, nat>
      reads this, mem
    {
      FreeSizes(mem.info, owner)
    }

    /** What holds between operations. */
    ghost predicate Valid()
      reads this, mem
    {
      && Core() && KindsOk(mem.info, owner) && BusyBut(mem.info, owner, 0) && LiveOk(mem.info, owner, live)
    }

    constructor (base: Addr, limit: Addr)
      requires 0 < base <= limit && base % 8 == 0
      ensures this.base == base && this.limit == limit && brk == base && fresh(mem)
    {
      this.base, this.limit, brk := base, limit, base;
      mem := new Memory();
      roots, trees, owner, live := map[], map[], map[], map[];
    }

    /** Grows the heap by `size` bytes and returns where they start, or fails. */
    method MemSbrk(size: nat) returns (ok: bool, start: Addr)
      modifies this`brk
      ensures ok <==> old(brk) + size <= limit
      ensures ok ==> start == old(brk) && brk == old(brk) + size
      ensures !ok ==> brk == old(brk)
    {
      ok, start := brk + size <= limit, brk;
      if ok {
        brk := brk + size;
      }
    }

    /** Sets up empty bins, an empty free list and an empty list of large allocations. */
    method Init() returns (failed: bool)
      requires brk == base && 0 < base && base % 8 == 0
      modifies this
      ensures failed <==> limit < lo
      ensures !failed ==> Valid() && live == map[] && owner == map[]
    {
      var ok, start := MemSbrk(AlignCustom(BIN_COUNT * 4, 8));
      if !ok {
        return true;
      }
      roots := map[FreeRuns := 0, LargeAllocations := 0];
      for i := 0 to BIN_COUNT
        invariant forall k :: k in roots <==> k == FreeRuns || k == LargeAllocations || (k.Bin? && k.i < i)
        invariant forall k :: k in roots ==> roots[k] == 0
        invariant brk == lo <= limit
      {
        roots := roots[Bin(i) := 0];
      }
      owner, live := map[], map[];
      trees := map k | k in roots :: Leaf;
      EmptyHeap(mem.links, mem.info, roots, trees, lo, brk);
      failed := false;
    }

    // ----- the trees of runs -----

    /** Puts a run that is in no tree into tree `k`. */
    method InsertRun(k: TreeRef, node: Addr)
      requires Core() && ValidRef(k)
      requires node in mem.links && Detached(mem.info, owner, lo, brk, node)
      modifies this`roots, this`trees, this`owner, mem`links
      ensures Core() && owner == old(owner)[node := k] && mem.links.Keys == old(mem.links.Keys)
    {
      hide CoreOk, Detached, Ordered, IsRedBlack, Focus, InsertedAt, SameOutside;
      InsertReady(mem.links, mem.info, roots, trees, owner, lo, brk, k, node);
      var existing, root;
      ghost var t, pos, rotations;
      existing, root, t, pos, rotations := Insert(mem, node, roots[k], trees[k]);
      InsertDone(old(mem.links), mem.links, mem.info, roots, trees, owner, lo, brk, k, node, root, t, pos);
      roots, trees, owner := roots[k := root], trees[k := t], owner[node := k];
    }

    /** Takes a run out of its tree. */
    method RemoveRun(k: TreeRef, node: Addr)
      requires Core() && ValidRef(k) && node in owner && owner[node] == k
      modifies this`roots, this`trees, this`owner, mem`links
      ensures Core() && owner == old(owner) - {node} && mem.links.Keys == old(mem.links.Keys)
    {
      hide CoreOk, IsRedBlack, Focus, SameOutside;
      ghost var i := RemoveReady(mem.links, mem.info, roots, trees, owner, lo, brk, k, node);
      var root;
      ghost var t;
      root, t := Remove(mem, node, roots[k], trees[k], i);
      RemoveDone(old(mem.links), mem.links, mem.info, roots, trees, owner, lo, brk, k, node, root, t, i);
      roots, trees, owner := roots[k := root], trees[k := t], owner - {node};
    }

    // ----- the free list -----

    method RunInit(slotCount: nat, slotSize: nat, run: Addr)
      modifies mem
      ensures mem.links == old(mem.links)[run := Link(0, 0, 0, Black)]
      ensures mem.info == old(mem.info)[run := Info(slotCount, slotSize, Pow2(slotCount) - 1)]
    {
      mem.links := mem.links[run := Link(0, 0, 0, Black)];
      mem.info := mem.info[run := Info(slotCount, slotSize, Pow2(slotCount) - 1)];
    }

    method SetLargeSize(size: nat, run: Addr)
      requires run in mem.info
      modifies mem`info
      ensures mem.info == old(mem.info)[run := old(mem.info)[run].(word := size)]
    {
      mem.info := mem.info[run := mem.info[run].(word := size)];
    }

    /** Makes `run` a run without slots of the given size. */
    method MakeRun(run: Addr, size: nat)
      modifies mem
      ensures mem.links == old(mem.links)[run := Link(0, 0, 0, Black)]
      ensures mem.info == Sized(old(mem.info), run, size)
    {
      RunInit(0, 0, run);
      SetLargeSize(size, run);
    }

    /** The run of tree `k` that contains `key`, or null. */
    method LookupRun(k: TreeRef, key: Addr) returns (run: Addr)
      requires Core() && ValidRef(k)
      ensures run != 0 ==> run in owner && owner[run] == k && Covers(mem.info, run, key)
      ensures run == 0 ==> forall r :: r in owner && owner[r] == k ==> !Covers(mem.info, r, key)
    {
      ghost var steps;
      LookupReady(mem.links, mem.info, roots, trees, owner, lo, brk, k);
      run, steps := Lookup(mem, key, roots[k], trees[k]);
    }

    /** Puts a run of the given size on the free list. */
    method InsertFree(run: Addr, size: nat)
      requires Core() && run in mem.links && run in mem.info
      requires run !in owner && Detached(Sized(mem.info, run, size), owner, lo, brk, run)
      modifies this`roots, this`trees, this`owner, mem
      ensures Core() && owner == old(owner)[run := FreeRuns] && mem.info == Sized(old(mem.info), run, size)
      ensures mem.links.Keys == old(mem.links.Keys)
    {
      hide CoreOk, Detached;
      ReinitCore(mem.links, mem.info, roots, trees, owner, lo, brk, run, size);
      MakeRun(run, size);
      InsertRun(FreeRuns, run);
    }

    /** Adds a run to the free list, merging it with the free run below it, or else with the one above. */
    method FreeRunAdd(run: Addr)
      requires Core() && KindsOk(mem.info, owner) && run in mem.links && Detached(mem.info, owner, lo, brk, run)
      modifies this`roots, this`trees, this`owner, mem
      ensures Core() && KindsOk(mem.info, owner)
      ensures SameUsedRuns(old(mem.info), old(owner), mem.info, owner)
      ensures FreeBytesGrow(old(mem.info), old(owner), mem.info, owner, run, InfoSize(old(mem.info)[run]))
      ensures Returned(old(FreeMap()), FreeMap(), run, InfoSize(old(mem.info)[run]))
      ensures mem.links.Keys == old(mem.links.Keys) && mem.info.Keys == old(mem.info.Keys)
      ensures forall a :: a in mem.info && a !in old(owner) && a != run ==> mem.info[a] == old(mem.info)[a]
    {
      hide CoreOk, Detached, KindsOk, SameUsedRuns, FreeBytesGrow, Covers, GetRunSize, FreeSizes,
        Returned, RunsOk;
      DetachedFacts(mem.info, owner, lo, brk, run);
      RunsOfCore(mem.links, mem.info, roots, trees, owner, lo, brk);
      var runSize := InfoSize(mem.info[run]);
      var buddy := LookupRun(FreeRuns, run - 1);
      if buddy != 0 {
        MergeBelow(mem.links, mem.info, roots, trees, owner, lo, brk, buddy, run);
        ReturnedBelow(mem.info, owner, lo, brk, buddy, run);
        SetLargeSize(InfoSize(mem.info[buddy]) + runSize, buddy);
        return;
      }
      buddy := LookupRun(FreeRuns, run + runSize + 1);
      if buddy != 0 {
        MergeAbove(mem.links, mem.info, roots, trees, owner, lo, brk, buddy, run);
        ReturnedAbove(mem.info, owner, lo, brk, buddy, run);
        var buddySize := InfoSize(mem.info[buddy]);
        RemoveRun(FreeRuns, buddy);
        InsertFree(run, buddySize + runSize);
        return;
      }
      MergeNone(mem.links, mem.info, roots, trees, owner, lo, brk, run);
      ReturnedAlone(mem.info, owner, lo, brk, run);
      InsertFree(run, runSize);
    }

    // ----- runs from the free list and from the heap -----

    /** Neither the free list nor the end of the heap can provide `size` bytes. */
    ghost predicate NoRoom(size: nat)
      reads this, mem
    {
      brk + size > limit && forall r :: r in owner && owner[r] == FreeRuns && r in mem.info ==> mem.info[r].word < size
    }

    /** Cuts a run that is at least 512 bytes too big and gives the rest back to the free list. */
    method SplitRun(size: nat, run: Addr) returns (runSize: nat)
      requires Core() && KindsOk(mem.info, owner) && Detached(mem.info, owner, lo, brk, run) && run in mem.links
      requires mem.info[run].slotCount == 0 && size % 8 == 0 && RUN_HEADER_SIZE <= size <= mem.info[run].word
      modifies this`roots, this`trees, this`owner, mem
      ensures Core() && KindsOk(mem.info, owner) && Detached(mem.info, owner, lo, brk, run)
      ensures SameUsedRuns(old(mem.info), old(owner), mem.info, owner)
      ensures run in mem.info && mem.info[run].slotCount == 0 && mem.info[run].word == runSize
      ensures size <= runSize < size + 512 && (runSize == size || runSize == old(mem.info)[run].word)
      ensures FreeBytesMove(old(mem.info), old(owner), mem.info, owner, run, run, old(mem.info)[run].word)
      ensures RestReturned(old(FreeMap()), FreeMap(), run, old(mem.info)[run].word, size, runSize)
      ensures old(mem.links.Keys) <= mem.links.Keys
    {
      hide CoreOk, Detached, KindsOk, SameUsedRuns, FreeBytesGrow, FreeBytesMove, FreeSizes, Returned;
      DetachedFacts(mem.info, owner, lo, brk, run);
      SplitNone(mem.info, owner, run);
      runSize := mem.info[run].word;
      if runSize - size >= 512 {
        var newRunSize := runSize - size;
        var newRun := run + runSize - newRunSize;
        SplitReady(mem.links, mem.info, roots, trees, owner, lo, brk, run, size);
        CutKept(mem.info, owner, run, mem.info[run].word, size);
        MakeRun(newRun, newRunSize);
        runSize := runSize - newRunSize;
        MakeRun(run, runSize);
        FreeRunAdd(newRun);
        SplitDone(old(mem.links), old(mem.info), old(roots), old(trees), old(owner), mem.links, mem.info, roots,
          trees, owner, lo, brk, run, size);
      }
    }

    /** The first free run of at least `size` bytes in address order, or null. */
    method FindFit(size: nat) returns (run: Addr)
      requires Core() && roots[FreeRuns] != 0
      ensures run != 0 ==> run in owner && owner[run] == FreeRuns && run in mem.info && mem.info[run].word >= size
      ensures forall r :: r in owner && owner[r] == FreeRuns && r in mem.info && mem.info[r].word >= size ==>
        run != 0 && run <= r
    {
      hide CoreOk, Focus, Inorder, Leftward;
      TreeOrder(mem.links, mem.info, roots, trees, owner, lo, brk, FreeRuns);
      ghost var order, i := Inorder(trees[FreeRuns]), 0;
      ghost var sp, s;
      run, sp, s := First(mem, roots[FreeRuns], roots[FreeRuns], Top, trees[FreeRuns]);
      while run != 0 && mem.info[run].word < size
        invariant 0 <= i <= |order| && run == if i < |order| then order[i] else 0
        invariant forall j :: 0 <= j < i ==> mem.info[order[j]].word < size
        decreases |order| - i
      {
        run := Next(mem, run, roots[FreeRuns], trees[FreeRuns], i);
        i := i + 1;
      }
      forall r | r in owner && owner[r] == FreeRuns && r in mem.info && mem.info[r].word >= size
        ensures run != 0 && run <= r
      {
        var j :| 0 <= j < |order| && order[j] == r;
        assert i <= j;
      }
    }

    /** Takes the lowest free run that fits, split to size. */
    method AllocateFreeRun(size: nat) returns (runSize: nat, run: Addr)
      requires Core() && KindsOk(mem.info, owner) && size % 8 == 0 && RUN_HEADER_SIZE <= size
      modifies this`roots, this`trees, this`owner, mem
      ensures Core() && KindsOk(mem.info, owner) && old(mem.links.Keys) <= mem.links.Keys
      ensures run == 0 ==>
        runSize == 0 && owner == old(owner) && mem.info == old(mem.info) && mem.links == old(mem.links)
      ensures forall r ::
        r in old(owner) && old(owner)[r] == FreeRuns && r in old(mem.info) && old(mem.info)[r].word >= size ==>
          run != 0 && run <= r
      ensures run != 0 ==>
        && run in old(owner) && old(owner)[run] == FreeRuns && run in old(mem.info) && old(mem.info)[run].word >= size
        && Detached(mem.info, owner, lo, brk, run) && run in mem.links
        && run in mem.info && mem.info[run].slotCount == 0 && mem.info[run].word == runSize
          && size <= runSize < size + 512
        && SameUsedRuns(old(mem.info), old(owner), mem.info, owner)
        && FreeBytesMove(old(mem.info), old(owner), mem.info, owner, run, brk, 0)
      ensures if run == 0 then NoFit(old(FreeMap()), size)
        else !NoFit(old(FreeMap()), size) && Provided(old(FreeMap()), brk, FreeMap(), brk, run, size, runSize)
    {
      hide CoreOk, KindsOk, Detached, SameUsedRuns, FreeBytesMove, FreeSizes, FirstFit, NoFit, Returned;
      TreeOrder(mem.links, mem.info, roots, trees, owner, lo, brk, FreeRuns);
      if roots[FreeRuns] != 0 {
        run := FindFit(size);
        FitTaken(mem.info, owner, run, size);
        if run == 0 {
          return 0, 0;
        }
        RemoveRunReady(mem.links, mem.info, roots, trees, owner, lo, brk, run);
        RemoveRun(FreeRuns, run);
        runSize := SplitRun(size, run);
        TakenFromFree(old(mem.info), old(owner), mem.info, owner, run, brk);
        return;
      }
      FitTaken(mem.info, owner, 0, size);
      return 0, 0;
    }

    /** A run of at least `size` bytes from the free list, or else from the end of the heap. */
    method RunAllocate(size: nat) returns (runSize: nat, run: Addr)
      requires Core() && KindsOk(mem.info, owner) && size % 8 == 0 && RUN_HEADER_SIZE <= size
      modifies this`roots, this`trees, this`owner, this`brk, mem
      ensures Core() && KindsOk(mem.info, owner) && old(mem.links.Keys) <= mem.links.Keys
      ensures run == 0 ==>
        owner == old(owner) && mem.info == old(mem.info) && mem.links == old(mem.links) && brk == old(brk)
      ensures run == 0 <==> old(NoRoom(size))
      ensures run != 0 ==>
        && Detached(mem.info, owner, lo, brk, run) && run in mem.links
        && run in mem.info && mem.info[run].slotCount == 0 && mem.info[run].word == runSize
          && size <= runSize < size + 512
        && SameUsedRuns(old(mem.info), old(owner), mem.info, owner)
        && old(brk) <= brk && FreeBytesMove(old(mem.info), old(owner), mem.info, owner, run, old(brk), brk - old(brk))
      ensures run != 0 ==> if brk == old(brk) then run in old(owner) && old(owner)[run] == FreeRuns
                           else brk == old(brk) + size && run == old(brk) && runSize == size
      ensures run != 0 ==> Provided(old(FreeMap()), old(brk), FreeMap(), brk, run, size, runSize)
    {
      hide CoreOk, KindsOk, Detached, SameUsedRuns, FreeBytesMove, FreeSizes, FirstFit, NoFit, RestReturned;
      runSize, run := AllocateFreeRun(size);
      if runSize == 0 {
        var ok, newChunk := MemSbrk(size);
        if !ok {
          return 0, 0;
        }
        Extended(mem.links, mem.info, roots, trees, owner, lo, old(brk), size);
        SizesKept(mem.info, owner, newChunk, Info(0, 0, size));
        MakeRun(newChunk, size);
        return size, newChunk;
      }
    }

    // ----- allocation -----

    /** A new run for bin `i`, all slots free, not yet in a tree. The `lost` bytes at `lostAt` are more than
        it needs. */
    method AllocateBinRun(i: nat) returns (run: Addr, ghost lostAt: Addr, ghost lost: nat)
      requires Valid() && i < BIN_COUNT
      modifies this`roots, this`trees, this`owner, this`brk, mem
      ensures run == 0 <==> old(NoRoom(GetRunSize(BinSlotSize(i))))
      ensures run == 0 ==> owner == old(owner) && mem.info == old(mem.info) && brk == old(brk) && Valid()
      ensures run != 0 ==>
        && Core() && Detached(mem.info, owner, lo, brk, run)
        && run in mem.links && mem.links[run] == Link(0, 0, 0, Black)
        && SlotsFor(BinSlotSize(i)) > 0 && run in mem.info && mem.info[run] == BinHeader(i)
        && KindsOk(mem.info, owner[run := Bin(i)]) && LiveOk(mem.info, owner[run := Bin(i)], live)
        && BusyBut(mem.info, owner[run := Bin(i)], run) && SameBlocks(old(mem.info), mem.info, live)
        && SameUsedRuns(old(mem.info), old(owner), mem.info, owner)
        && lost < 512 && old(brk) <= brk
        && Conserved(old(mem.info), old(owner), mem.info, owner[run := Bin(i)], old(brk), brk - old(brk), lostAt, lost)
        && var size := GetRunSize(BinSlotSize(i));
          Provided(old(FreeMap()), old(brk), FreeMap(), brk, run, size, size + lost)
    {
      hide CoreOk, KindsOk, Detached, SameUsedRuns, FreeBytesMove, LiveOk, BusyBut, Conserved, SameBlocks, NoRoom,
        BinSlotSize, GetBinIndex, SlotsFor, Pow2, FreeSizes, Provided;
      SlotsFit(i);
      var size := BinSlotSize(i);
      var slots := SlotsFor(size);
      var runSize;
      runSize, run := RunAllocate(GetRunSize(size));
      lostAt, lost := 0, 0;
      if run != 0 {
        TreeOrder(mem.links, mem.info, roots, trees, owner, lo, brk, FreeRuns);
        BinRunReady(mem.links, mem.info, roots, trees, owner, lo, brk, run, i);
        BinRunSteps(old(mem.info), old(owner), mem.info, owner, live, lo, brk, run, i, old(brk), brk - old(brk));
        lostAt, lost := run + GetRunSize(size), runSize - GetRunSize(size);
        DetachedFacts(mem.info, owner, lo, brk, run);
        SizesKept(mem.info, owner, run, BinHeader(i));
        RunInit(slots, size, run);
      }
    }

    /** Bin `i` has a run with a free slot. */
    ghost predicate HasOpen(i: nat)
      reads this, mem
    {
      exists r :: r in owner && owner[r] == Bin(i) && r in mem.info && mem.info[r].word != 0
    }

    /** `r` is the first run of bin `i` that has a free slot. */
    ghost predicate FirstOpen(i: nat, r: Addr)
      reads this, mem
    {
      && r in owner && owner[r] == Bin(i) && r in mem.info && mem.info[r].word != 0
      && forall s :: s in owner && owner[s] == Bin(i) && s in mem.info && mem.info[s].word != 0 ==> r <= s
    }

    /** The first run of bin `i` that has a free slot, or null. */
    method GetAvailable(i: nat) returns (run: Addr)
      requires Core() && i < BIN_COUNT && roots[Bin(i)] != 0
      ensures if HasOpen(i) then run != 0 && FirstOpen(i, run) else run == 0
    {
      hide CoreOk, Focus, Inorder, Leftward;
      var k := Bin(i);
      TreeOrder(mem.links, mem.info, roots, trees, owner, lo, brk, k);
      ghost var order, n := Inorder(trees[k]), 0;
      ghost var sp, s;
      run, sp, s := First(mem, roots[k], roots[k], Top, trees[k]);
      while run != 0 && mem.info[run].word == 0
        invariant 0 <= n <= |order| && run == if n < |order| then order[n] else 0
        invariant forall j :: 0 <= j < n ==> mem.info[order[j]].word == 0
        decreases |order| - n
      {
        run := Next(mem, run, roots[k], trees[k], n);
        n := n + 1;
      }
      forall r | r in owner && owner[r] == k && r in mem.info && mem.info[r].word != 0
        ensures run != 0 && run <= r
      {
        var j :| 0 <= j < |order| && order[j] == r;
        assert n <= j;
      }
    }

    /** Everything that holds between operations, except that the bin run `but` may hold no block. */
    ghost predicate ValidBut(but: Addr)
      reads this, mem
    {
      && Core() && KindsOk(mem.info, owner) && BusyBut(mem.info, owner, but) && LiveOk(mem.info, owner, live)
    }

    /** What a new run for bin `i` does: it comes from the lowest free run that fits, or else from the end of the
        heap, and the runs in use before stay as they were. */
    twostate predicate RunGained(i: nat, run: Addr, lost: nat)
      requires i < BIN_COUNT
      reads this, mem
    {
      && run in owner && owner[run] == Bin(i) && !(run in old(owner) && old(owner)[run] != FreeRuns)
      && SameUsedRuns(old(mem.info), old(owner), mem.info, owner - {run})
      && var size := GetRunSize(BinSlotSize(i));
        Provided(old(FreeMap()), old(brk), FreeMap(), brk, run, size, size + lost)
    }

    /** Makes a new run the root of the empty bin `i`, or puts it into the tree of bin `i`. */
    method AddBinRun(i: nat) returns (run: Addr, ghost lostAt: Addr, ghost lost: nat)
      requires Valid() && i < BIN_COUNT
      modifies this`roots, this`trees, this`owner, this`brk, mem
      ensures run == 0 <==> old(NoRoom(GetRunSize(BinSlotSize(i))))
      ensures run == 0 ==> owner == old(owner) && mem.info == old(mem.info) && brk == old(brk) && Valid()
      ensures run != 0 ==>
        && ValidBut(run) && SameBlocks(old(mem.info), mem.info, live)
        && run in owner && owner[run] == Bin(i) && run in mem.info && mem.info[run].word != 0
        && lost < 512 && old(brk) <= brk && roots[Bin(i)] != 0
        && Conserved(old(mem.info), old(owner), mem.info, owner, old(brk), brk - old(brk), lostAt, lost)
        && SlotsFor(BinSlotSize(i)) > 0 && mem.info[run] == BinHeader(i) && RunGained(i, run, lost)
      ensures run != 0 && old(roots[Bin(i)]) == 0 ==> forall r :: r in owner && owner[r] == Bin(i) ==> r == run
    {
      hide CoreOk, KindsOk, Detached, LiveOk, BusyBut, Conserved, SameBlocks, SameUsedRuns, FreeSizes, Provided,
        BinHeader,
        SlotsFor, BinSlotSize, GetRunSize;
      TreeOrder(mem.links, mem.info, roots, trees, owner, lo, brk, Bin(i));
      var empty := roots[Bin(i)] == 0;
      run, lostAt, lost := AllocateBinRun(i);
      if run != 0 {
        DetachedFacts(mem.info, owner, lo, brk, run);
        GainedRun(old(mem.info), old(owner), mem.info, owner, run, Bin(i));
        HeaderOpen(i);
        if empty {
          EmptyBinStays(old(mem.info), old(owner), mem.links, mem.info, roots, trees, owner, lo, brk, Bin(i));
          FirstRunDone(mem.links, mem.info, roots, trees, owner, lo, brk, Bin(i), run);
          roots, trees, owner := roots[Bin(i) := run], trees[Bin(i) := Node(Leaf, run, Black, Leaf)],
            owner[run := Bin(i)];
        } else {
          InsertRun(Bin(i), run);
          TreeOrder(mem.links, mem.info, roots, trees, owner, lo, brk, Bin(i));
        }
      }
    }

    method ToggleSlot(slot: nat, run: Addr)
      requires run in mem.info
      modifies mem`info
      ensures mem.info == Toggled(old(mem.info), run, slot)
    {
      mem.info := mem.info[run := mem.info[run].(word := Toggle(mem.info[run].word, slot))];
    }

    /** Hands out the highest free slot of `run`. */
    method TakeSlot(i: nat, run: Addr, ghost but: Addr) returns (p: Addr)
      requires ValidBut(but) && (but == run || but !in owner) && i < BIN_COUNT
      requires run in owner && owner[run] == Bin(i) && run in mem.info && mem.info[run].word != 0
      modifies this`live, mem`info
      ensures Valid() && p != 0 && p !in old(live) && p % 8 == 0
      ensures p in live && live == old(live)[p := live[p]] && live[p].run in mem.info
      ensures Capacity(mem.info, live[p]) == BinSlotSize(i)
      ensures SameBlocks(old(mem.info), mem.info, old(live))
      ensures Conserved(old(mem.info), owner, mem.info, owner, 0, 0, 0, 0)
      ensures live[p].run == run && HighestBit(old(mem.info)[run].word, live[p].slot)
      ensures mem.info == Toggled(old(mem.info), run, live[p].slot)
    {
      hide CoreOk, KindsOk, LiveOk, BusyBut, Conserved, SameBlocks;
      var slot := FirstFree(mem.info[run].word);
      // The source reports an error when no slot is free; a run that is not full has one.
      assert slot >= 0;
      TakeStep(mem.links, mem.info, roots, trees, owner, live, lo, brk, run, slot, i, but);
      ToggleSlot(slot, run);
      p := SlotAddress(run, mem.info[run].slotSize, slot);
      live := live[p := Place(run, slot)];
    }

    /** No memory for a request of `size` bytes. */
    ghost predicate OutOfMemory(size: nat)
      requires size > 0
      reads this, mem
    {
      var s := AlignCustom(size, GetAlignment(size));
      var i := GetBinIndex(s);
      if i >= 0 then !HasOpen(i) && NoRoom(GetRunSize(s)) else NoRoom(LargeRequest(s))
    }

    /** What an allocation of at least `size` bytes does: `p` is a new block, all others stay as they were,
        and the tracked bytes grow by what the heap grew, less the `lost` bytes at `lostAt`. */
    twostate predicate Allocated(size: nat, p: Addr, lostAt: Addr, lost: nat)
      reads this, mem
    {
      && p != 0 && p !in old(live) && p % 8 == 0
      && p in live && live == old(live)[p := live[p]] && live[p].run in mem.info
      && Capacity(mem.info, live[p]) >= size
      && SameBlocks(old(mem.info), mem.info, old(live))
      && lost < 512 && old(brk) <= brk
      && Conserved(old(mem.info), old(owner), mem.info, owner, old(brk), brk - old(brk), lostAt, lost)
    }

    /** How many bytes a request really gets at the least: none once its size has wrapped around. */
    function Promised(size: nat): nat {
      if size <= WORD - 32 then size else 0
    }

    /** What taking a free slot of a run does: the first run of bin `i` that has one gives its highest free slot, and
        nothing else changes. */
    twostate predicate SlotReused(i: nat, p: Addr)
      reads this, mem
    {
      p in live && var Place(run, slot) := live[p];
      && old(FirstOpen(i, run)) && owner == old(owner) && brk == old(brk)
      && HighestBit(old(mem.info)[run].word, slot) && mem.info == Toggled(old(mem.info), run, slot)
    }

    /** What setting up a new run for bin `i` does: the block is its last slot. */
    twostate predicate SlotOfNewRun(i: nat, p: Addr, lost: nat)
      requires i < BIN_COUNT
      reads this, mem
    {
      p in live && var Place(run, slot) := live[p];
      && RunGained(i, run, lost) && slot + 1 == SlotsFor(BinSlotSize(i))
      && run in mem.info && mem.info[run] == BinHeader(i).(word := Toggle(BinHeader(i).word, slot))
    }

    /** A run of bin `i` with a free slot: the first that has one, or else a new run. */
    method OpenRun(i: nat) returns (run: Addr, ghost lostAt: Addr, ghost lost: nat)
      requires Valid() && i < BIN_COUNT
      modifies this`roots, this`trees, this`owner, this`brk, mem
      ensures run == 0 <==> !old(HasOpen(i)) && old(NoRoom(GetRunSize(BinSlotSize(i))))
      ensures run == 0 ==> Valid() && owner == old(owner) && mem.info == old(mem.info) && brk == old(brk)
      ensures old(HasOpen(i)) ==>
        Valid() && old(FirstOpen(i, run)) && owner == old(owner) && mem.info == old(mem.info) && brk == old(brk)
      ensures run != 0 ==>
        && run in owner && owner[run] == Bin(i) && run in mem.info && mem.info[run].word != 0
        && SameBlocks(old(mem.info), mem.info, live) && lost < 512 && old(brk) <= brk
        && Conserved(old(mem.info), old(owner), mem.info, owner, old(brk), brk - old(brk), lostAt, lost)
      ensures run != 0 && !old(HasOpen(i)) ==>
        ValidBut(run) && SlotsFor(BinSlotSize(i)) > 0 && mem.info[run] == BinHeader(i) && RunGained(i, run, lost)
    {
      hide CoreOk, KindsOk, LiveOk, BusyBut, Conserved, SameBlocks, SameUsedRuns, FreeSizes, Provided, BinHeader,
        SlotsFor, BinSlotSize, GetRunSize, NoRoom;
      TreeOrder(mem.links, mem.info, roots, trees, owner, lo, brk, Bin(i));
      Unchanged(mem.info, owner, live, brk);
      run, lostAt, lost := 0, 0, 0;
      if roots[Bin(i)] == 0 {
        run, lostAt, lost := AddBinRun(i);
        if run == 0 {
          return 0, 0, 0;
        }
        assert HasOpen(i);
      }
      var available := GetAvailable(i);
      if available == 0 {
        available, lostAt, lost := AddBinRun(i);
      } else {
        assert old(roots[Bin(i)]) == 0 ==> available == run;
      }
      run := available;
    }

    /** A block of bin `i`: a slot of a run that has one, and a new run only when none does. */
    method MallocSmall(i: nat) returns (p: Addr, ghost lostAt: Addr, ghost lost: nat)
      requires Valid() && i < BIN_COUNT
      modifies this, mem
      ensures Valid()
      ensures p == 0 <==> old(!HasOpen(i) && NoRoom(GetRunSize(BinSlotSize(i))))
      ensures p == 0 ==> live == old(live) && owner == old(owner) && mem.info == old(mem.info) && brk == old(brk)
      ensures p != 0 ==> Allocated(BinSlotSize(i), p, lostAt, lost)
      ensures p != 0 ==> if old(HasOpen(i)) then SlotReused(i, p) else SlotOfNewRun(i, p, lost)
    {
      hide CoreOk, KindsOk, LiveOk, BusyBut, Conserved, SameBlocks, SlotsFor, BinSlotSize, GetRunSize, NoRoom, HasOpen,
        FirstOpen, SameUsedRuns, FreeSizes, Provided, HighestBit, Pow2, Toggle;
      var run;
      run, lostAt, lost := OpenRun(i);
      if run == 0 {
        return 0, 0, 0;
      }
      ghost var info1, owner1 := mem.info, owner;
      ghost var but := if old(HasOpen(i)) then 0 else run;
      TreeOrder(mem.links, mem.info, roots, trees, owner, lo, brk, Bin(i));
      p := TakeSlot(i, run, but);
      ConservedThen(old(mem.info), old(owner), info1, owner1, mem.info, owner, old(brk), brk - old(brk), lostAt, lost);
      SameBlocksThen(old(mem.info), info1, mem.info, old(live));
      if !old(HasOpen(i)) {
        assert mem.info == info1[run := mem.info[run]];
        GainedThen(old(mem.info), old(owner), info1, owner, run, mem.info[run]);
        SlotsFit(i);
        HighestOfAll(SlotsFor(BinSlotSize(i)), live[p].slot);
      }
    }

    /** What a large allocation does: its run comes from the lowest free run that fits, or else from the end of the
        heap, and the runs in use before stay as they were. */
    twostate predicate LargeGained(size: nat, p: Addr)
      reads this, mem
    {
      p in live && var run := live[p].run;
      && run in owner && owner[run] == LargeAllocations && !(run in old(owner) && old(owner)[run] != FreeRuns)
      && SameUsedRuns(old(mem.info), old(owner), mem.info, owner - {run})
      && run in mem.info && Provided(old(FreeMap()), old(brk), FreeMap(), brk, run, size, mem.info[run].word)
    }

    /** A run for a request that no bin serves. Up to 2^32 - 32 bytes its block is big enough; from 2^32 - 7 on the
        size of the run has wrapped around to that of a header, and the block is too small. */
    method MallocLarge(size: nat) returns (p: Addr)
      requires Valid() && 256 <= size < WORD && RUN_HEADER_SIZE <= LargeRequest(size)
      modifies this, mem
      ensures Valid()
      ensures p == 0 <==> old(NoRoom(LargeRequest(size)))
      ensures p == 0 ==> live == old(live) && owner == old(owner) && mem.info == old(mem.info) && brk == old(brk)
      ensures p != 0 ==> Allocated(Promised(size), p, 0, 0)
      ensures p != 0 ==> LargeGained(LargeRequest(size), p)
      ensures p != 0 && size > WORD - 32 ==> Capacity(mem.info, live[p]) < 512 < size
    {
      hide CoreOk, KindsOk, Detached, LiveOk, BusyBut, Conserved, SameBlocks, SameUsedRuns, FreeBytesMove, FreeSizes,
        Provided;
      LargeRequestHolds(size);
      var chunkSize, chunk := RunAllocate(LargeRequest(size));
      if chunk == 0 {
        return 0;
      }
      LargeSteps(mem.links, roots, trees, old(mem.info), old(owner), mem.info, owner, live, lo, brk,
                 chunk, chunkSize, old(brk), brk - old(brk));
      DetachedFacts(mem.info, owner, lo, brk, chunk);
      GainedRun(old(mem.info), old(owner), mem.info, owner, chunk, LargeAllocations);
      GainedThen(old(mem.info), old(owner), mem.info, owner[chunk := LargeAllocations], chunk, Info(0, 0, chunkSize));
      MakeRun(chunk, chunkSize);
      InsertRun(LargeAllocations, chunk);
      p := chunk + RUN_HEADER_SIZE;
      live := live[p := Place(chunk, 0)];
    }

    /** Where a block for a request of `size` bytes comes from: a free slot of the bin's runs if there is one, else a
        new run for the bin; a run of its own when no bin serves that size. */
    twostate predicate Chosen(size: nat, p: Addr, lost: nat)
      requires size > 0
      reads this, mem
    {
      RoundedRequest(size);
      var s := AlignCustom(size, GetAlignment(size));
      var i := GetBinIndex(s);
      if i < 0 then LargeGained(LargeRequest(s), p)
      else if old(HasOpen(i)) then SlotReused(i, p)
      else SlotOfNewRun(i, p, lost)
    }

    /** Allocates at least `size` bytes; null for a request of 0 bytes or when memory runs out. From 2^32 - 7
        bytes on what it allocates is too small. */
    method Malloc(size: nat) returns (p: Addr, ghost lostAt: Addr, ghost lost: nat)
      requires Valid() && size < WORD && (size <= WORD - 32 || RUN_HEADER_SIZE <= LargeRequest(size))
      modifies this, mem
      ensures Valid()
      ensures p == 0 <==> size == 0 || old(OutOfMemory(size))
      ensures p == 0 ==> live == old(live) && owner == old(owner) && mem.info == old(mem.info) && brk == old(brk)
      ensures p != 0 ==> Allocated(Promised(size), p, lostAt, lost)
      ensures p != 0 ==> Chosen(size, p, lost)
      ensures p != 0 && size > WORD - 32 ==> Capacity(mem.info, live[p]) < 512 < size
      ensures p != 0 && size > 192 ==> lost == 0
    {
      hide CoreOk, KindsOk, LiveOk, BusyBut, Conserved, SameBlocks, HasOpen, SlotReused, SlotOfNewRun, LargeGained,
        NoRoom;
      lostAt, lost := 0, 0;
      if size == 0 {
        return 0, 0, 0;
      }
      RoundedRequest(size);
      LargeRequestHolds(size);
      var size' := AlignCustom(size, GetAlignment(size));
      var binIndex := GetBinIndex(size');
      if binIndex >= 0 {
        p, lostAt, lost := MallocSmall(binIndex);
      } else {
        p := MallocLarge(size');
      }
    }

    // ----- release -----

    /** The run outside the free list that contains `p`, and the tree that tracks it; null when there is none. */
    method FindNodeTree(p: Addr) returns (run: Addr, tree: TreeRef)
      requires Core()
      ensures run != 0 ==> run in owner && owner[run] == tree && tree != FreeRuns && Covers(mem.info, run, p)
      ensures run == 0 ==> forall r :: r in owner && owner[r] != FreeRuns ==> !Covers(mem.info, r, p)
    {
      hide CoreOk;
      for i := 0 to BIN_COUNT
        invariant forall r :: r in owner && owner[r].Bin? && owner[r].i < i ==> !Covers(mem.info, r, p)
      {
        TreeOrder(mem.links, mem.info, roots, trees, owner, lo, brk, Bin(i));
        if roots[Bin(i)] != 0 {
          run := LookupRun(Bin(i), p);
          if run != 0 {
            return run, Bin(i);
          }
        }
      }
      TreeOrder(mem.links, mem.info, roots, trees, owner, lo, brk, LargeAllocations);
      if roots[LargeAllocations] != 0 {
        run := LookupRun(LargeAllocations, p);
        if run != 0 {
          return run, LargeAllocations;
        }
      }
      OwnersValid(mem.links, mem.info, roots, trees, owner, lo, brk);
      return 0, LargeAllocations;
    }

    /** Says whether all slots of a bin run are free, that is, whether no live block lies in it. */
    method IsEmpty(run: Addr) returns (empty: bool)
      requires KindsOk(mem.info, owner) && LiveOk(mem.info, owner, live) && run in owner && owner[run].Bin?
      ensures run in mem.info && (empty <==> AllSet(mem.info[run].word, mem.info[run].slotCount))
      ensures empty <==> forall p :: p in live ==> live[p].run != run
    {
      hide KindsOk, LiveOk, Pow2, Bit;
      EmptyRun(mem.info, owner, live, run);
      AllSetIff(mem.info[run].word, mem.info[run].slotCount);
      empty := mem.info[run].word == Pow2(mem.info[run].slotCount) - 1;
    }

    /** What giving back a whole run does: its bytes join the free list, next to what touches them, and all other
        runs in use stay as they were. */
    twostate predicate RunReleased(run: Addr)
      reads this, mem
    {
      && run in old(mem.info) && Returned(old(FreeMap()), FreeMap(), run, old(InfoSize(mem.info[run])))
      && SameUsedRuns(old(mem.info), old(owner) - {run}, mem.info, owner)
    }

    /** Moves a run that holds no live block to the free list. */
    method ReleaseRun(tree: TreeRef, run: Addr)
      requires Core() && KindsOk(mem.info, owner) && run in owner && owner[run] == tree && tree != FreeRuns
        && ValidRef(tree)
      requires LiveOk(mem.info, owner - {run}, live) && BusyBut(mem.info, owner - {run}, 0)
      modifies this`roots, this`trees, this`owner, mem
      ensures Valid() && SameBlocks(old(mem.info), mem.info, live)
      ensures Conserved(old(mem.info), old(owner), mem.info, owner, 0, 0, 0, 0)
      ensures forall x: Addr :: old(Covers(mem.info, run, x)) ==> FreeByte(mem.info, owner, x)
      ensures RunReleased(run)
    {
      hide CoreOk, KindsOk, Detached, LiveOk, BusyBut, Conserved, SameBlocks, SameUsedRuns, FreeSizes, Returned;
      FreeWithout(mem.info, owner, run);
      RemoveRunReady(mem.links, mem.info, roots, trees, owner, lo, brk, run);
      RemoveRun(tree, run);
      FreeRunAdd(run);
      GoneStep(old(mem.info), old(owner), mem.info, owner, live, run);
    }

    /** What taking back the block `at` does: its slot is free again as long as its run holds another block; else the
        run goes back. */
    twostate predicate BlockReleased(at: Place)
      reads this, mem
    {
      && at.run in old(owner) && at.run in old(mem.info)
      && if old(owner)[at.run].Bin? && exists q :: q in live && live[q].run == at.run
         then owner == old(owner) && mem.info == Toggled(old(mem.info), at.run, at.slot)
         else RunReleased(at.run)
    }

    /** Takes back the slot at `p` of the bin run `run`, and the run itself when that was its last block. */
    method FreeSlot(p: Addr, run: Addr, i: nat)
      requires Valid() && p in live && live[p].run == run && run in owner && owner[run] == Bin(i) && run in mem.info
        && i < BIN_COUNT
      modifies this, mem
      ensures Valid() && live == old(live) - {p} && brk == old(brk)
      ensures SameBlocks(old(mem.info), mem.info, live)
      ensures Conserved(old(mem.info), old(owner), mem.info, owner, 0, 0, 0, 0)
      ensures BlockReleased(old(live[p]))
    {
      hide CoreOk, KindsOk, LiveOk, BusyBut, Conserved, SameBlocks, SameUsedRuns, FreeSizes, Returned, AllSet,
        Toggle, Pow2;
      ReleaseStep(mem.links, mem.info, roots, trees, owner, live, lo, brk, p, run, i);
      var pos := run + InfoSize(mem.info[run]) - p;
      ToggleSlot(pos / mem.info[run].slotSize - 1, run);
      live := live - {p};
      ghost var info1, owner1 := mem.info, owner;
      var empty := IsEmpty(run);
      EmptyRun(mem.info, owner, live, run);
      AllSetIff(mem.info[run].word, mem.info[run].slotCount);
      if empty {
        LiveEmptyRun(mem.info, owner, live, run);
        ReleaseRun(Bin(i), run);
        ReleasedThen(old(mem.info), old(owner), info1, mem.info, owner, run, old(live[p]).slot);
        ConservedThen(old(mem.info), old(owner), info1, owner1, mem.info, owner, 0, 0, 0, 0);
        SameBlocksThen(old(mem.info), info1, mem.info, live);
      }
    }

    /** `p` is a live block with room for something. */
    ghost predicate Holds(p: Addr)
      reads this, mem
    {
      p in live && live[p].run in mem.info && Capacity(mem.info, live[p]) > 0
    }

    /** Takes back the block at `p`; does nothing when no run in use contains `p`, which goes for empty blocks too. */
    method Free(p: Addr)
      requires Valid()
      requires Holds(p) || forall r :: r in owner && owner[r] != FreeRuns ==> !Covers(mem.info, r, p)
      modifies this, mem
      ensures Valid() && live == (if old(Holds(p)) then old(live) - {p} else old(live)) && brk == old(brk)
      ensures !old(Holds(p)) ==> owner == old(owner) && mem.info == old(mem.info)
      ensures old(Holds(p)) ==> BlockReleased(old(live[p]))
      ensures SameBlocks(old(mem.info), mem.info, live)
      ensures Conserved(old(mem.info), old(owner), mem.info, owner, 0, 0, 0, 0)
    {
      hide CoreOk, KindsOk, LiveOk, BusyBut, Conserved, SameBlocks, SameUsedRuns, FreeSizes, Returned;
      Unchanged(mem.info, owner, live, 0);
      SubBlocks(mem.info, mem.info, live, p);
      LiveRun(mem.links, mem.info, roots, trees, owner, live, lo, brk, p);
      var run: Addr, tree := FindNodeTree(p);
      if run == 0 {
        // The source reports an invalid pointer.
        return;
      }
      if tree != LargeAllocations {
        FreeSlot(p, run, tree.i);
      } else {
        LiveDropLarge(mem.info, owner, live, p);
        live := live - {p};
        ReleaseRun(tree, run);
      }
    }

    /** Once every block has been freed, all bins and the list of large allocations are empty. */
    lemma AllFreedEmpties()
      requires Valid() && live == map[]
      ensures forall k :: ValidRef(k) && k != FreeRuns ==> k in roots && roots[k] == 0
    {
      TreeOrder(mem.links, mem.info, roots, trees, owner, lo, brk, FreeRuns);
      AllFreed(mem.info, owner, live);
      forall k | ValidRef(k) && k != FreeRuns ensures k in roots && roots[k] == 0 {
        TreeOrder(mem.links, mem.info, roots, trees, owner, lo, brk, k);
      }
    }

    /** Live blocks are aligned, inside the heap, pairwise disjoint, and overlap neither headers nor free runs. */
    lemma BlocksApart(p: Addr)
      requires Valid() && p in live
      ensures p % 8 == 0 && lo <= p && live[p].run in mem.info && p + Capacity(mem.info, live[p]) <= brk
      ensures forall q :: q in live && q != p ==>
        live[q].run in mem.info && (p + Capacity(mem.info, live[p]) <= q || q + Capacity(mem.info, live[q]) <= p)
      ensures forall r :: r in owner ==> p + Capacity(mem.info, live[p]) <= r || r + RUN_HEADER_SIZE <= p
      ensures forall r :: r in owner && owner[r] == FreeRuns ==>
        r in mem.info && (p + Capacity(mem.info, live[p]) <= r || r + InfoSize(mem.info[r]) <= p)
    {
      LiveBlocksApart(mem.info, owner, live, lo, brk, p);
    }
  }

  // ----- memory that comes back is used again -----

  /** No other live block lies in the run of `p`. */
  ghost predicate Alone(h: Heap, p: Addr)
    reads h
  {
    p in h.live && forall q :: q in h.live && h.live[q].run == h.live[p].run ==> q == p
  }

  /** Two blocks that fill neighbouring runs are freed, the lower one first; then a request that fits into both runs
      together is served, and the heap does not grow. */
  method FreeNeighbours(h: Heap, p: Addr, q: Addr, size: nat) returns (r: Addr)
    requires h.Valid() && h.Holds(p) && h.Holds(q) && Alone(h, p) && Alone(h, q) && p != q
    requires h.live[q].run == h.live[p].run + InfoSize(h.mem.info[h.live[p].run])
    requires 192 < size <= WORD - 32
    requires var n := InfoSize(h.mem.info[h.live[p].run]) + InfoSize(h.mem.info[h.live[q].run]);
      LargeRequest(AlignCustom(size, GetAlignment(size))) <= n
    modifies h, h.mem
    ensures h.Valid() && r != 0 && h.brk == old(h.brk)
  {
    hide CoreOk, KindsOk, LiveOk, BusyBut, Conserved, SameBlocks, SameUsedRuns, FreeSizes, Returned, FirstFit, NoFit,
      RestReturned, Contained, Capacity, InfoSize, AlignCustom, GetAlignment, LargeRequest;
    ghost var a, b := h.live[p].run, h.live[q].run;
    ghost var n, m := InfoSize(h.mem.info[a]), InfoSize(h.mem.info[b]);
    ghost var f0, info0, owner0 := h.FreeMap(), h.mem.info, h.owner;
    OnlyUsed(info0, owner0, h.live, p, q);
    h.Free(p);
    ghost var f1 := h.FreeMap();
    StillUsed(info0, owner0, h.mem.info, h.owner, h.live, q, a);
    h.Free(q);
    LowerFirst(f0, f1, h.FreeMap(), a, n, m);
    RoundedRequest(size);
    var s := AlignCustom(size, GetAlignment(size));
    ContainedServes(h.FreeMap(), a, n + m, LargeRequest(s));
    RoomThere(h.mem.info, h.owner, LargeRequest(s));
    ghost var lostAt, lost;
    r, lostAt, lost := h.Malloc(size);
  }

  // ----- whole runs of the allocator -----

  /** A request of a client: allocate, or free what the `k`-th request returned. */
  datatype Request = Allocate(size: nat) | Release(k: nat)

  predicate ValidRequest(r: Request) {
    r.Allocate? ==> r.size <= WORD - 32
  }

  /** The request that allocated block `i` is not followed by its release. */
  predicate Kept(requests: seq<Request>, i: nat, n: nat) {
    forall j :: i < j < n && j < |requests| ==> !(requests[j].Release? && requests[j].k == i)
  }

  /** Every block the client holds came from the request `held` says, and has room for what that asked for. */
  ghost predicate Served(h: Heap, requests: seq<Request>, results: seq<Addr>, held: map<Addr, nat>)
    reads h, h.mem
  {
    && held.Keys == h.live.Keys
    && forall p :: p in held ==>
      && held[p] < |results| <= |requests| && results[held[p]] == p && requests[held[p]].Allocate?
      && h.live[p].run in h.mem.info && Capacity(h.mem.info, h.live[p]) >= requests[held[p]].size > 0
  }

  /** Every allocation that succeeded and was not released is held. */
  predicate Holding(requests: seq<Request>, results: seq<Addr>, held: map<Addr, nat>) {
    && |results| <= |requests|
    && forall i :: 0 <= i < |results| && requests[i].Allocate? && results[i] != 0 && Kept(requests, i, |results|) ==>
      results[i] in held && held[results[i]] == i
  }

  method ServeAllocate(h: Heap, requests: seq<Request>, results: seq<Addr>, held: map<Addr, nat>)
    returns (p: Addr, held': map<Addr, nat>)
    requires h.Valid() && Served(h, requests, results, held) && Holding(requests, results, held)
    requires |results| < |requests| && requests[|results|].Allocate? && ValidRequest(requests[|results|])
    modifies h, h.mem
    ensures h.Valid() && Served(h, requests, results + [p], held') && Holding(requests, results + [p], held')
  {
    hide CoreOk, KindsOk, LiveOk, BusyBut, Capacity, Conserved, Heap.Chosen, Heap.OutOfMemory;
    ghost var lostAt, lost;
    p, lostAt, lost := h.Malloc(requests[|results|].size);
    held' := if p == 0 then held else held[p := |results|];
    KeptBefore(requests, |results|);
  }

  method ServeRelease(h: Heap, requests: seq<Request>, results: seq<Addr>, held: map<Addr, nat>)
    returns (held': map<Addr, nat>)
    requires h.Valid() && Served(h, requests, results, held) && Holding(requests, results, held)
    requires |results| < |requests| && requests[|results|].Release?
    modifies h, h.mem
    ensures h.Valid() && Served(h, requests, results + [0], held') && Holding(requests, results + [0], held')
  {
    hide CoreOk, KindsOk, LiveOk, BusyBut, Capacity, Conserved, Heap.BlockReleased;
    held' := held;
    var k := requests[|results|].k;
    if k < |results| && results[k] in held && held[results[k]] == k {
      h.Free(results[k]);
      held' := held - {results[k]};
    }
    KeptBefore(requests, |results|);
  }

  lemma KeptBefore(requests: seq<Request>, n: nat)
    requires n < |requests|
    ensures forall i: nat :: Kept(requests, i, n + 1) ==>
      Kept(requests, i, n) && (i < n ==> !(requests[n].Release? && requests[n].k == i))
  {
  }

  /** Serves any sequence of allocations and of releases of blocks that are still live, from a fresh heap.
      In the end, as at every moment before, the heap is valid; every block that was allocated and not released
      is live, has an address of its own, and is at least as big as requested; and a client that frees everything
      leaves empty bins. */
  method Serve(h: Heap, requests: seq<Request>) returns (results: seq<Addr>, held: map<Addr, nat>)
    requires h.Valid() && h.live == map[]
    requires forall i :: 0 <= i < |requests| ==> ValidRequest(requests[i])
    modifies h, h.mem
    ensures h.Valid() && |results| == |requests|
    ensures Served(h, requests, results, held)
    ensures Holding(requests, results, held)
    ensures h.live == map[] ==> forall k :: ValidRef(k) && k != FreeRuns ==> k in h.roots && h.roots[k] == 0
  {
    hide CoreOk, KindsOk, LiveOk, BusyBut, Served, Holding;
    results, held := [], map[];
    NothingServed(h, requests);
    for n := 0 to |requests|
      invariant h.Valid() && |results| == n
      invariant Served(h, requests, results, held) && Holding(requests, results, held)
    {
      if requests[n].Allocate? {
        var p;
        p, held := ServeAllocate(h, requests, results, held);
        results := results + [p];
      } else {
        held := ServeRelease(h, requests, results, held);
        results := results + [0];
      }
    }
    if h.live == map[] {
      h.AllFreedEmpties();
    }
  }

  lemma NothingServed(h: Heap, requests: seq<Request>)
    requires h.live == map[]
    ensures Served(h, requests, [], map[]) && Holding(requests, [], map[])
  {
  }
}
