/** The free list as sizes by address: what giving a run back and taking one out do to it. */
module FreeList {
  import opened RbTreeModel
  import opened RunMemory
  import opened RbTree
  import opened SizeClass
  import opened HeapModel
  import opened HeapBlocks

  /** The free runs and how big they are. */
  ghost function FreeSizes(info: map<Addr, Info>, owner: map<Addr, TreeRef>): map<Addr, nat> {
    map r | r in owner && owner[r] == FreeRuns && r in info :: InfoSize(info[r])
  }

  /** The `n` bytes at `r` come back: a free run that ends there grows by them; else they swallow the free run that
      begins behind them; else they become a free run of their own. */
  ghost predicate Returned(f: map<Addr, nat>, f': map<Addr, nat>, r: Addr, n: nat) {
    && (forall b :: b in f && b + f[b] == r ==> f' == f[b := f[b] + n])
    && ((forall b :: b in f ==> b + f[b] != r) ==>
          f' == if r + n in f then (f - {r + n})[r := n + f[r + n]] else f[r := n])
  }

  /** The lowest free run of at least `size` bytes. */
  ghost predicate FirstFit(f: map<Addr, nat>, size: nat, r: Addr) {
    r in f && f[r] >= size && forall s :: s in f && f[s] >= size ==> r <= s
  }

  ghost predicate NoFit(f: map<Addr, nat>, size: nat) {
    forall r :: r in f ==> f[r] < size
  }

  /** What is left of a run of `n` bytes once `size` of them are taken: 512 bytes or more go back, fewer stay. */
  ghost predicate RestReturned(f: map<Addr, nat>, f': map<Addr, nat>, r: Addr, n: nat, size: nat, taken: nat)
    requires size <= n
  {
    if n - size >= 512 then taken == size && Returned(f, f', r + size, n - size) else taken == n && f' == f
  }

  /** A run of `taken` bytes at `r` for a request of `size`: from the lowest free run that fits, and only when there
      is none from the end of the heap. */
  ghost predicate Provided(f: map<Addr, nat>, end: Addr, f': map<Addr, nat>, end': Addr, r: Addr, size: nat,
        taken: nat) {
    if NoFit(f, size) then r == end && taken == size && end' == end + size && f' == f
    else FirstFit(f, size, r) && end' == end && RestReturned(f - {r}, f', r, f[r], size, taken)
  }

  // ----- the state of the allocator -----

  /** Headers of other runs do not matter. */
  lemma SameFree(info0: map<Addr, Info>, owner0: map<Addr, TreeRef>, info1: map<Addr, Info>,
        owner1: map<Addr, TreeRef>)
    requires forall r :: r in owner0 && owner0[r] == FreeRuns <==> r in owner1 && owner1[r] == FreeRuns
    requires forall r :: r in owner0 && owner0[r] == FreeRuns ==> r in info0 && r in info1 && info0[r] == info1[r]
    ensures FreeSizes(info1, owner1) == FreeSizes(info0, owner0)
  {
  }

  lemma FreeWords(info: map<Addr, Info>, owner: map<Addr, TreeRef>)
    requires KindsOk(info, owner)
    ensures forall r :: r in FreeSizes(info, owner) <==> r in owner && owner[r] == FreeRuns
    ensures forall r :: r in FreeSizes(info, owner) ==> r in info && FreeSizes(info, owner)[r] == info[r].word
  {
  }

  /** A run of the free list is taken out. */
  lemma FreeWithout(info: map<Addr, Info>, owner: map<Addr, TreeRef>, r: Addr)
    ensures FreeSizes(info, owner - {r}) == FreeSizes(info, owner) - {r}
    ensures r in owner && owner[r] != FreeRuns ==> FreeSizes(info, owner - {r}) == FreeSizes(info, owner)
  {
  }

  /** The headers written at runs that are in no tree do not matter. */
  lemma SizesKept(info: map<Addr, Info>, owner: map<Addr, TreeRef>, r: Addr, h: Info)
    requires r in owner ==> owner[r] != FreeRuns
    ensures FreeSizes(info[r := h], owner) == FreeSizes(info, owner)
  {
  }

  lemma CutKept(info: map<Addr, Info>, owner: map<Addr, TreeRef>, r: Addr, n: nat, size: nat)
    requires size <= n && r !in owner && r + size !in owner
    ensures FreeSizes(Cut(info, r, n, size), owner) == FreeSizes(info, owner)
  {
  }

  /** The lowest free run that fits is taken out of the free list, and what is left of it goes back. */
  lemma FitTaken(info: map<Addr, Info>, owner: map<Addr, TreeRef>, r: Addr, size: nat)
    requires KindsOk(info, owner)
    requires forall s :: s in owner && owner[s] == FreeRuns && s in info && info[s].word >= size ==> r != 0 && r <= s
    ensures r == 0 ==> NoFit(FreeSizes(info, owner), size)
    ensures r in owner && owner[r] == FreeRuns && r in info && info[r].word >= size ==>
      && FirstFit(FreeSizes(info, owner), size, r) && FreeSizes(info, owner)[r] == info[r].word
      && FreeSizes(info, owner - {r}) == FreeSizes(info, owner) - {r} && !NoFit(FreeSizes(info, owner), size)
  {
    FreeWords(info, owner);
    FreeWithout(info, owner, r);
  }

  lemma GrownSizes(info: map<Addr, Info>, owner: map<Addr, TreeRef>, b: Addr, n: nat)
    requires KindsOk(info, owner) && b in owner && owner[b] == FreeRuns
    ensures b in info
    ensures var f := FreeSizes(info, owner); b in f && FreeSizes(Grown(info, b, n), owner) == f[b := f[b] + n]
  {
    assert KindOk(info[b], owner[b]);
  }

  lemma SizedSizes(info: map<Addr, Info>, owner: map<Addr, TreeRef>, b: Addr, r: Addr, n: nat)
    requires r !in owner
    ensures FreeSizes(Sized(info, r, n), (owner - {b})[r := FreeRuns]) == (FreeSizes(info, owner) - {b})[r := n]
    ensures FreeSizes(Sized(info, r, n), owner[r := FreeRuns]) == FreeSizes(info, owner)[r := n]
  {
  }

  /** Which free runs touch a run that is in no tree. */
  lemma Touching(info: map<Addr, Info>, owner: map<Addr, TreeRef>, lo: Addr, hi: Addr, r: Addr)
    requires RunsOk(info, owner, lo, hi) && Detached(info, owner, lo, hi, r)
    ensures forall b :: b in FreeSizes(info, owner) ==>
      && (b + FreeSizes(info, owner)[b] == r <==> Covers(info, b, r - 1))
      && (b == r + InfoSize(info[r]) <==> Covers(info, b, r + InfoSize(info[r]) + 1))
    ensures forall b, c :: b in owner && c in owner && Covers(info, b, r - 1) && Covers(info, c, r - 1) ==> b == c
  {
    hide GetRunSize;
    forall b | b in FreeSizes(info, owner)
      ensures b + FreeSizes(info, owner)[b] == r <==> Covers(info, b, r - 1)
      ensures b == r + InfoSize(info[r]) <==> Covers(info, b, r + InfoSize(info[r]) + 1)
    {
      AdjacentBelow(info, owner, lo, hi, b, r);
      AdjacentAbove(info, owner, lo, hi, b, r);
    }
  }

  /** Giving a run back when the free run `b` ends where it begins. */
  lemma ReturnedBelow(info: map<Addr, Info>, owner: map<Addr, TreeRef>, lo: Addr, hi: Addr, b: Addr, r: Addr)
    requires RunsOk(info, owner, lo, hi) && KindsOk(info, owner) && Detached(info, owner, lo, hi, r)
    requires b in owner && owner[b] == FreeRuns && Covers(info, b, r - 1)
    ensures b in info && r in info
    ensures var n := InfoSize(info[r]);
      Returned(FreeSizes(info, owner), FreeSizes(Grown(info, b, n), owner), r, n)
  {
    hide InfoSize, RunsOk, Detached, KindsOk, Covers, FreeSizes;
    DetachedFacts(info, owner, lo, hi, r);
    Touching(info, owner, lo, hi, r);
    GrownSizes(info, owner, b, InfoSize(info[r]));
    FreeWords(info, owner);
  }

  /** Giving a run back when none ends where it begins, but the free run `b` begins where it ends. */
  lemma ReturnedAbove(info: map<Addr, Info>, owner: map<Addr, TreeRef>, lo: Addr, hi: Addr, b: Addr, r: Addr)
    requires RunsOk(info, owner, lo, hi) && KindsOk(info, owner) && Detached(info, owner, lo, hi, r)
    requires forall c :: c in owner && owner[c] == FreeRuns ==> !Covers(info, c, r - 1)
    requires b in owner && owner[b] == FreeRuns && r in info && Covers(info, b, r + InfoSize(info[r]) + 1)
    ensures b in info
    ensures var n := InfoSize(info[r]);
      Returned(FreeSizes(info, owner), FreeSizes(Sized(info, r, n + InfoSize(info[b])), (owner - {b})[r := FreeRuns]),
        r, n)
  {
    hide InfoSize, RunsOk, Detached, Covers, KindsOk;
    DetachedFacts(info, owner, lo, hi, r);
    Touching(info, owner, lo, hi, r);
    FreeWords(info, owner);
    SizedSizes(info, owner, b, r, InfoSize(info[r]) + InfoSize(info[b]));
  }

  /** Giving a run back when no free run touches it. */
  lemma ReturnedAlone(info: map<Addr, Info>, owner: map<Addr, TreeRef>, lo: Addr, hi: Addr, r: Addr)
    requires RunsOk(info, owner, lo, hi) && KindsOk(info, owner) && Detached(info, owner, lo, hi, r) && r in info
    requires forall c :: c in owner && owner[c] == FreeRuns ==> !Covers(info, c, r - 1)
    requires forall c :: c in owner && owner[c] == FreeRuns ==> !Covers(info, c, r + InfoSize(info[r]) + 1)
    ensures var n := InfoSize(info[r]);
      Returned(FreeSizes(info, owner), FreeSizes(Sized(info, r, n), owner[r := FreeRuns]), r, n)
  {
    hide InfoSize, RunsOk, Detached, Covers, KindsOk, FreeSizes;
    DetachedFacts(info, owner, lo, hi, r);
    Touching(info, owner, lo, hi, r);
    FreeWords(info, owner);
    SizedSizes(info, owner, r, r, InfoSize(info[r]));
  }

  /** A run that was in no tree is put to use. */
  lemma GainedRun(info0: map<Addr, Info>, owner0: map<Addr, TreeRef>, info1: map<Addr, Info>,
        owner1: map<Addr, TreeRef>, r: Addr, k: TreeRef)
    requires SameUsedRuns(info0, owner0, info1, owner1) && r !in owner1 && k != FreeRuns
    ensures SameUsedRuns(info0, owner0, info1, owner1[r := k] - {r})
    ensures FreeSizes(info1, owner1[r := k]) == FreeSizes(info1, owner1)
    ensures !(r in owner0 && owner0[r] != FreeRuns)
  {
    assert owner1[r := k] - {r} == owner1;
  }

  /** What happens to the header of the run itself does not matter. */
  lemma GainedThen(info0: map<Addr, Info>, owner0: map<Addr, TreeRef>, info1: map<Addr, Info>,
        owner1: map<Addr, TreeRef>, r: Addr, h: Info)
    requires SameUsedRuns(info0, owner0, info1, owner1 - {r}) && r in owner1 && owner1[r] != FreeRuns
    ensures SameUsedRuns(info0, owner0, info1[r := h], owner1 - {r})
    ensures FreeSizes(info1[r := h], owner1) == FreeSizes(info1, owner1)
  {
  }

  /** The last slot of a bin run changes hands before the run goes back. */
  lemma ReleasedThen(info0: map<Addr, Info>, owner0: map<Addr, TreeRef>, info1: map<Addr, Info>,
        info2: map<Addr, Info>, owner2: map<Addr, TreeRef>, r: Addr, j: nat)
    requires r in owner0 && owner0[r] != FreeRuns && r in info0 && info1 == Toggled(info0, r, j)
    requires info0[r].slotCount != 0 && SameUsedRuns(info1, owner0 - {r}, info2, owner2)
    ensures SameUsedRuns(info0, owner0 - {r}, info2, owner2)
    ensures FreeSizes(info1, owner0) == FreeSizes(info0, owner0) && InfoSize(info1[r]) == InfoSize(info0[r])
  {
  }

  // ----- neighbours -----

  /** Whether one free run contains the `n` bytes at `r`. */
  ghost predicate Contained(f: map<Addr, nat>, r: Addr, n: nat) {
    exists b :: b in f && b <= r && r + n <= b + f[b]
  }

  /** Two neighbours that come back, the lower one first, end up in one free run. */
  lemma LowerFirst(f0: map<Addr, nat>, f1: map<Addr, nat>, f2: map<Addr, nat>, r: Addr, n: nat, m: nat)
    requires Returned(f0, f1, r, n) && Returned(f1, f2, r + n, m) && r + n !in f0
    ensures Contained(f2, r, n + m)
  {
    if b :| b in f0 && b + f0[b] == r {
      assert b in f1 && b + f1[b] == r + n;
      assert f2[b] == f1[b] + m;
    } else {
      assert r in f1 && r + f1[r] == r + n;
      assert f2[r] == n + m;
    }
  }

  /** A free run that contains enough bytes serves a request, without the heap growing. */
  lemma ContainedServes(f: map<Addr, nat>, r: Addr, n: nat, size: nat)
    requires Contained(f, r, n) && size <= n
    ensures !NoFit(f, size)
  {
  }

  /** The upper one first, they do exactly when no free run ends at the lower one: the source looks above only when
      there is nothing below. */
  lemma UpperFirst(f0: map<Addr, nat>, f1: map<Addr, nat>, f2: map<Addr, nat>, r: Addr, n: nat, m: nat)
    requires Returned(f0, f1, r + n, m) && Returned(f1, f2, r, n) && n > 0 && m > 0
    requires forall b :: b in f0 ==> f0[b] > 0 && (b + f0[b] <= r || r + n + m <= b)
    ensures Contained(f2, r, n + m) <==> forall b :: b in f0 ==> b + f0[b] != r
  {
    assert forall b :: b in f0 ==> b + f0[b] != r + n;
    assert r + n in f1 && f1[r + n] >= m;
    assert forall b :: b in f1 && b != r + n ==> b in f0 && f1[b] == f0[b];
    if b :| b in f0 && b + f0[b] == r {
      assert b in f1 && b + f1[b] == r;
      assert f2 == f1[b := f1[b] + n];
    } else {
      assert f2[r] == n + f1[r + n];
    }
  }

  /** Runs of live blocks are not free. */
  lemma OnlyUsed(info: map<Addr, Info>, owner: map<Addr, TreeRef>, live: map<Addr, Place>, p: Addr, q: Addr)
    requires LiveOk(info, owner, live) && p in live && q in live
    ensures forall r :: r in {live[p].run, live[q].run} ==>
      r in owner && r in info && owner[r] != FreeRuns && r !in FreeSizes(info, owner)
  {
  }

  /** Another block and its run stay while `a` goes back. */
  lemma StillUsed(info0: map<Addr, Info>, owner0: map<Addr, TreeRef>, info1: map<Addr, Info>,
        owner1: map<Addr, TreeRef>, live: map<Addr, Place>, q: Addr, a: Addr)
    requires SameUsedRuns(info0, owner0 - {a}, info1, owner1) && q in live && live[q].run != a
    requires live[q].run in owner0 && owner0[live[q].run] != FreeRuns && live[q].run in info0
    ensures live[q].run in info1 && info1[live[q].run] == info0[live[q].run]
    ensures Capacity(info1, live[q]) == Capacity(info0, live[q])
  {
  }

  /** A free run that fits leaves no shortage. */
  lemma RoomThere(info: map<Addr, Info>, owner: map<Addr, TreeRef>, size: nat)
    requires KindsOk(info, owner) && !NoFit(FreeSizes(info, owner), size)
    ensures exists r :: r in owner && owner[r] == FreeRuns && r in info && info[r].word >= size
  {
    FreeWords(info, owner);
  }
}
