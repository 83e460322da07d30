/** The heap as the allocator sees it: which runs exist, which tree tracks each of them,
    and which blocks are in the hands of callers. */
module HeapModel {
  import opened Powers
  import opened RbTreeModel
  import opened RunMemory
  import opened RbTree
  import opened SizeClass

  /** The variables that hold tree roots: the bins, the free list and the large allocation list. */
  datatype TreeRef = Bin(i: nat) | FreeRuns | LargeAllocations

  predicate ValidRef(k: TreeRef) {
    k.Bin? ==> k.i < BIN_COUNT
  }

  ghost predicate Ascending(s: seq<Addr>) {
    forall i, j :: 0 <= i < j < |s| ==> s[i] < s[j]
  }

  // ----- runs -----

  /** A run is aligned, has room for its header and lies in the heap. */
  ghost predicate RunOk(info: map<Addr, Info>, lo: Addr, hi: Addr, r: Addr) {
    && r in info && r % 8 == 0 && InfoSize(info[r]) % 8 == 0 && InfoSize(info[r]) >= RUN_HEADER_SIZE
    && 0 < lo <= r && r + InfoSize(info[r]) <= hi
  }

  /** No tracked run shares a byte with the `n` bytes at `r`. */
  ghost predicate Apart(info: map<Addr, Info>, owner: map<Addr, TreeRef>, r: Addr, n: nat) {
    forall s :: s in owner ==> s in info && (s + InfoSize(info[s]) <= r || r + n <= s)
  }

  /** The tracked runs lie in the heap and are pairwise disjoint, across all trees. */
  ghost predicate RunsOk(info: map<Addr, Info>, owner: map<Addr, TreeRef>, lo: Addr, hi: Addr) {
    && (forall r :: r in owner ==> ValidRef(owner[r]) && RunOk(info, lo, hi, r))
    && (forall r, s :: r in owner && s in owner && r < s ==> r + InfoSize(info[r]) <= s)
  }

  /** A run that is in no tree and overlaps none of the tracked runs. */
  ghost predicate Detached(info: map<Addr, Info>, owner: map<Addr, TreeRef>, lo: Addr, hi: Addr, r: Addr) {
    r !in owner && RunOk(info, lo, hi, r) && Apart(info, owner, r, InfoSize(info[r]))
  }

  // ----- trees -----

  /** `t` is the red-black tree below `root` of exactly the runs that belong to `k`. */
  ghost predicate TreeOk(links: map<Addr, Link>, root: Addr, t: Tree, owner: map<Addr, TreeRef>, k: TreeRef) {
    && Focus(links, root, Top, t) && IsRedBlack(t) && Ascending(Inorder(t))
    && (forall a :: a in Inorder(t) <==> a in owner && owner[a] == k)
  }

  ghost predicate TreesOk(links: map<Addr, Link>, roots: map<TreeRef, Addr>, trees: map<TreeRef, Tree>,
        owner: map<Addr, TreeRef>) {
    forall k :: ValidRef(k) ==> k in roots && k in trees && TreeOk(links, roots[k], trees[k], owner, k)
  }

  lemma TreeOrdered(info: map<Addr, Info>, owner: map<Addr, TreeRef>, lo: Addr, hi: Addr, t: Tree, k: TreeRef)
    requires RunsOk(info, owner, lo, hi) && Ascending(Inorder(t))
    requires forall a :: a in Inorder(t) <==> a in owner && owner[a] == k
    ensures Ordered(info, Inorder(t))
  {
    var s := Inorder(t);
    forall i | 0 <= i < |s| ensures s[i] in owner && s[i] in info && InfoSize(info[s[i]]) > 0 {
      assert s[i] in s;
    }
  }

  /** A tree none of whose nodes' links changed. */
  lemma FrameTree(l0: map<Addr, Link>, l1: map<Addr, Link>, root: Addr, t: Tree, k: TreeRef,
                  owner0: map<Addr, TreeRef>, owner1: map<Addr, TreeRef>, changed: set<Addr>)
    requires TreeOk(l0, root, t, owner0, k) && SameOutside(l0, l1, changed)
    requires forall a :: a in changed ==> !(a in owner0 && owner0[a] == k)
    requires forall a :: (a in owner0 && owner0[a] == k) <==> (a in owner1 && owner1[a] == k)
    ensures TreeOk(l1, root, t, owner1, k)
  {
    NodesAreInorder(t);
    FrameFocus(l0, l1, root, t, changed);
  }

  /** One tree changed together with the ownership of one run. */
  lemma UpdateTree(l0: map<Addr, Link>, l1: map<Addr, Link>, roots: map<TreeRef, Addr>, trees: map<TreeRef, Tree>,
                   owner0: map<Addr, TreeRef>, owner1: map<Addr, TreeRef>, k: TreeRef, root: Addr, t: Tree, node: Addr)
    requires TreesOk(l0, roots, trees, owner0) && ValidRef(k)
    requires SameOutside(l0, l1, Nodes(trees[k]) + {node})
    requires TreeOk(l1, root, t, owner1, k)
    requires node in owner0 ==> owner0[node] == k
    requires node in owner1 ==> owner1[node] == k
    requires forall a :: a != node ==> (a in owner0 <==> a in owner1) && (a in owner0 ==> owner0[a] == owner1[a])
    ensures TreesOk(l1, roots[k := root], trees[k := t], owner1)
  {
    NodesAreInorder(trees[k]);
    forall k' | ValidRef(k')
      ensures TreeOk(l1, roots[k := root][k'], trees[k := t][k'], owner1, k')
    {
      if k' != k {
        FrameTree(l0, l1, roots[k'], trees[k'], k', owner0, owner1, Nodes(trees[k]) + {node});
      }
    }
  }

  lemma InsertedTree(info: map<Addr, Info>, s: seq<Addr>, s': seq<Addr>, node: Addr, pos: nat)
    requires InsertedAt(info, s, s', node, pos) && Ascending(s)
    requires forall a :: a in s ==> a in info && InfoSize(info[a]) > 0
    ensures Ascending(s') && forall a :: a in s' <==> a in s || a == node
  {
    forall i | 0 <= i < |s'|
      ensures s'[i] == if i < pos then s[i] else if i == pos then node else s[i - 1]
    {
    }
    forall a | a in s ensures a in s' {
      var i :| 0 <= i < |s| && s[i] == a;
      assert s'[if i < pos then i else i + 1] == a;
    }
    assert s'[pos] == node;
  }

  lemma RemovedTree(s: seq<Addr>, i: nat)
    requires i < |s| && Ascending(s)
    ensures var s' := s[..i] + s[i + 1..];
      Ascending(s') && forall a :: a in s' <==> a in s && a != s[i]
  {
    var s' := s[..i] + s[i + 1..];
    forall j | 0 <= j < |s'| ensures s'[j] == if j < i then s[j] else s[j + 1] {}
    forall a | a in s && a != s[i] ensures a in s' {
      var j :| 0 <= j < |s| && s[j] == a;
      assert s'[if j < i then j else j - 1] == a;
    }
  }

  /** Trees and runs are consistent. */
  ghost predicate CoreOk(links: map<Addr, Link>, info: map<Addr, Info>, roots: map<TreeRef, Addr>,
                         trees: map<TreeRef, Tree>, owner: map<Addr, TreeRef>, lo: Addr, hi: Addr) {
    TreesOk(links, roots, trees, owner) && RunsOk(info, owner, lo, hi)
  }

  lemma RunsOfCore(links: map<Addr, Link>, info: map<Addr, Info>, roots: map<TreeRef, Addr>, trees: map<TreeRef, Tree>,
                   owner: map<Addr, TreeRef>, lo: Addr, hi: Addr)
    requires CoreOk(links, info, roots, trees, owner, lo, hi)
    ensures RunsOk(info, owner, lo, hi)
  {
  }

  /** A run that is in no tree may be inserted: no run of the tree contains its address. */
  lemma InsertReady(links: map<Addr, Link>, info: map<Addr, Info>, roots: map<TreeRef, Addr>, trees: map<TreeRef, Tree>,
                    owner: map<Addr, TreeRef>, lo: Addr, hi: Addr, k: TreeRef, node: Addr)
    requires CoreOk(links, info, roots, trees, owner, lo, hi) && ValidRef(k)
    requires Detached(info, owner, lo, hi, node)
    ensures k in roots && k in trees && node in info
    ensures Focus(links, roots[k], Top, trees[k]) && IsRedBlack(trees[k]) && Ordered(info, Inorder(trees[k]))
    ensures node != 0 && node !in Inorder(trees[k]) && Scan(info, Inorder(trees[k]), node) == 0
  {
    assert TreeOk(links, roots[k], trees[k], owner, k);
    TreeOrdered(info, owner, lo, hi, trees[k], k);
    ScanMisses(info, Inorder(trees[k]), node);
  }

  lemma RunAdded(info: map<Addr, Info>, owner: map<Addr, TreeRef>, lo: Addr, hi: Addr, k: TreeRef, node: Addr)
    requires RunsOk(info, owner, lo, hi) && ValidRef(k)
    requires RunOk(info, lo, hi, node) && Apart(info, owner, node, InfoSize(info[node]))
    ensures RunsOk(info, owner[node := k], lo, hi)
  {
  }

  lemma TreeInserted(l0: map<Addr, Link>, l1: map<Addr, Link>, info: map<Addr, Info>, root0: Addr, t0: Tree,
        owner: map<Addr, TreeRef>, lo: Addr, hi: Addr, k: TreeRef, node: Addr, root: Addr, t: Tree, pos: nat)
    requires TreeOk(l0, root0, t0, owner, k) && RunsOk(info, owner, lo, hi) && node !in owner
    requires Focus(l1, root, Top, t) && IsRedBlack(t) && InsertedAt(info, Inorder(t0), Inorder(t), node, pos)
    ensures TreeOk(l1, root, t, owner[node := k], k)
  {
    InsertedTree(info, Inorder(t0), Inorder(t), node, pos);
  }

  lemma InsertDone(l0: map<Addr, Link>, l1: map<Addr, Link>, info: map<Addr, Info>, roots: map<TreeRef, Addr>,
                   trees: map<TreeRef, Tree>, owner: map<Addr, TreeRef>, lo: Addr, hi: Addr, k: TreeRef, node: Addr,
                   root: Addr, t: Tree, pos: nat)
    requires CoreOk(l0, info, roots, trees, owner, lo, hi) && ValidRef(k)
    requires Detached(info, owner, lo, hi, node)
    requires Focus(l1, root, Top, t) && IsRedBlack(t) && InsertedAt(info, Inorder(trees[k]), Inorder(t), node, pos)
    requires SameOutside(l0, l1, Nodes(trees[k]) + {node})
    ensures CoreOk(l1, info, roots[k := root], trees[k := t], owner[node := k], lo, hi)
  {
    TreeInserted(l0, l1, info, roots[k], trees[k], owner, lo, hi, k, node, root, t, pos);
    UpdateTree(l0, l1, roots, trees, owner, owner[node := k], k, root, t, node);
    RunAdded(info, owner, lo, hi, k, node);
  }

  lemma RemoveReady(links: map<Addr, Link>, info: map<Addr, Info>, roots: map<TreeRef, Addr>, trees: map<TreeRef, Tree>,
                    owner: map<Addr, TreeRef>, lo: Addr, hi: Addr, k: TreeRef, node: Addr) returns (i: nat)
    requires CoreOk(links, info, roots, trees, owner, lo, hi) && ValidRef(k) && node in owner && owner[node] == k
    ensures k in roots && k in trees
    ensures Focus(links, roots[k], Top, trees[k]) && IsRedBlack(trees[k])
    ensures i < |Inorder(trees[k])| && Inorder(trees[k])[i] == node
  {
    assert TreeOk(links, roots[k], trees[k], owner, k);
    i :| 0 <= i < |Inorder(trees[k])| && Inorder(trees[k])[i] == node;
  }

  lemma TreeRemoved(l0: map<Addr, Link>, l1: map<Addr, Link>, root0: Addr, t0: Tree,
                    owner: map<Addr, TreeRef>, k: TreeRef, node: Addr, root: Addr, t: Tree, i: nat)
    requires TreeOk(l0, root0, t0, owner, k) && i < |Inorder(t0)| && Inorder(t0)[i] == node
    requires Focus(l1, root, Top, t) && IsRedBlack(t) && Inorder(t) == Inorder(t0)[..i] + Inorder(t0)[i + 1..]
    ensures TreeOk(l1, root, t, owner - {node}, k)
  {
    RemovedTree(Inorder(t0), i);
  }

  lemma RunRemoved(info: map<Addr, Info>, owner: map<Addr, TreeRef>, lo: Addr, hi: Addr, node: Addr)
    requires RunsOk(info, owner, lo, hi)
    ensures RunsOk(info, owner - {node}, lo, hi)
  {
  }

  lemma WidenOutside(l0: map<Addr, Link>, l1: map<Addr, Link>, s: set<Addr>, a: Addr)
    requires SameOutside(l0, l1, s)
    ensures SameOutside(l0, l1, s + {a})
  {
  }

  lemma RemoveDone(l0: map<Addr, Link>, l1: map<Addr, Link>, info: map<Addr, Info>, roots: map<TreeRef, Addr>,
                   trees: map<TreeRef, Tree>, owner: map<Addr, TreeRef>, lo: Addr, hi: Addr, k: TreeRef, node: Addr,
                   root: Addr, t: Tree, i: nat)
    requires CoreOk(l0, info, roots, trees, owner, lo, hi) && ValidRef(k) && node in owner && owner[node] == k
    requires i < |Inorder(trees[k])| && Inorder(trees[k])[i] == node
    requires Focus(l1, root, Top, t) && IsRedBlack(t)
    requires Inorder(t) == Inorder(trees[k])[..i] + Inorder(trees[k])[i + 1..]
    requires SameOutside(l0, l1, Nodes(trees[k]))
    ensures CoreOk(l1, info, roots[k := root], trees[k := t], owner - {node}, lo, hi)
  {
    hide Focus, IsRedBlack, RunsOk, SameOutside, TreeOk;
    TreeRemoved(l0, l1, roots[k], trees[k], owner, k, node, root, t, i);
    WidenOutside(l0, l1, Nodes(trees[k]), node);
    UpdateTree(l0, l1, roots, trees, owner, owner - {node}, k, root, t, node);
    RunRemoved(info, owner, lo, hi, node);
  }

  // ----- kinds of runs -----

  /** Runs in bins have the slots of their bin, all other runs have none. */
  ghost predicate KindsOk(info: map<Addr, Info>, owner: map<Addr, TreeRef>) {
    forall r :: r in owner ==> r in info && KindOk(info[r], owner[r])
  }

  ghost predicate KindOk(h: Info, k: TreeRef) {
    if k.Bin? then k.i < BIN_COUNT && BinRun(h, k.i)
    else h.slotCount == 0 && (k == LargeAllocations ==> h.word >= RUN_HEADER_SIZE)
  }

  ghost predicate BinRun(h: Info, i: nat)
    requires i < BIN_COUNT
  {
    && h.slotSize == BinSlotSize(i) && h.slotCount == SlotsFor(BinSlotSize(i)) && h.word < Pow2(h.slotCount)
  }

  // ----- bytes -----

  /** Byte `x` belongs to a run of the free list. */
  ghost predicate FreeByte(info: map<Addr, Info>, owner: map<Addr, TreeRef>, x: Addr) {
    exists r :: r in owner && owner[r] == FreeRuns && Covers(info, r, x)
  }

  /** Byte `x` belongs to some tracked run. */
  ghost predicate TrackedByte(info: map<Addr, Info>, owner: map<Addr, TreeRef>, x: Addr) {
    exists r :: r in owner && Covers(info, r, x)
  }

  /** The runs outside the free list, with their headers, are the same. */
  ghost predicate SameUsedRuns(info0: map<Addr, Info>, owner0: map<Addr, TreeRef>, info1: map<Addr, Info>,
        owner1: map<Addr, TreeRef>) {
    && (forall r :: r in owner0 && owner0[r] != FreeRuns ==>
          r in owner1 && owner1[r] == owner0[r] && r in info0 && r in info1 && info1[r] == info0[r])
    && (forall r :: r in owner1 && owner1[r] != FreeRuns ==> r in owner0 && owner0[r] == owner1[r])
  }

  /** The free list gained exactly the `n` bytes at `r`. */
  ghost predicate FreeBytesGrow(info0: map<Addr, Info>, owner0: map<Addr, TreeRef>, info1: map<Addr, Info>,
        owner1: map<Addr, TreeRef>, r: Addr, n: nat) {
    forall x: Addr :: FreeByte(info1, owner1, x) <==> FreeByte(info0, owner0, x) || r <= x < r + n
  }

  // ----- merging free runs -----

  /** `b` with `n` more bytes. */
  function Grown(info: map<Addr, Info>, b: Addr, n: nat): map<Addr, Info>
    requires b in info
  {
    info[b := info[b].(word := info[b].word + n)]
  }

  lemma AdjacentBelow(info: map<Addr, Info>, owner: map<Addr, TreeRef>, lo: Addr, hi: Addr, b: Addr, r: Addr)
    requires RunsOk(info, owner, lo, hi) && Detached(info, owner, lo, hi, r) && b in owner
    ensures Covers(info, b, r - 1) <==> b + InfoSize(info[b]) == r
  {
  }

  /** The free run that contains the address one past the end of `r`, if any, starts at the end of `r`. */
  lemma AdjacentAbove(info: map<Addr, Info>, owner: map<Addr, TreeRef>, lo: Addr, hi: Addr, b: Addr, r: Addr)
    requires RunsOk(info, owner, lo, hi) && Detached(info, owner, lo, hi, r) && b in owner
    ensures Covers(info, b, r + InfoSize(info[r]) + 1) <==> b == r + InfoSize(info[r])
  {
  }

  /** The free run `b` ends where `r` starts: `b` grows in place. */
  lemma MergedBelow(info: map<Addr, Info>, owner: map<Addr, TreeRef>, lo: Addr, hi: Addr, b: Addr, r: Addr)
    requires RunsOk(info, owner, lo, hi) && KindsOk(info, owner) && Detached(info, owner, lo, hi, r)
    requires b in owner && owner[b] == FreeRuns && b + InfoSize(info[b]) == r
    ensures var info1 := Grown(info, b, InfoSize(info[r]));
      RunsOk(info1, owner, lo, hi) && KindsOk(info1, owner) && SameUsedRuns(info, owner, info1, owner)
  {
    GrownRuns(info, owner, lo, hi, b, r);
    GrownKinds(info, owner, b, InfoSize(info[r]));
    hide *;
  }

  lemma GrownRuns(info: map<Addr, Info>, owner: map<Addr, TreeRef>, lo: Addr, hi: Addr, b: Addr, r: Addr)
    requires RunsOk(info, owner, lo, hi) && Detached(info, owner, lo, hi, r)
    requires b in owner && b in info && info[b].slotCount == 0 && b + InfoSize(info[b]) == r
    ensures RunsOk(Grown(info, b, InfoSize(info[r])), owner, lo, hi)
  {
    var info1 := Grown(info, b, InfoSize(info[r]));
    assert InfoSize(info1[b]) == InfoSize(info[b]) + InfoSize(info[r]);
    assert RunOk(info1, lo, hi, b);
    assert forall s :: s in owner && s != b ==> info1[s] == info[s];
    hide GetRunSize, BinRun, InfoSize, RunOk, KindOk;
    forall s | s in owner && b < s ensures b + InfoSize(info1[b]) <= s {
      assert s + InfoSize(info[s]) <= r || r + InfoSize(info[r]) <= s;
    }
  }

  lemma GrownKinds(info: map<Addr, Info>, owner: map<Addr, TreeRef>, b: Addr, n: nat)
    requires KindsOk(info, owner) && b in owner && owner[b] == FreeRuns
    ensures KindsOk(Grown(info, b, n), owner) && SameUsedRuns(info, owner, Grown(info, b, n), owner)
  {
    hide BinRun;
  }

  lemma MergedBelowBytes(info: map<Addr, Info>, owner: map<Addr, TreeRef>, b: Addr, r: Addr, n: nat)
    requires b in owner && owner[b] == FreeRuns && b in info && info[b].slotCount == 0 && b + InfoSize(info[b]) == r
    ensures FreeBytesGrow(info, owner, Grown(info, b, n), owner, r, n)
  {
    var info1 := Grown(info, b, n);
    forall x: Addr ensures FreeByte(info1, owner, x) <==> FreeByte(info, owner, x) || r <= x < r + n {
      if FreeByte(info, owner, x) {
        var s :| s in owner && owner[s] == FreeRuns && Covers(info, s, x);
        assert Covers(info1, s, x);
      }
      if r <= x < r + n {
        assert Covers(info1, b, x);
      }
      if FreeByte(info1, owner, x) {
        var s :| s in owner && owner[s] == FreeRuns && Covers(info1, s, x);
        assert Covers(info, s, x) || (s == b && r <= x < r + n);
      }
    }
  }

  /** `r` as a run without slots of `n` bytes. */
  function Sized(info: map<Addr, Info>, r: Addr, n: nat): map<Addr, Info> {
    info[r := Info(0, 0, n)]
  }

  /** The free run `b` starts where `r` ends: `r` swallows it. */
  lemma MergedAboveRuns(info: map<Addr, Info>, owner: map<Addr, TreeRef>, lo: Addr, hi: Addr, b: Addr, r: Addr)
    requires RunsOk(info, owner, lo, hi) && Detached(info, owner, lo, hi, r)
    requires b in owner && b == r + InfoSize(info[r])
    ensures var info1 := Sized(info, r, InfoSize(info[r]) + InfoSize(info[b]));
      RunsOk(info1, owner - {b}, lo, hi) && Detached(info1, owner - {b}, lo, hi, r)
  {
    var info1 := Sized(info, r, InfoSize(info[r]) + InfoSize(info[b]));
    assert InfoSize(info1[r]) == InfoSize(info[r]) + InfoSize(info[b]);
    hide GetRunSize;
  }

  lemma MergedAboveKinds(info: map<Addr, Info>, owner: map<Addr, TreeRef>, b: Addr, r: Addr, n: nat)
    requires KindsOk(info, owner) && r !in owner && b in owner && owner[b] == FreeRuns
    ensures KindsOk(Sized(info, r, n), (owner - {b})[r := FreeRuns])
    ensures SameUsedRuns(info, owner, Sized(info, r, n), (owner - {b})[r := FreeRuns])
  {
    hide BinRun;
  }

  lemma MergedAboveBytes(info: map<Addr, Info>, owner: map<Addr, TreeRef>, b: Addr, r: Addr, n: nat)
    requires b in owner && owner[b] == FreeRuns && b in info && r !in owner && b == r + n
    ensures FreeBytesGrow(info, owner, Sized(info, r, n + InfoSize(info[b])), (owner - {b})[r := FreeRuns], r, n)
  {
    var (info1, owner1) := (Sized(info, r, n + InfoSize(info[b])), (owner - {b})[r := FreeRuns]);
    forall x: Addr ensures FreeByte(info1, owner1, x) <==> FreeByte(info, owner, x) || r <= x < r + n {
      if FreeByte(info, owner, x) {
        var s :| s in owner && owner[s] == FreeRuns && Covers(info, s, x);
        assert Covers(info1, if s == b then r else s, x);
      }
      if r <= x < r + n {
        assert Covers(info1, r, x);
      }
      if FreeByte(info1, owner1, x) {
        var s :| s in owner1 && owner1[s] == FreeRuns && Covers(info1, s, x);
        assert (s == r && (r <= x < r + n || Covers(info, b, x))) || (s != r && Covers(info, s, x));
      }
    }
  }

  /** `r` joins the free list by itself. */
  lemma NotMerged(info: map<Addr, Info>, owner: map<Addr, TreeRef>, lo: Addr, hi: Addr, r: Addr)
    requires RunsOk(info, owner, lo, hi) && KindsOk(info, owner) && Detached(info, owner, lo, hi, r)
    ensures var info1 := Sized(info, r, InfoSize(info[r]));
      && RunsOk(info1, owner, lo, hi) && Detached(info1, owner, lo, hi, r)
      && KindsOk(info1, owner[r := FreeRuns]) && SameUsedRuns(info, owner, info1, owner[r := FreeRuns])
  {
  }

  lemma NotMergedBytes(info: map<Addr, Info>, owner: map<Addr, TreeRef>, r: Addr, n: nat)
    requires r !in owner
    ensures FreeBytesGrow(info, owner, Sized(info, r, n), owner[r := FreeRuns], r, n)
  {
    var (info1, owner1) := (Sized(info, r, n), owner[r := FreeRuns]);
    forall x: Addr ensures FreeByte(info1, owner1, x) <==> FreeByte(info, owner, x) || r <= x < r + n {
      if FreeByte(info, owner, x) {
        var s :| s in owner && owner[s] == FreeRuns && Covers(info, s, x);
        assert Covers(info1, s, x);
      }
      if r <= x < r + n {
        assert Covers(info1, r, x);
      }
      if FreeByte(info1, owner1, x) {
        var s :| s in owner1 && owner1[s] == FreeRuns && Covers(info1, s, x);
        assert s == r || Covers(info, s, x);
      }
    }
  }

  // ----- splitting -----

  /** The bytes of the free list and of `r` together are those of the old free list and `n` new bytes at `a`. */
  ghost predicate FreeBytesMove(info0: map<Addr, Info>, owner0: map<Addr, TreeRef>, info1: map<Addr, Info>,
        owner1: map<Addr, TreeRef>, r: Addr, a: Addr, n: nat)
    requires r in info1
  {
    forall x: Addr :: FreeByte(info1, owner1, x) || r <= x < r + InfoSize(info1[r])
                      <==> FreeByte(info0, owner0, x) || a <= x < a + n
  }

  /** A detached run stays detached while the free list gains bytes elsewhere. */
  lemma StillDetached(info0: map<Addr, Info>, owner0: map<Addr, TreeRef>, info1: map<Addr, Info>,
        owner1: map<Addr, TreeRef>, lo: Addr, hi: Addr, r: Addr, a: Addr, n: nat)
    requires Detached(info0, owner0, lo, hi, r) && RunsOk(info0, owner0, lo, hi) && RunsOk(info1, owner1, lo, hi)
    requires SameUsedRuns(info0, owner0, info1, owner1) && FreeBytesGrow(info0, owner0, info1, owner1, a, n)
    requires r in info1 && info1[r] == info0[r] && (a + n <= r || r + InfoSize(info0[r]) <= a)
    ensures Detached(info1, owner1, lo, hi, r)
  {
    var k := InfoSize(info1[r]);
    forall s | s in owner1 ensures s + InfoSize(info1[s]) <= r || r + k <= s {
      if owner1[s] == FreeRuns && s < r + k && r < s + InfoSize(info1[s]) {
        var x := if s < r then r else s;
        assert Covers(info1, s, x);
        assert FreeByte(info1, owner1, x);
      }
    }
  }

  /** The headers after a run of `n` bytes is cut into `size` bytes and the rest. */
  function Cut(info: map<Addr, Info>, r: Addr, n: nat, size: nat): map<Addr, Info>
    requires size <= n
  {
    Sized(Sized(info, r + size, n - size), r, size)
  }

  /** Both pieces are detached runs. */
  lemma CutRun(info: map<Addr, Info>, owner: map<Addr, TreeRef>, lo: Addr, hi: Addr, r: Addr, size: nat)
    requires Detached(info, owner, lo, hi, r) && KindsOk(info, owner)
    requires size % 8 == 0 && RUN_HEADER_SIZE <= size && size + RUN_HEADER_SIZE <= InfoSize(info[r])
    ensures var info1 := Cut(info, r, InfoSize(info[r]), size);
      && Detached(info1, owner, lo, hi, r) && Detached(info1, owner, lo, hi, r + size)
      && KindsOk(info1, owner) && SameUsedRuns(info, owner, info1, owner)
      && (forall x :: FreeByte(info1, owner, x) <==> FreeByte(info, owner, x))
  {
    var info1 := Cut(info, r, InfoSize(info[r]), size);
    assert forall s :: s in owner ==> s in info && info1[s] == info[s];
    forall x ensures FreeByte(info1, owner, x) <==> FreeByte(info, owner, x) {
      if FreeByte(info, owner, x) {
        var s :| s in owner && owner[s] == FreeRuns && Covers(info, s, x);
        assert Covers(info1, s, x);
      }
      if FreeByte(info1, owner, x) {
        var s :| s in owner && owner[s] == FreeRuns && Covers(info1, s, x);
        assert Covers(info, s, x);
      }
    }
  }

  // ----- the same, for the state of the allocator -----

  lemma DetachedFacts(info: map<Addr, Info>, owner: map<Addr, TreeRef>, lo: Addr, hi: Addr, r: Addr)
    requires Detached(info, owner, lo, hi, r)
    ensures r !in owner && r in info && 0 < r
  {
  }

  lemma MergeBelow(links: map<Addr, Link>, info: map<Addr, Info>, roots: map<TreeRef, Addr>, trees: map<TreeRef, Tree>,
                   owner: map<Addr, TreeRef>, lo: Addr, hi: Addr, b: Addr, r: Addr)
    requires CoreOk(links, info, roots, trees, owner, lo, hi) && KindsOk(info, owner)
      && Detached(info, owner, lo, hi, r)
    requires b in owner && owner[b] == FreeRuns && Covers(info, b, r - 1)
    ensures b in info && InfoSize(info[b]) == info[b].word
    ensures var info1 := Grown(info, b, InfoSize(info[r]));
      && CoreOk(links, info1, roots, trees, owner, lo, hi) && KindsOk(info1, owner)
      && SameUsedRuns(info, owner, info1, owner) && FreeBytesGrow(info, owner, info1, owner, r, InfoSize(info[r]))
  {
    AdjacentBelow(info, owner, lo, hi, b, r);
    MergedBelow(info, owner, lo, hi, b, r);
    MergedBelowBytes(info, owner, b, r, InfoSize(info[r]));
  }

  lemma MergeAbove(links: map<Addr, Link>, info: map<Addr, Info>, roots: map<TreeRef, Addr>, trees: map<TreeRef, Tree>,
                   owner: map<Addr, TreeRef>, lo: Addr, hi: Addr, b: Addr, r: Addr)
    requires CoreOk(links, info, roots, trees, owner, lo, hi) && KindsOk(info, owner)
      && Detached(info, owner, lo, hi, r)
    requires b in owner && owner[b] == FreeRuns && Covers(info, b, r + InfoSize(info[r]) + 1)
    ensures b in info && InfoSize(info[b]) == info[b].word
    ensures var n := InfoSize(info[r]);
      var (info1, owner1) := (Sized(info, r, n + InfoSize(info[b])), (owner - {b})[r := FreeRuns]);
      && Detached(info1, owner - {b}, lo, hi, r) && KindsOk(info1, owner1)
      && SameUsedRuns(info, owner, info1, owner1) && FreeBytesGrow(info, owner, info1, owner1, r, n)
  {
    AdjacentAbove(info, owner, lo, hi, b, r);
    MergedAboveRuns(info, owner, lo, hi, b, r);
    MergedAboveKinds(info, owner, b, r, InfoSize(info[r]) + InfoSize(info[b]));
    MergedAboveBytes(info, owner, b, r, InfoSize(info[r]));
  }

  lemma MergeNone(links: map<Addr, Link>, info: map<Addr, Info>, roots: map<TreeRef, Addr>, trees: map<TreeRef, Tree>,
                  owner: map<Addr, TreeRef>, lo: Addr, hi: Addr, r: Addr)
    requires CoreOk(links, info, roots, trees, owner, lo, hi) && KindsOk(info, owner)
      && Detached(info, owner, lo, hi, r)
    ensures var n := InfoSize(info[r]);
      var (info1, owner1) := (Sized(info, r, n), owner[r := FreeRuns]);
      && Detached(info1, owner, lo, hi, r) && KindsOk(info1, owner1)
      && SameUsedRuns(info, owner, info1, owner1) && FreeBytesGrow(info, owner, info1, owner1, r, n)
  {
    NotMerged(info, owner, lo, hi, r);
    NotMergedBytes(info, owner, r, InfoSize(info[r]));
  }

  lemma SplitReady(links: map<Addr, Link>, info: map<Addr, Info>, roots: map<TreeRef, Addr>, trees: map<TreeRef, Tree>,
                   owner: map<Addr, TreeRef>, lo: Addr, hi: Addr, r: Addr, size: nat)
    requires CoreOk(links, info, roots, trees, owner, lo, hi) && KindsOk(info, owner)
      && Detached(info, owner, lo, hi, r)
    requires size % 8 == 0 && RUN_HEADER_SIZE <= size && size + RUN_HEADER_SIZE <= InfoSize(info[r])
    ensures var info1 := Cut(info, r, InfoSize(info[r]), size);
      && CoreOk(links[r + size := Link(0, 0, 0, Black)][r := Link(0, 0, 0, Black)], info1, roots, trees, owner, lo, hi)
      && KindsOk(info1, owner) && Detached(info1, owner, lo, hi, r) && Detached(info1, owner, lo, hi, r + size)
      && SameUsedRuns(info, owner, info1, owner) && r + size !in owner
  {
    hide CoreOk, KindsOk, Detached, SameUsedRuns;
    CutRun(info, owner, lo, hi, r, size);
    DetachedFacts(info, owner, lo, hi, r);
    DetachedFacts(Cut(info, r, InfoSize(info[r]), size), owner, lo, hi, r + size);
    ReinitCore(links, info, roots, trees, owner, lo, hi, r + size, InfoSize(info[r]) - size);
    ReinitCore(links[r + size := Link(0, 0, 0, Black)], Sized(info, r + size, InfoSize(info[r]) - size),
               roots, trees, owner, lo, hi, r, size);
  }

  lemma SplitNone(info: map<Addr, Info>, owner: map<Addr, TreeRef>, r: Addr)
    requires KindsOk(info, owner) && r in info
    ensures SameUsedRuns(info, owner, info, owner) && FreeBytesMove(info, owner, info, owner, r, r, InfoSize(info[r]))
  {
  }

  /** After the rest of a split run has joined the free list. */
  lemma SplitDone(links0: map<Addr, Link>, info0: map<Addr, Info>, roots0: map<TreeRef, Addr>,
        trees0: map<TreeRef, Tree>, owner0: map<Addr, TreeRef>, links1: map<Addr, Link>, info1: map<Addr, Info>,
        roots1: map<TreeRef, Addr>, trees1: map<TreeRef, Tree>, owner1: map<Addr, TreeRef>, lo: Addr, hi: Addr,
        r: Addr, size: nat)
    requires CoreOk(links0, info0, roots0, trees0, owner0, lo, hi) && KindsOk(info0, owner0)
      && Detached(info0, owner0, lo, hi, r)
    requires size % 8 == 0 && RUN_HEADER_SIZE <= size && size + RUN_HEADER_SIZE <= InfoSize(info0[r])
    requires CoreOk(links1, info1, roots1, trees1, owner1, lo, hi)
    requires var (n, cut) := (InfoSize(info0[r]), Cut(info0, r, InfoSize(info0[r]), size));
      && SameUsedRuns(cut, owner0, info1, owner1) && FreeBytesGrow(cut, owner0, info1, owner1, r + size, n - size)
      && r in info1 && info1[r] == cut[r]
    ensures Detached(info1, owner1, lo, hi, r) && SameUsedRuns(info0, owner0, info1, owner1)
    ensures FreeBytesMove(info0, owner0, info1, owner1, r, r, InfoSize(info0[r]))
  {
    hide FreeByte, KindsOk, TreesOk, Apart;
    var (n, cut) := (InfoSize(info0[r]), Cut(info0, r, InfoSize(info0[r]), size));
    CutRun(info0, owner0, lo, hi, r, size);
    assert RunsOk(cut, owner0, lo, hi);
    StillDetached(cut, owner0, info1, owner1, lo, hi, r, r + size, n - size);
  }

  lemma LookupReady(links: map<Addr, Link>, info: map<Addr, Info>, roots: map<TreeRef, Addr>, trees: map<TreeRef, Tree>,
                    owner: map<Addr, TreeRef>, lo: Addr, hi: Addr, k: TreeRef)
    requires CoreOk(links, info, roots, trees, owner, lo, hi) && ValidRef(k)
    ensures k in roots && k in trees
    ensures Focus(links, roots[k], Top, trees[k]) && IsRedBlack(trees[k]) && Ordered(info, Inorder(trees[k]))
    ensures forall a :: a in Inorder(trees[k]) <==> a in owner && owner[a] == k
  {
    assert TreeOk(links, roots[k], trees[k], owner, k);
    TreeOrdered(info, owner, lo, hi, trees[k], k);
  }

  /** Writing the header of a run that is in no tree leaves all trees alone. */
  lemma ReinitHeader(links: map<Addr, Link>, info: map<Addr, Info>, roots: map<TreeRef, Addr>,
        trees: map<TreeRef, Tree>, owner: map<Addr, TreeRef>, lo: Addr, hi: Addr, run: Addr, h: Info)
    requires CoreOk(links, info, roots, trees, owner, lo, hi) && run !in owner
    ensures CoreOk(links[run := Link(0, 0, 0, Black)], info[run := h], roots, trees, owner, lo, hi)
  {
    var links1 := links[run := Link(0, 0, 0, Black)];
    forall k | ValidRef(k) ensures TreeOk(links1, roots[k], trees[k], owner, k) {
      FrameTree(links, links1, roots[k], trees[k], k, owner, owner, {run});
    }
  }

  lemma ReinitCore(links: map<Addr, Link>, info: map<Addr, Info>, roots: map<TreeRef, Addr>, trees: map<TreeRef, Tree>,
                   owner: map<Addr, TreeRef>, lo: Addr, hi: Addr, run: Addr, n: nat)
    requires CoreOk(links, info, roots, trees, owner, lo, hi) && run !in owner
    ensures CoreOk(links[run := Link(0, 0, 0, Black)], Sized(info, run, n), roots, trees, owner, lo, hi)
  {
    hide CoreOk;
    ReinitHeader(links, info, roots, trees, owner, lo, hi, run, Info(0, 0, n));
  }

  // ----- taking a run from the free list or from the end of the heap -----

  lemma TreeOrder(links: map<Addr, Link>, info: map<Addr, Info>, roots: map<TreeRef, Addr>, trees: map<TreeRef, Tree>,
                  owner: map<Addr, TreeRef>, lo: Addr, hi: Addr, k: TreeRef)
    requires CoreOk(links, info, roots, trees, owner, lo, hi) && ValidRef(k)
    ensures k in roots && k in trees && Focus(links, roots[k], Top, trees[k])
    ensures roots[k] == RootOf(trees[k]) && (roots[k] == 0 <==> trees[k].Leaf?)
    ensures trees[k].Node? ==> trees[k].addr in owner && owner[trees[k].addr] == k
    ensures Ascending(Inorder(trees[k])) && 0 !in Inorder(trees[k]) && 0 !in owner
    ensures forall a :: a in Inorder(trees[k]) <==> a in owner && owner[a] == k
    ensures forall a :: a in Inorder(trees[k]) ==> a in info
  {
    assert TreeOk(links, roots[k], trees[k], owner, k);
    NoNullNode(trees[k]);
    NodesAreInorder(trees[k]);
  }

  /** A run taken out of the tree that tracked it is detached. */
  lemma RemovedDetached(info: map<Addr, Info>, owner: map<Addr, TreeRef>, lo: Addr, hi: Addr, r: Addr)
    requires RunsOk(info, owner, lo, hi) && KindsOk(info, owner) && r in owner
    ensures Detached(info, owner - {r}, lo, hi, r) && KindsOk(info, owner - {r})
  {
  }

  lemma TrackedHasHeader(links: map<Addr, Link>, info: map<Addr, Info>, roots: map<TreeRef, Addr>,
        trees: map<TreeRef, Tree>, owner: map<Addr, TreeRef>, lo: Addr, hi: Addr, r: Addr)
    requires CoreOk(links, info, roots, trees, owner, lo, hi) && r in owner
    ensures r in links && r in info && ValidRef(owner[r]) && r != 0
  {
    assert TreeOk(links, roots[owner[r]], trees[owner[r]], owner, owner[r]);
    NodesAreInorder(trees[owner[r]]);
    RepInDomain(links, trees[owner[r]], 0);
  }

  lemma OwnersValid(links: map<Addr, Link>, info: map<Addr, Info>, roots: map<TreeRef, Addr>, trees: map<TreeRef, Tree>,
                    owner: map<Addr, TreeRef>, lo: Addr, hi: Addr)
    requires CoreOk(links, info, roots, trees, owner, lo, hi)
    ensures forall r :: r in owner ==> ValidRef(owner[r]) && r in info && r > 0
  {
  }

  lemma RemoveRunReady(links: map<Addr, Link>, info: map<Addr, Info>, roots: map<TreeRef, Addr>,
        trees: map<TreeRef, Tree>, owner: map<Addr, TreeRef>, lo: Addr, hi: Addr, r: Addr)
    requires CoreOk(links, info, roots, trees, owner, lo, hi) && KindsOk(info, owner) && r in owner
    ensures r in links && r in info && KindOk(info[r], owner[r])
    ensures Detached(info, owner - {r}, lo, hi, r) && KindsOk(info, owner - {r})
  {
    hide TreesOk;
    TrackedHasHeader(links, info, roots, trees, owner, lo, hi, r);
    RemovedDetached(info, owner, lo, hi, r);
  }

  /** Taking a free run that is then split. */
  lemma TakenFromFree(info0: map<Addr, Info>, owner0: map<Addr, TreeRef>, info1: map<Addr, Info>,
        owner1: map<Addr, TreeRef>, r: Addr, a: Addr)
    requires KindsOk(info0, owner0) && r in owner0 && owner0[r] == FreeRuns
    requires r in info1 && SameUsedRuns(info0, owner0 - {r}, info1, owner1)
    requires FreeBytesMove(info0, owner0 - {r}, info1, owner1, r, r, InfoSize(info0[r]))
    ensures SameUsedRuns(info0, owner0, info1, owner1)
    ensures FreeBytesMove(info0, owner0, info1, owner1, r, a, 0)
  {
    forall x: Addr ensures FreeByte(info0, owner0, x) <==> FreeByte(info0, owner0 - {r}, x) || Covers(info0, r, x) {
      if FreeByte(info0, owner0, x) {
        var s :| s in owner0 && owner0[s] == FreeRuns && Covers(info0, s, x);
        assert s == r || s in owner0 - {r};
      }
    }
  }

  /** The heap has grown by the run at its old end. */
  lemma ExtendedRuns(info: map<Addr, Info>, owner: map<Addr, TreeRef>, lo: Addr, hi: Addr, size: nat)
    requires RunsOk(info, owner, lo, hi) && KindsOk(info, owner)
    requires 0 < lo <= hi && hi % 8 == 0 && size % 8 == 0 && size >= RUN_HEADER_SIZE
    ensures var info1 := Sized(info, hi, size);
      && RunsOk(info1, owner, lo, hi + size) && Detached(info1, owner, lo, hi + size, hi) && KindsOk(info1, owner)
      && SameUsedRuns(info, owner, info1, owner) && hi !in owner
  {
  }

  lemma ExtendedBytes(info: map<Addr, Info>, owner: map<Addr, TreeRef>, hi: Addr, size: nat)
    requires hi !in owner
    ensures FreeBytesMove(info, owner, Sized(info, hi, size), owner, hi, hi, size)
  {
    var info1 := Sized(info, hi, size);
    forall x: Addr ensures FreeByte(info1, owner, x) <==> FreeByte(info, owner, x) {
      if FreeByte(info, owner, x) {
        var s :| s in owner && owner[s] == FreeRuns && Covers(info, s, x);
        assert Covers(info1, s, x);
      }
      if FreeByte(info1, owner, x) {
        var s :| s in owner && owner[s] == FreeRuns && Covers(info1, s, x);
        assert Covers(info, s, x);
      }
    }
  }

  lemma Extended(links: map<Addr, Link>, info: map<Addr, Info>, roots: map<TreeRef, Addr>, trees: map<TreeRef, Tree>,
                 owner: map<Addr, TreeRef>, lo: Addr, hi: Addr, size: nat)
    requires CoreOk(links, info, roots, trees, owner, lo, hi) && KindsOk(info, owner)
    requires 0 < lo <= hi && hi % 8 == 0 && size % 8 == 0 && size >= RUN_HEADER_SIZE
    ensures var info1 := Sized(info, hi, size);
      && CoreOk(links[hi := Link(0, 0, 0, Black)], info1, roots, trees, owner, lo, hi + size)
      && Detached(info1, owner, lo, hi + size, hi) && KindsOk(info1, owner)
      && SameUsedRuns(info, owner, info1, owner) && FreeBytesMove(info, owner, info1, owner, hi, hi, size)
    ensures hi !in owner
  {
    hide TreesOk, KindsOk, SameUsedRuns, FreeBytesMove, Detached;
    hide RunsOk;
    ExtendedRuns(info, owner, lo, hi, size);
    ExtendedBytes(info, owner, hi, size);
    ReinitCore(links, info, roots, trees, owner, lo, hi, hi, size);
  }

  // ----- runs for the bins -----

  /** The header of a bin run with all slots free. */
  function BinHeader(i: nat): Info
    requires i < BIN_COUNT && SlotsFor(BinSlotSize(i)) > 0
  {
    Info(SlotsFor(BinSlotSize(i)), BinSlotSize(i), Pow2(SlotsFor(BinSlotSize(i))) - 1)
  }

  lemma HeaderOpen(i: nat)
    requires i < BIN_COUNT && SlotsFor(BinSlotSize(i)) > 0
    ensures BinHeader(i).word != 0
  {
  }

  lemma BinRunKinds(info: map<Addr, Info>, owner: map<Addr, TreeRef>, lo: Addr, hi: Addr, r: Addr, i: nat)
    requires KindsOk(info, owner) && Detached(info, owner, lo, hi, r)
    requires i < BIN_COUNT && SlotsFor(BinSlotSize(i)) > 0 && InfoSize(info[r]) >= GetRunSize(BinSlotSize(i))
    requires GetRunSize(BinSlotSize(i)) == 512 || GetRunSize(BinSlotSize(i)) == 4096
    ensures Detached(info[r := BinHeader(i)], owner, lo, hi, r) && KindsOk(info[r := BinHeader(i)], owner[r := Bin(i)])
  {
    var info1 := info[r := BinHeader(i)];
    assert InfoSize(info1[r]) == GetRunSize(BinSlotSize(i));
  }

  /** A detached run of at least the bin's run size becomes a bin run with all slots free. */
  lemma BinRunReady(links: map<Addr, Link>, info: map<Addr, Info>, roots: map<TreeRef, Addr>, trees: map<TreeRef, Tree>,
                    owner: map<Addr, TreeRef>, lo: Addr, hi: Addr, r: Addr, i: nat)
    requires CoreOk(links, info, roots, trees, owner, lo, hi) && KindsOk(info, owner)
      && Detached(info, owner, lo, hi, r)
    requires i < BIN_COUNT && InfoSize(info[r]) >= GetRunSize(BinSlotSize(i))
    ensures SlotsFor(BinSlotSize(i)) > 0 && Detached(info[r := BinHeader(i)], owner, lo, hi, r)
    ensures CoreOk(links[r := Link(0, 0, 0, Black)], info[r := BinHeader(i)], roots, trees, owner, lo, hi)
    ensures KindsOk(info[r := BinHeader(i)], owner[r := Bin(i)])
    ensures InfoSize(BinHeader(i)) == GetRunSize(BinSlotSize(i))
  {
    hide KindsOk, CoreOk;
    SlotsFit(i);
    BinRunKinds(info, owner, lo, hi, r, i);
    ReinitHeader(links, info, roots, trees, owner, lo, hi, r, BinHeader(i));
  }

  /** The first run of an empty tree becomes its root. */
  lemma FirstRunDone(links: map<Addr, Link>, info: map<Addr, Info>, roots: map<TreeRef, Addr>,
        trees: map<TreeRef, Tree>, owner: map<Addr, TreeRef>, lo: Addr, hi: Addr, k: TreeRef, r: Addr)
    requires CoreOk(links, info, roots, trees, owner, lo, hi) && Detached(info, owner, lo, hi, r) && ValidRef(k)
    requires trees[k].Leaf? && r in links && links[r] == Link(0, 0, 0, Black)
    ensures CoreOk(links, info, roots[k := r], trees[k := Node(Leaf, r, Black, Leaf)], owner[r := k], lo, hi)
    ensures forall s :: s in owner ==> owner[s] != k
  {
    var t := Node(Leaf, r, Black, Leaf);
    assert TreeOk(links, roots[k], trees[k], owner, k);
    assert Inorder(trees[k]) == [];
    assert Inorder(t) == [r];
    assert RedBlack(Leaf, 0) && RedBlack(t, 1);
    assert Rep(links, Leaf, r) && Rep(links, t, 0) && Separate(t);
    assert TreeOk(links, r, t, owner[r := k], k);
    UpdateTree(links, links, roots, trees, owner, owner[r := k], k, r, t, r);
    RunAdded(info, owner, lo, hi, k, r);
  }

  // ----- conservation of bytes -----

  /** The tracked bytes and the `m` bytes at `b` are the old tracked bytes and the `n` bytes at `a`. */
  ghost predicate Conserved(info0: map<Addr, Info>, owner0: map<Addr, TreeRef>, info1: map<Addr, Info>,
        owner1: map<Addr, TreeRef>, a: Addr, n: nat, b: Addr, m: nat) {
    forall x: Addr :: TrackedByte(info1, owner1, x) || b <= x < b + m <==>
      TrackedByte(info0, owner0, x) || a <= x < a + n
  }

  ghost predicate UsedByte(info: map<Addr, Info>, owner: map<Addr, TreeRef>, x: Addr) {
    exists r :: r in owner && owner[r] != FreeRuns && Covers(info, r, x)
  }

  lemma TrackedIsFreeOrUsed(info: map<Addr, Info>, owner: map<Addr, TreeRef>, x: Addr)
    ensures TrackedByte(info, owner, x) <==> FreeByte(info, owner, x) || UsedByte(info, owner, x)
  {
  }

  lemma UsedFrame(info0: map<Addr, Info>, owner0: map<Addr, TreeRef>, info1: map<Addr, Info>,
        owner1: map<Addr, TreeRef>, x: Addr)
    requires SameUsedRuns(info0, owner0, info1, owner1)
    ensures UsedByte(info0, owner0, x) <==> UsedByte(info1, owner1, x)
  {
    if UsedByte(info0, owner0, x) {
      var r :| r in owner0 && owner0[r] != FreeRuns && Covers(info0, r, x);
      assert r in owner1 && Covers(info1, r, x);
    }
    if UsedByte(info1, owner1, x) {
      var r :| r in owner1 && owner1[r] != FreeRuns && Covers(info1, r, x);
      assert r in owner0 && Covers(info0, r, x);
    }
  }

  /** A run detached from the free list or the end of the heap is put to use with header `h`. */
  lemma ConservedUse(info0: map<Addr, Info>, owner0: map<Addr, TreeRef>, info1: map<Addr, Info>,
        owner1: map<Addr, TreeRef>, r: Addr, h: Info, k: TreeRef, a: Addr, n: nat)
    requires SameUsedRuns(info0, owner0, info1, owner1) && r in info1 && r !in owner1 && k != FreeRuns
    requires FreeBytesMove(info0, owner0, info1, owner1, r, a, n) && InfoSize(h) <= InfoSize(info1[r])
    ensures Conserved(info0, owner0, info1[r := h], owner1[r := k], a, n, r + InfoSize(h),
      InfoSize(info1[r]) - InfoSize(h))
  {
    var (info2, owner2) := (info1[r := h], owner1[r := k]);
    forall x: Addr
      ensures TrackedByte(info2, owner2, x) <==> TrackedByte(info1, owner1, x) || r <= x < r + InfoSize(h)
    {
      if TrackedByte(info1, owner1, x) {
        var s :| s in owner1 && Covers(info1, s, x);
        assert Covers(info2, s, x);
      }
      if r <= x < r + InfoSize(h) {
        assert Covers(info2, r, x);
      }
      if TrackedByte(info2, owner2, x) {
        var s :| s in owner2 && Covers(info2, s, x);
        assert s == r || Covers(info1, s, x);
      }
    }
    forall x: Addr
      ensures TrackedByte(info1, owner1, x) || r <= x < r + InfoSize(info1[r]) <==>
        TrackedByte(info0, owner0, x) || a <= x < a + n
    {
      TrackedIsFreeOrUsed(info0, owner0, x);
      TrackedIsFreeOrUsed(info1, owner1, x);
      UsedFrame(info0, owner0, info1, owner1, x);
    }
  }

  /** A used run goes back to the free list whole. */
  lemma ConservedRelease(info0: map<Addr, Info>, owner0: map<Addr, TreeRef>, info1: map<Addr, Info>,
        owner1: map<Addr, TreeRef>, r: Addr)
    requires r in owner0 && r in info0 && owner0[r] != FreeRuns
    requires SameUsedRuns(info0, owner0 - {r}, info1, owner1)
    requires FreeBytesGrow(info0, owner0 - {r}, info1, owner1, r, InfoSize(info0[r]))
    ensures Conserved(info0, owner0, info1, owner1, 0, 0, 0, 0)
  {
    forall x: Addr ensures TrackedByte(info1, owner1, x) <==> TrackedByte(info0, owner0, x) {
      TrackedIsFreeOrUsed(info1, owner1, x);
      TrackedIsFreeOrUsed(info0, owner0 - {r}, x);
      UsedFrame(info0, owner0 - {r}, info1, owner1, x);
      if TrackedByte(info0, owner0, x) {
        var s :| s in owner0 && Covers(info0, s, x);
        assert s == r || s in owner0 - {r};
      }
    }
  }
}
