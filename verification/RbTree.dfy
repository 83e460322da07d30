/** The intrusive red-black tree of runs: rotations, lookup and insertion. */
module RbTree {
  import opened Powers
  import opened RbTreeModel
  import opened RunMemory

  ghost function RotatedLeft(t: Tree): Tree
    requires t.Node? && t.right.Node?
  {
    var q := t.right;
    Node(Node(t.left, t.addr, t.color, q.left), q.addr, q.color, q.right)
  }

  ghost function RotatedRight(t: Tree): Tree
    requires t.Node? && t.left.Node?
  {
    var q := t.left;
    Node(q.left, q.addr, q.color, Node(q.right, t.addr, t.color, t.right))
  }

  /** Changes the colour of one node. */
  method Paint(m: Memory, color: Color, node: Addr, root: Addr, ghost c: Ctx, ghost t: Tree)
    requires Focus(m.links, root, c, t) && t.Node? && t.addr == node
    modifies m`links
    ensures Focus(m.links, root, c, t.(color := color))
    ensures m.links.Keys == old(m.links.Keys) && SameOutside(old(m.links), m.links, {node})
  {
    m.SetColor(color, node);
    FrameRep(old(m.links), m.links, t.left, t.addr, {node});
    FrameRep(old(m.links), m.links, t.right, t.addr, {node});
    FrameRepCtx(old(m.links), m.links, c, node, {node});
  }

  /** The nodes of a rotation around `p` and its child `q` with inner grandchild `b` and parent `u`
      are present and distinct. */
  ghost predicate RotationSite(links: map<Addr, Link>, p: Addr, q: Addr, b: Addr, u: Addr) {
    && p in links && q in links && links[p].parent == u
    && (b != 0 ==> b in links && b != u) && (u != 0 ==> u in links)
    && p != 0 && q != 0 && p != q && p != b && q != b && p != u && q != u
  }

  lemma RotationSiteLeft(links: map<Addr, Link>, root: Addr, c: Ctx, t: Tree)
    requires Focus(links, root, c, t) && t.Node? && t.right.Node?
    ensures RotationSite(links, t.addr, t.right.addr, RootOf(t.right.left), ParentOf(c))
    ensures links[t.addr] == Link(ParentOf(c), RootOf(t.left), t.right.addr, t.color)
    ensures links[t.right.addr] == Link(t.addr, RootOf(t.right.left), RootOf(t.right.right), t.right.color)
    ensures ParentOf(c) != 0 ==> (links[ParentOf(c)].left == t.addr <==> c.InLeft?)
    ensures (RootOf(t.right.left) != 0 <==> t.right.left.Node?) && (ParentOf(c) != 0 <==> !c.Top?)
  {
    NoNullNode(t);
    assert Separate(t.right);
    NoNullNode(t.right);
    NoNullNode(t.right.left);
    NoNullCtx(c);
    assert Rep(links, t.right, t.addr);
    assert Rep(links, t.right.left, t.right.addr);
    if c.InRight? {
      NoNullNode(c.left);
    }
  }

  lemma RotationEffectLeft(l0: map<Addr, Link>, l1: map<Addr, Link>, root: Addr, c: Ctx, t: Tree)
    requires Focus(l0, root, c, t) && t.Node? && t.right.Node?
    requires SameOutside(l0, l1, {t.addr, t.right.addr, ParentOf(c), RootOf(t.right.left)} - {0})
    requires var (p, q, b, u) := (t.addr, t.right.addr, RootOf(t.right.left), ParentOf(c));
      && p in l1 && l1[p] == Link(q, RootOf(t.left), b, t.color)
      && q in l1 && l1[q] == Link(u, p, RootOf(t.right.right), t.right.color)
      && (t.right.left.Node? ==> b in l0 && b in l1 && l1[b] == l0[b].(parent := p))
      && (!c.Top? ==> u in l0 && u in l1 && l1[u] == HoleLink(c, l0[u], q))
    ensures Focus(l1, CtxRoot(c, t.right.addr), c, RotatedLeft(t))
    ensures SameOutside(l0, l1, CtxNodes(c) + Nodes(t))
  {
    var (p, q, b, u) := (t.addr, t.right.addr, t.right.left, ParentOf(c));
    var s := {p, q, u, RootOf(b)} - {0};
    NoNullNode(t);
    assert Separate(t.right);
    NoNullNode(t.right);
    NoNullNode(b);
    NoNullCtx(c);
    FrameRep(l0, l1, t.left, p, s);
    assert Rep(l0, t.right, p);
    FrameRep(l0, l1, t.right.right, q, s);
    FrameRepParent(l0, l1, b, q, p, s);
    FrameRepCtxHole(l0, l1, c, p, q, s);
  }

  /** Puts `q` where `p` hangs, below `parent` or at the root. */
  method ReplaceChild(m: Memory, parent: Addr, p: Addr, q: Addr, root: Addr) returns (root': Addr)
    requires parent != 0 ==> parent in m.links
    modifies m`links
    ensures parent == 0 ==> m.links == old(m.links) && root' == q
    ensures parent != 0 ==>
      && root' == root
      && m.links == old(m.links)[parent := if old(m.links)[parent].left == p
                                           then old(m.links)[parent].(left := q)
                                           else old(m.links)[parent].(right := q)]
  {
    root' := root;
    if parent != 0 {
      if m.links[parent].left == p {
        m.SetLeft(q, parent);
      } else {
        m.SetRight(q, parent);
      }
    } else {
      root' := q;
    }
  }

  /** The links after a left rotation around `p`, one store after another. */
  ghost function RelinkedLeft(l: map<Addr, Link>, p: Addr): map<Addr, Link>
    requires p in l && l[p].right in l
    requires RotationSite(l, p, l[p].right, l[l[p].right].left, l[p].parent)
  {
    var (q, u) := (l[p].right, l[p].parent);
    var l1 := if u == 0 then l else l[u := if l[u].left == p then l[u].(left := q) else l[u].(right := q)];
    var l2 := l1[q := l1[q].(parent := u)];
    var l3 := l2[p := l2[p].(parent := q)];
    var l4 := l3[p := l3[p].(right := l3[q].left)];
    var b := l4[p].right;
    var l5 := if b == 0 then l4 else l4[b := l4[b].(parent := p)];
    l5[q := l5[q].(left := p)]
  }

  lemma RelinkedLeftLinks(l0: map<Addr, Link>, p: Addr)
    requires p in l0 && l0[p].right in l0
    requires RotationSite(l0, p, l0[p].right, l0[l0[p].right].left, l0[p].parent)
    ensures var (l1, q) := (RelinkedLeft(l0, p), l0[p].right);
      var (b, u) := (l0[q].left, l0[p].parent);
      && l1.Keys == l0.Keys && SameOutside(l0, l1, {p, q, u, b} - {0})
      && l1[p] == l0[p].(parent := q, right := b)
      && l1[q] == l0[q].(parent := u, left := p)
      && (b != 0 ==> l1[b] == l0[b].(parent := p))
      && (u != 0 ==> l1[u] == if l0[u].left == p then l0[u].(left := q) else l0[u].(right := q))
  {
  }

  method RelinkLeft(m: Memory, node: Addr, root: Addr) returns (root': Addr)
    requires node in m.links && m.links[node].right in m.links
    requires RotationSite(m.links, node, m.links[node].right, m.links[m.links[node].right].left, m.links[node].parent)
    modifies m`links
    ensures m.links == RelinkedLeft(old(m.links), node)
    ensures root' == if old(m.links)[node].parent == 0 then old(m.links)[node].right else root
  {
    var p := node;
    var q := m.links[p].right;
    var parent := m.links[p].parent;
    root' := ReplaceChild(m, parent, p, q, root);
    m.SetParent(parent, q);
    m.SetParent(q, p);
    m.SetRight(m.links[q].left, p);
    if m.links[p].right != 0 {
      m.SetParent(p, m.links[p].right);
    }
    m.SetLeft(p, q);
  }

  method RotateLeft(m: Memory, node: Addr, root: Addr, ghost c: Ctx, ghost t: Tree) returns (root': Addr)
    requires Focus(m.links, root, c, t) && t.Node? && t.addr == node && t.right.Node?
    modifies m`links
    ensures Focus(m.links, root', c, RotatedLeft(t))
    ensures m.links.Keys == old(m.links.Keys) && SameOutside(old(m.links), m.links, CtxNodes(c) + Nodes(t))
  {
    RotationSiteLeft(m.links, root, c, t);
    root' := RelinkLeft(m, node, root);
    RelinkedLeftLinks(old(m.links), node);
    RotationEffectLeft(old(m.links), m.links, root, c, t);
  }

  lemma RotationSiteRight(links: map<Addr, Link>, root: Addr, c: Ctx, t: Tree)
    requires Focus(links, root, c, t) && t.Node? && t.left.Node?
    ensures RotationSite(links, t.addr, t.left.addr, RootOf(t.left.right), ParentOf(c))
    ensures links[t.addr] == Link(ParentOf(c), t.left.addr, RootOf(t.right), t.color)
    ensures links[t.left.addr] == Link(t.addr, RootOf(t.left.left), RootOf(t.left.right), t.left.color)
    ensures ParentOf(c) != 0 ==> (links[ParentOf(c)].left == t.addr <==> c.InLeft?)
    ensures (RootOf(t.left.right) != 0 <==> t.left.right.Node?) && (ParentOf(c) != 0 <==> !c.Top?)
  {
    NoNullNode(t);
    assert Separate(t.left);
    NoNullNode(t.left);
    NoNullNode(t.left.right);
    NoNullCtx(c);
    assert Rep(links, t.left, t.addr);
    assert Rep(links, t.left.right, t.left.addr);
    if c.InRight? {
      NoNullNode(c.left);
    }
  }

  lemma RotationEffectRight(l0: map<Addr, Link>, l1: map<Addr, Link>, root: Addr, c: Ctx, t: Tree)
    requires Focus(l0, root, c, t) && t.Node? && t.left.Node?
    requires SameOutside(l0, l1, {t.addr, t.left.addr, ParentOf(c), RootOf(t.left.right)} - {0})
    requires var (p, q, b, u) := (t.addr, t.left.addr, RootOf(t.left.right), ParentOf(c));
      && p in l1 && l1[p] == Link(q, b, RootOf(t.right), t.color)
      && q in l1 && l1[q] == Link(u, RootOf(t.left.left), p, t.left.color)
      && (t.left.right.Node? ==> b in l0 && b in l1 && l1[b] == l0[b].(parent := p))
      && (!c.Top? ==> u in l0 && u in l1 && l1[u] == HoleLink(c, l0[u], q))
    ensures Focus(l1, CtxRoot(c, t.left.addr), c, RotatedRight(t))
    ensures SameOutside(l0, l1, CtxNodes(c) + Nodes(t))
  {
    var (p, q, b, u) := (t.addr, t.left.addr, t.left.right, ParentOf(c));
    var s := {p, q, u, RootOf(b)} - {0};
    NoNullNode(t);
    assert Separate(t.left);
    NoNullNode(t.left);
    NoNullNode(b);
    NoNullCtx(c);
    FrameRep(l0, l1, t.right, p, s);
    assert Rep(l0, t.left, p);
    FrameRep(l0, l1, t.left.left, q, s);
    FrameRepParent(l0, l1, b, q, p, s);
    FrameRepCtxHole(l0, l1, c, p, q, s);
  }

  /** The links after a right rotation around `p`, one store after another. */
  ghost function RelinkedRight(l: map<Addr, Link>, p: Addr): map<Addr, Link>
    requires p in l && l[p].left in l
    requires RotationSite(l, p, l[p].left, l[l[p].left].right, l[p].parent)
  {
    var (q, u) := (l[p].left, l[p].parent);
    var l1 := if u == 0 then l else l[u := if l[u].left == p then l[u].(left := q) else l[u].(right := q)];
    var l2 := l1[q := l1[q].(parent := u)];
    var l3 := l2[p := l2[p].(parent := q)];
    var l4 := l3[p := l3[p].(left := l3[q].right)];
    var b := l4[p].left;
    var l5 := if b == 0 then l4 else l4[b := l4[b].(parent := p)];
    l5[q := l5[q].(right := p)]
  }

  lemma RelinkedRightLinks(l0: map<Addr, Link>, p: Addr)
    requires p in l0 && l0[p].left in l0
    requires RotationSite(l0, p, l0[p].left, l0[l0[p].left].right, l0[p].parent)
    ensures var (l1, q) := (RelinkedRight(l0, p), l0[p].left);
      var (b, u) := (l0[q].right, l0[p].parent);
      && l1.Keys == l0.Keys && SameOutside(l0, l1, {p, q, u, b} - {0})
      && l1[p] == l0[p].(parent := q, left := b)
      && l1[q] == l0[q].(parent := u, right := p)
      && (b != 0 ==> l1[b] == l0[b].(parent := p))
      && (u != 0 ==> l1[u] == if l0[u].left == p then l0[u].(left := q) else l0[u].(right := q))
  {
  }

  method RelinkRight(m: Memory, node: Addr, root: Addr) returns (root': Addr)
    requires node in m.links && m.links[node].left in m.links
    requires RotationSite(m.links, node, m.links[node].left, m.links[m.links[node].left].right, m.links[node].parent)
    modifies m`links
    ensures m.links == RelinkedRight(old(m.links), node)
    ensures root' == if old(m.links)[node].parent == 0 then old(m.links)[node].left else root
  {
    var p := node;
    var q := m.links[p].left;
    var parent := m.links[p].parent;
    root' := ReplaceChild(m, parent, p, q, root);
    m.SetParent(parent, q);
    m.SetParent(q, p);
    m.SetLeft(m.links[q].right, p);
    if m.links[p].left != 0 {
      m.SetParent(p, m.links[p].left);
    }
    m.SetRight(p, q);
  }

  method RotateRight(m: Memory, node: Addr, root: Addr, ghost c: Ctx, ghost t: Tree) returns (root': Addr)
    requires Focus(m.links, root, c, t) && t.Node? && t.addr == node && t.left.Node?
    modifies m`links
    ensures Focus(m.links, root', c, RotatedRight(t))
    ensures m.links.Keys == old(m.links.Keys) && SameOutside(old(m.links), m.links, CtxNodes(c) + Nodes(t))
  {
    RotationSiteRight(m.links, root, c, t);
    root' := RelinkRight(m, node, root);
    RelinkedRightLinks(old(m.links), node);
    RotationEffectRight(old(m.links), m.links, root, c, t);
  }

  // ----- lookup -----

  /** Address `k` lies inside run `a`. */
  predicate Covers(info: map<Addr, Info>, a: Addr, k: Addr) {
    a in info && a <= k < a + InfoSize(info[a])
  }

  /** The runs of `s` are in ascending address order and do not overlap. */
  ghost predicate Ordered(info: map<Addr, Info>, s: seq<Addr>) {
    && (forall i :: 0 <= i < |s| ==> s[i] in info && InfoSize(info[s[i]]) > 0)
    && (forall i, j :: 0 <= i < j < |s| ==> s[i] + InfoSize(info[s[i]]) <= s[j])
  }

  /** 0 when `key` lies in the run at `node`, 1 when it lies below it, -1 when above. */
  function CompareRuns(info: map<Addr, Info>, key: Addr, node: Addr): (r: int)
    requires node in info
    ensures InfoSize(info[node]) > 0 ==> (r == 0 <==> Covers(info, node, key))
    ensures r > 0 <==> key < node
  {
    var delta := key as int - node as int;
    if delta == 0 then 0
    else if delta < 0 then 1
    else if delta < InfoSize(info[node]) then 0
    else -1
  }

  /** Reference lookup: the first run of `s` that contains `key`, or null. */
  function Scan(info: map<Addr, Info>, s: seq<Addr>, key: Addr): Addr {
    if s == [] then 0 else if Covers(info, s[0], key) then s[0] else Scan(info, s[1..], key)
  }

  lemma {:induction false} ScanFinds(info: map<Addr, Info>, s: seq<Addr>, key: Addr, a: Addr)
    requires Ordered(info, s) && a in s && Covers(info, a, key)
    ensures Scan(info, s, key) == a
  {
    if a != s[0] {
      ScanFinds(info, s[1..], key, a);
    }
  }

  lemma {:induction false} ScanMisses(info: map<Addr, Info>, s: seq<Addr>, key: Addr)
    requires forall a :: a in s ==> !Covers(info, a, key)
    ensures Scan(info, s, key) == 0
  {
    if s != [] {
      ScanMisses(info, s[1..], key);
    }
  }

  /** Everything before position `c` ends at or below `key`, everything after starts above it. */
  ghost predicate Between(info: map<Addr, Info>, c: Ctx, key: Addr) {
    && (forall a :: a in Below(c) ==> a in info && a + InfoSize(info[a]) <= key)
    && (forall a :: a in Above(c) ==> a in info && key < a)
  }

  /** A lookup that has reached (`c`, `t`) in a tree of runs `order`. */
  ghost predicate Searching(info: map<Addr, Info>, c: Ctx, t: Tree, key: Addr, order: seq<Addr>) {
    Below(c) + Inorder(t) + Above(c) == order && Ordered(info, order) && Between(info, c, key)
  }

  lemma SearchLeft(info: map<Addr, Info>, c: Ctx, t: Tree, key: Addr, order: seq<Addr>)
    requires Searching(info, c, t, key, order) && t.Node? && key < t.addr
    ensures Searching(info, InLeft(t.addr, t.color, t.right, c), t.left, key, order)
  {
    var k := |Below(c)| + |Inorder(t.left)|;
    assert order[k] == t.addr;
    forall a | a in Inorder(t.right)
      ensures a in info && key < a
    {
      var i :| 0 <= i < |Inorder(t.right)| && Inorder(t.right)[i] == a;
      assert order[k + 1 + i] == a;
    }
    Reassociate(Below(c), Inorder(t.left), [t.addr], Inorder(t.right), Above(c));
  }

  lemma SearchRight(info: map<Addr, Info>, c: Ctx, t: Tree, key: Addr, order: seq<Addr>)
    requires Searching(info, c, t, key, order) && t.Node?
    requires t.addr in info && t.addr + InfoSize(info[t.addr]) <= key
    ensures Searching(info, InRight(t.left, t.addr, t.color, c), t.right, key, order)
  {
    assert order[|Below(c)| + |Inorder(t.left)|] == t.addr;
    forall a | a in Inorder(t.left)
      ensures a in info && a + InfoSize(info[a]) <= key
    {
      var i :| 0 <= i < |Inorder(t.left)| && Inorder(t.left)[i] == a;
      assert order[|Below(c)| + i] == a;
    }
    Reassociate(Below(c), Inorder(t.left), [t.addr], Inorder(t.right), Above(c));
  }

  lemma SearchHit(info: map<Addr, Info>, c: Ctx, t: Tree, key: Addr, order: seq<Addr>)
    requires Searching(info, c, t, key, order) && t.Node?
    ensures t.addr in order && t.addr in info && InfoSize(info[t.addr]) > 0
    ensures Covers(info, t.addr, key) ==> Scan(info, order, key) == t.addr
  {
    assert order[|Below(c)| + |Inorder(t.left)|] == t.addr;
    if Covers(info, t.addr, key) {
      ScanFinds(info, order, key, t.addr);
    }
  }

  /** The result of a scan, on ordered runs. */
  lemma ScanIsUnique(info: map<Addr, Info>, order: seq<Addr>, key: Addr)
    requires Ordered(info, order)
    ensures forall a :: a in order && Covers(info, a, key) ==> a == Scan(info, order, key)
  {
    forall a | a in order && Covers(info, a, key) ensures a == Scan(info, order, key) {
      ScanFinds(info, order, key, a);
    }
  }

  /** Walks down from the root. Also tells where a missing key would hang. */
  method DoLookup(m: Memory, key: Addr, tree: Addr, ghost t: Tree)
    returns (node: Addr, parent: Addr, isLeft: bool, ghost c: Ctx, ghost s: Tree, ghost steps: nat)
    requires Focus(m.links, tree, Top, t) && Ordered(m.info, Inorder(t))
    ensures Focus(m.links, tree, c, s) && Plug(c, s) == t && node == RootOf(s)
    ensures node == Scan(m.info, Inorder(t), key)
    ensures node != 0 ==> node in Inorder(t) && Covers(m.info, node, key)
    ensures node == 0 ==> s == Leaf && parent == ParentOf(c) && (isLeft <==> c.InLeft?)
    ensures node == 0 ==> Searching(m.info, c, s, key, Inorder(t))
    ensures steps <= Height(t)
  {
    c, s, steps := Top, t, 0;
    node, parent, isLeft := tree, 0, false;
    assert [] + Inorder(t) + [] == Inorder(t);
    while node != 0
      invariant Focus(m.links, tree, c, s) && Plug(c, s) == t && node == RootOf(s)
      invariant parent == ParentOf(c) && (isLeft <==> c.InLeft?)
      invariant Searching(m.info, c, s, key, Inorder(t))
      invariant steps + Height(s) <= Height(t)
      decreases s
    {
      steps := steps + 1;
      SearchHit(m.info, c, s, key, Inorder(t));
      var res := CompareRuns(m.info, key, node);
      if res == 0 {
        return;
      }
      parent := node;
      isLeft := res > 0;
      FocusDown(m.links, tree, c, s);
      if isLeft {
        SearchLeft(m.info, c, s, key, Inorder(t));
        node := m.links[node].left;
        c, s := InLeft(s.addr, s.color, s.right, c), s.left;
      } else {
        SearchRight(m.info, c, s, key, Inorder(t));
        node := m.links[node].right;
        c, s := InRight(s.left, s.addr, s.color, c), s.right;
      }
    }
    NoNullNode(s);
    assert forall a :: a in Inorder(t) ==> a in Below(c) || a in Above(c);
    ScanMisses(m.info, Inorder(t), key);
  }

  /** The run that contains `key`, found in at most 2 log2(n + 1) + 1 comparisons of `n` runs. */
  method Lookup(m: Memory, key: Addr, tree: Addr, ghost t: Tree) returns (node: Addr, ghost steps: nat)
    requires Focus(m.links, tree, Top, t) && Ordered(m.info, Inorder(t)) && IsRedBlack(t)
    ensures node == Scan(m.info, Inorder(t), key)
    ensures node != 0 ==> node in Inorder(t) && Covers(m.info, node, key)
    ensures forall a :: a in Inorder(t) && Covers(m.info, a, key) ==> a == node
    ensures Pow2((steps + 1) / 2) <= |Inorder(t)| + 1
  {
    var parent, isLeft;
    ghost var c, s;
    node, parent, isLeft, c, s, steps := DoLookup(m, key, tree, t);
    ghost var h :| RedBlack(t, h);
    HeightBound(t, h);
    ScanIsUnique(m.info, Inorder(t), key);
    Pow2Monotone((steps + 1) / 2, h);
  }

  // ----- insertion -----

  function Depth(c: Ctx): nat
    decreases c
  {
    if c.Top? then 0 else 1 + Depth(c.up)
  }

  /** The subtree one level up. */
  ghost function Parent(c: Ctx, t: Tree): (p: Tree)
    requires !c.Top?
    ensures p.Node?
  {
    if c.InLeft? then Node(t, c.addr, c.color, c.right) else Node(c.left, c.addr, c.color, t)
  }

  lemma ParentOrder(c: Ctx, t: Tree)
    requires !c.Top?
    ensures Below(c.up) + Inorder(Parent(c, t)) + Above(c.up) == Below(c) + Inorder(t) + Above(c)
    ensures CtxNodes(c.up) + Nodes(Parent(c, t)) == CtxNodes(c) + Nodes(t)
  {
    if c.InLeft? {
      Reassociate(Below(c.up), Inorder(t), [c.addr], Inorder(c.right), Above(c.up));
    } else {
      Reassociate(Below(c.up), Inorder(c.left), [c.addr], Inorder(t), Above(c.up));
    }
  }

  /** The grandparent's subtree once parent and uncle are black and the grandparent red. */
  ghost function Recolored(c: Ctx, t: Tree): Tree
    requires !c.Top? && !c.up.Top?
    requires c.up.InLeft? ==> c.up.right.Node?
    requires c.up.InRight? ==> c.up.left.Node?
  {
    var p := Parent(c, t);
    var pt := p.(color := Black);
    if c.up.InLeft?
    then Node(pt, c.up.addr, Red, c.up.right.(color := Black))
    else Node(c.up.left.(color := Black), c.up.addr, Red, pt)
  }

  lemma RecoloredInserting(c: Ctx, t: Tree, h: nat)
    requires t.Node? && t.color == Red && RedBlack(t, h) && RedBlackCtx(c, h)
    requires !c.Top? && c.color == Red
    requires c.up.InLeft? ==> !IsBlack(c.up.right)
    requires c.up.InRight? ==> !IsBlack(c.up.left)
    ensures RedBlack(Recolored(c, t), h + 1) && RedBlackCtx(c.up.up, h + 1)
  {
    var p := Parent(c, t);
    var pt := p.(color := Black);
    assert RedBlackCtx(c.up, h);
    assert RedBlack(pt, h + 1);
    var ut := if c.up.InLeft? then c.up.right else c.up.left;
    assert RedBlack(ut, h);
    assert RedBlack(ut.(color := Black), h + 1);
  }

  lemma RecoloredOrder(c: Ctx, t: Tree)
    requires !c.Top? && !c.up.Top?
    requires c.up.InLeft? ==> c.up.right.Node?
    requires c.up.InRight? ==> c.up.left.Node?
    ensures Below(c.up.up) + Inorder(Recolored(c, t)) + Above(c.up.up) == Below(c) + Inorder(t) + Above(c)
    ensures CtxNodes(c.up.up) + Nodes(Recolored(c, t)) == CtxNodes(c) + Nodes(t)
  {
    var pt := Parent(c, t);
    ParentOrder(c, t);
    ParentOrder(c.up, pt);
    var ut := if c.up.InLeft? then c.up.right else c.up.left;
    assert Inorder(pt.(color := Black)) == Inorder(pt) && Inorder(ut.(color := Black)) == Inorder(ut);
  }

  /** Position of the low red node after the rotations: the red node left of its parent is `t`,
      the parent takes the grandparent's place. */
  ghost function RotatedCtx(c: Ctx): Ctx
    requires !c.Top? && !c.up.Top?
  {
    var (p, g, u) := (c.addr, c.up.addr, c.up.up);
    if c.InLeft? && c.up.InLeft? then InLeft(p, Black, Node(c.right, g, Red, c.up.right), u)
    else if c.InRight? && c.up.InRight? then InRight(Node(c.up.left, g, Red, c.left), p, Black, u)
    else c
  }

  lemma RotatedInserting(c: Ctx, t: Tree, h: nat)
    requires t.Node? && t.color == Red && RedBlack(t, h) && RedBlackCtx(c, h)
    requires !c.Top? && c.color == Red
    requires (c.InLeft? && c.up.InLeft? && IsBlack(c.up.right)) || (c.InRight? && c.up.InRight? && IsBlack(c.up.left))
    ensures RedBlackCtx(RotatedCtx(c), h) && CtxBlack(RotatedCtx(c))
  {
    assert RedBlackCtx(c.up, h);
  }

  lemma RotatedOrder(c: Ctx)
    requires !c.Top? && !c.up.Top?
    ensures Below(RotatedCtx(c)) == Below(c) && Above(RotatedCtx(c)) == Above(c)
    ensures CtxNodes(RotatedCtx(c)) == CtxNodes(c)
  {
    if c.InLeft? && c.up.InLeft? {
      Reassociate([c.addr], Inorder(c.right), [c.up.addr], Inorder(c.up.right), Above(c.up.up));
    } else if c.InRight? && c.up.InRight? {
      Reassociate(Below(c.up.up), Inorder(c.up.left), [c.up.addr], Inorder(c.left), [c.addr]);
    }
  }

  /** Position of an inner red child after it was turned outward: its former parent becomes the focus. */
  ghost function TurnedCtx(c: Ctx, t: Tree): Ctx
    requires !c.Top? && t.Node?
  {
    if c.InRight? then InLeft(t.addr, Red, t.right, c.up) else InRight(t.left, t.addr, Red, c.up)
  }

  ghost function Turned(c: Ctx, t: Tree): Tree
    requires !c.Top? && t.Node?
  {
    if c.InRight? then Node(c.left, c.addr, Red, t.left) else Node(t.right, c.addr, Red, c.right)
  }

  lemma TurnedInserting(c: Ctx, t: Tree, h: nat)
    requires t.Node? && t.color == Red && RedBlack(t, h) && RedBlackCtx(c, h)
    requires !c.Top? && c.color == Red
    ensures RedBlack(Turned(c, t), h) && RedBlackCtx(TurnedCtx(c, t), h)
  {
  }

  lemma TurnedOrder(c: Ctx, t: Tree)
    requires !c.Top? && t.Node?
    ensures var (c', t') := (TurnedCtx(c, t), Turned(c, t));
      && Below(c') + Inorder(t') + Above(c') == Below(c) + Inorder(t) + Above(c)
      && CtxNodes(c') + Nodes(t') == CtxNodes(c) + Nodes(t)
  {
    if c.InRight? {
      Redistribute(Below(c.up), Inorder(c.left), [c.addr], Inorder(t.left), [t.addr], Inorder(t.right), Above(c.up));
    } else {
      Redistribute(Below(c.up), Inorder(t.left), [t.addr], Inorder(t.right), [c.addr], Inorder(c.right), Above(c.up));
    }
  }

  /** What the fix-up maintains: the tree is red-black except that the red node `t` may have a red parent. */
  ghost predicate Inserting(c: Ctx, t: Tree, h: nat, order: seq<Addr>, nodes: set<Addr>) {
    && t.Node? && t.color == Red && RedBlack(t, h) && RedBlackCtx(c, h)
    && Below(c) + Inorder(t) + Above(c) == order
    && CtxNodes(c) + Nodes(t) == nodes
  }

  lemma RecolorStep(c: Ctx, t: Tree, h: nat, order: seq<Addr>, nodes: set<Addr>)
    requires Inserting(c, t, h, order, nodes) && !c.Top? && c.color == Red
    requires c.up.InLeft? ==> !IsBlack(c.up.right)
    requires c.up.InRight? ==> !IsBlack(c.up.left)
    ensures Inserting(c.up.up, Recolored(c, t), h + 1, order, nodes) && Depth(c.up.up) < Depth(c)
  {
    RecoloredInserting(c, t, h);
    RecoloredOrder(c, t);
  }

  /** Where the low red node is once an inner red child has been turned outward. */
  ghost function OuterCtx(c: Ctx, t: Tree): Ctx
    requires !c.Top? && !c.up.Top? && t.Node?
  {
    if c.InLeft? == c.up.InLeft? then c else TurnedCtx(c, t)
  }

  ghost function Outer(c: Ctx, t: Tree): Tree
    requires !c.Top? && !c.up.Top? && t.Node?
  {
    if c.InLeft? == c.up.InLeft? then t else Turned(c, t)
  }

  lemma RotateStep(c: Ctx, t: Tree, h: nat, order: seq<Addr>, nodes: set<Addr>)
    requires Inserting(c, t, h, order, nodes) && !c.Top? && c.color == Red
    requires c.up.InLeft? ==> IsBlack(c.up.right)
    requires c.up.InRight? ==> IsBlack(c.up.left)
    ensures var c' := RotatedCtx(OuterCtx(c, t));
      Inserting(c', Outer(c, t), h, order, nodes) && CtxBlack(c') && Depth(c') < Depth(c)
  {
    TurnedInserting(c, t, h);
    TurnedOrder(c, t);
    RotatedInserting(OuterCtx(c, t), Outer(c, t), h);
    RotatedOrder(OuterCtx(c, t));
  }

  /** Parent and uncle are red: both become black, the grandparent red. */
  method RecolorUncle(m: Memory, node: Addr, parent: Addr, uncle: Addr, grandpa: Addr, root: Addr, ghost c: Ctx,
        ghost t: Tree)
    requires Focus(m.links, root, c, t) && t.Node? && t.addr == node
    requires !c.Top? && !c.up.Top? && parent == c.addr && grandpa == c.up.addr
    requires c.up.InLeft? ==> c.up.right.Node? && c.up.right.addr == uncle
    requires c.up.InRight? ==> c.up.left.Node? && c.up.left.addr == uncle
    modifies m`links
    ensures Focus(m.links, root, c.up.up, Recolored(c, t))
    ensures m.links.Keys == old(m.links.Keys) && SameOutside(old(m.links), m.links, CtxNodes(c) + Nodes(t))
  {
    ghost var up := c.up;
    ghost var pt := Parent(c, t);
    FocusUp(m.links, root, c, t);
    Paint(m, Black, parent, root, up, pt);
    pt := pt.(color := Black);
    FocusUp(m.links, root, up, pt);
    FocusDown(m.links, root, up.up, Parent(up, pt));
    ghost var uc := if up.InLeft? then InRight(pt, grandpa, up.color, up.up) else InLeft(grandpa, up.color, pt, up.up);
    ghost var ut := if up.InLeft? then up.right else up.left;
    Paint(m, Black, uncle, root, uc, ut);
    FocusUp(m.links, root, uc, ut.(color := Black));
    Paint(m, Red, grandpa, root, up.up, Parent(uc, ut.(color := Black)));
  }

  /** The red parent `c.addr` is a left child and its uncle black: at most two rotations. */
  method RotateUnderLeft(m: Memory, node: Addr, parent: Addr, grandpa: Addr, root: Addr, ghost c: Ctx, ghost t: Tree)
    returns (node': Addr, root': Addr, ghost c': Ctx, ghost t': Tree, ghost rotations: nat)
    requires Focus(m.links, root, c, t) && t.Node? && t.addr == node && t.color == Red
    requires !c.Top? && c.up.InLeft? && c.color == Red && parent == c.addr && grandpa == c.up.addr
    modifies m`links
    ensures t' == Outer(c, t) && t'.addr == node' && c' == RotatedCtx(OuterCtx(c, t))
    ensures Focus(m.links, root', c', t')
    ensures rotations <= 2
    ensures m.links.Keys == old(m.links.Keys) && SameOutside(old(m.links), m.links, CtxNodes(c) + Nodes(t))
  {
    var parent := parent;
    node', root', t', rotations := node, root, t, 0;
    c' := c;
    FocusUp(m.links, root, c, t);
    ghost var up := c.up;
    ghost var pt := Parent(c, t);
    if node == m.links[parent].right {
      root' := RotateLeft(m, parent, root', up, pt);
      rotations := rotations + 1;
      c', t' := TurnedCtx(c, t), Turned(c, t);
      pt := RotatedLeft(pt);
      node' := parent;
      assert Rep(m.links, t', pt.addr);
      parent := m.links[node'].parent;
    }
    assert pt == Parent(c', t') && c'.InLeft? && c'.up == up;
    Paint(m, Black, parent, root', up, pt);
    pt := pt.(color := Black);
    FocusUp(m.links, root', up, pt);
    Paint(m, Red, grandpa, root', up.up, Node(pt, grandpa, up.color, up.right));
    root' := RotateRight(m, grandpa, root', up.up, Node(pt, grandpa, Red, up.right));
    rotations := rotations + 1;
    FocusDown(m.links, root', up.up, RotatedRight(Node(pt, grandpa, Red, up.right)));
    c' := RotatedCtx(c');
  }

  /** The red parent `c.addr` is a right child and its uncle black: at most two rotations. */
  method RotateUnderRight(m: Memory, node: Addr, parent: Addr, grandpa: Addr, root: Addr, ghost c: Ctx, ghost t: Tree)
    returns (node': Addr, root': Addr, ghost c': Ctx, ghost t': Tree, ghost rotations: nat)
    requires Focus(m.links, root, c, t) && t.Node? && t.addr == node && t.color == Red
    requires !c.Top? && c.up.InRight? && c.color == Red && parent == c.addr && grandpa == c.up.addr
    modifies m`links
    ensures t' == Outer(c, t) && t'.addr == node' && c' == RotatedCtx(OuterCtx(c, t))
    ensures Focus(m.links, root', c', t')
    ensures rotations <= 2
    ensures m.links.Keys == old(m.links.Keys) && SameOutside(old(m.links), m.links, CtxNodes(c) + Nodes(t))
  {
    var parent := parent;
    node', root', t', rotations := node, root, t, 0;
    c' := c;
    FocusUp(m.links, root, c, t);
    ghost var up := c.up;
    ghost var pt := Parent(c, t);
    if node == m.links[parent].left {
      root' := RotateRight(m, parent, root', up, pt);
      rotations := rotations + 1;
      c', t' := TurnedCtx(c, t), Turned(c, t);
      pt := RotatedRight(pt);
      node' := parent;
      assert Rep(m.links, t', pt.addr);
      parent := m.links[node'].parent;
    }
    assert pt == Parent(c', t') && c'.InRight? && c'.up == up;
    Paint(m, Black, parent, root', up, pt);
    pt := pt.(color := Black);
    FocusUp(m.links, root', up, pt);
    Paint(m, Red, grandpa, root', up.up, Node(up.left, grandpa, up.color, pt));
    root' := RotateLeft(m, grandpa, root', up.up, Node(up.left, grandpa, Red, pt));
    rotations := rotations + 1;
    FocusDown(m.links, root', up.up, RotatedLeft(Node(up.left, grandpa, Red, pt)));
    c' := RotatedCtx(c');
  }

  /** Hanging a new red leaf into an empty hole. */
  lemma AttachLeaf(l0: map<Addr, Link>, l1: map<Addr, Link>, root: Addr, c: Ctx, node: Addr)
    requires Focus(l0, root, c, Leaf) && node != 0 && node !in CtxNodes(c)
    requires SameOutside(l0, l1, {node, ParentOf(c)} - {0})
    requires node in l1 && l1[node] == Link(ParentOf(c), 0, 0, Red)
    requires !c.Top? ==> c.addr in l0 && c.addr in l1 && l1[c.addr] == HoleLink(c, l0[c.addr], node)
    ensures Focus(l1, CtxRoot(c, node), c, Node(Leaf, node, Red, Leaf))
  {
    NoNullCtx(c);
    FrameRepCtxHole(l0, l1, c, 0, node, {node, ParentOf(c)} - {0});
  }

  method SetChild(m: Memory, child: Addr, node: Addr, left: bool)
    requires node in m.links
    modifies m`links
    ensures m.links == old(m.links)[node := if left then old(m.links)[node].(left := child)
                                            else old(m.links)[node].(right := child)]
  {
    if left {
      m.SetLeft(child, node);
    } else {
      m.SetRight(child, node);
    }
  }

  lemma InsertingDone(c: Ctx, t: Tree, h: nat, order: seq<Addr>, nodes: set<Addr>) returns (s: Tree)
    requires Inserting(c, t, h, order, nodes) && CtxBlack(c)
    ensures Plug(c, t).Node? && s == Plug(c, t).(color := Black)
    ensures IsRedBlack(s) && Inorder(s) == order && Nodes(Plug(c, t)) == nodes
  {
    RootPlug(c, t);
    InorderPlug(c, t);
    if c.Top? {
      s := t.(color := Black);
      assert RedBlack(s, h + 1);
    } else {
      PlugIsRedBlack(c, t, h);
      PlugIsNode(c, t);
      s := Plug(c, t);
    }
    assert Inorder(s) == Inorder(Plug(c, t));
  }

  lemma {:induction false} PlugIsNode(c: Ctx, t: Tree)
    ensures t.Node? || !c.Top? ==> Plug(c, t).Node?
    decreases c
  {
    if !c.Top? {
      PlugIsNode(c.up, Parent(c, t));
    }
  }

  /** What the pointers around a red node with a red parent say about its position. */
  lemma InsertSite(links: map<Addr, Link>, root: Addr, c: Ctx, t: Tree, h: nat)
    requires Focus(links, root, c, t) && RedBlackCtx(c, h) && !c.Top? && c.color == Red && t.Node?
    ensures !c.up.Top? && t.addr in links && links[t.addr].parent == c.addr
    ensures c.addr in links && links[c.addr].parent == c.up.addr
    ensures c.up.addr in links && (links[c.up.addr].left == c.addr <==> c.up.InLeft?)
    ensures var uncle := if c.up.InLeft? then c.up.right else c.up.left;
      && (if c.up.InLeft? then links[c.up.addr].right else links[c.up.addr].left) == RootOf(uncle)
      && (uncle.Node? <==> RootOf(uncle) != 0) && (uncle.Node? ==>
        RootOf(uncle) in links && links[RootOf(uncle)].color == uncle.color)
  {
    assert RepCtx(links, c.up, c.addr);
    var uncle := if c.up.InLeft? then c.up.right else c.up.left;
    assert Rep(links, uncle, c.up.addr);
    NoNullCtx(c.up);
    assert CtxSeparate(c.up);
    NoNullNode(uncle);
  }

  /** One round of the fix-up above the red node `node`, whose parent is red. */
  method InsertRound(m: Memory, node: Addr, parent: Addr, tree: Addr, ghost c: Ctx, ghost t: Tree, ghost h: nat,
                     ghost order: seq<Addr>, ghost nodes: set<Addr>)
    returns (node': Addr, tree': Addr, ghost c': Ctx, ghost t': Tree, ghost h': nat, ghost rotations: nat)
    requires Focus(m.links, tree, c, t) && Inserting(c, t, h, order, nodes) && t.addr == node
    requires !c.Top? && c.color == Red && parent == c.addr
    modifies m`links
    ensures Focus(m.links, tree', c', t') && Inserting(c', t', h', order, nodes) && t'.addr == node'
    ensures Depth(c') < Depth(c) && rotations <= 2 && (rotations > 0 ==> CtxBlack(c'))
    ensures m.links.Keys == old(m.links.Keys) && SameOutside(old(m.links), m.links, nodes)
  {
    hide RedBlack, RedBlackCtx, Rep, RepCtx, Below, Above, Inorder, Nodes, CtxNodes, Separate, CtxSeparate, CtxRoot;
    InsertSite(m.links, tree, c, t, h);
    tree', h', rotations := tree, h, 0;
    var grandpa := m.links[parent].parent;
    if parent == m.links[grandpa].left {
      var uncle := m.links[grandpa].right;
      if uncle != 0 && m.links[uncle].color == Red {
        RecolorStep(c, t, h, order, nodes);
        RecolorUncle(m, node, parent, uncle, grandpa, tree, c, t);
        node', t', c', h' := grandpa, Recolored(c, t), c.up.up, h + 1;
      } else {
        RotateStep(c, t, h, order, nodes);
        node', tree', c', t', rotations := RotateUnderLeft(m, node, parent, grandpa, tree, c, t);
      }
    } else {
      var uncle := m.links[grandpa].left;
      if uncle != 0 && m.links[uncle].color == Red {
        RecolorStep(c, t, h, order, nodes);
        RecolorUncle(m, node, parent, uncle, grandpa, tree, c, t);
        node', t', c', h' := grandpa, Recolored(c, t), c.up.up, h + 1;
      } else {
        RotateStep(c, t, h, order, nodes);
        node', tree', c', t', rotations := RotateUnderRight(m, node, parent, grandpa, tree, c, t);
      }
    }
  }

  /** Restores the red-black invariants above a freshly inserted red node. */
  method FixInsert(m: Memory, node: Addr, tree: Addr, ghost c: Ctx, ghost t: Tree, ghost h: nat,
                   ghost order: seq<Addr>, ghost nodes: set<Addr>)
    returns (tree': Addr, ghost t': Tree, ghost rotations: nat)
    requires Focus(m.links, tree, c, t) && Inserting(c, t, h, order, nodes) && t.addr == node
    modifies m`links
    ensures Focus(m.links, tree', Top, t') && IsRedBlack(t') && Inorder(t') == order
    ensures rotations <= 2
    ensures m.links.Keys == old(m.links.Keys) && SameOutside(old(m.links), m.links, nodes)
  {
    var node := node;
    ghost var c, t, h := c, t, h;
    tree', rotations := tree, 0;
    while m.links[node].parent != 0 && m.links[m.links[node].parent].color == Red
      invariant Focus(m.links, tree', c, t) && Inserting(c, t, h, order, nodes) && t.addr == node
      invariant rotations <= 2 && (rotations > 0 ==> CtxBlack(c))
      invariant m.links.Keys == old(m.links.Keys) && SameOutside(old(m.links), m.links, nodes)
      decreases Depth(c)
    {
      NoNullCtx(c);
      var parent := m.links[node].parent;
      node, tree', c, t, h, rotations := InsertRound(m, node, parent, tree', c, t, h, order, nodes);
    }
    FocusTop(m.links, tree', c, t);
    NoNullCtx(c);
    t' := InsertingDone(c, t, h, order, nodes);
    Paint(m, Black, tree', tree', Top, Plug(c, t));
  }

  /** `order'` is `order` with `node` put where it belongs by address. */
  ghost predicate InsertedAt(info: map<Addr, Info>, order: seq<Addr>, order': seq<Addr>, node: Addr, pos: nat) {
    && pos <= |order| && order' == order[..pos] + [node] + order[pos..]
    && (forall i :: 0 <= i < pos ==> order[i] in info && order[i] + InfoSize(info[order[i]]) <= node)
    && (forall i :: pos <= i < |order| ==> node < order[i])
  }

  lemma InsertPosition(info: map<Addr, Info>, c: Ctx, t: Tree, node: Addr) returns (h: nat)
    requires Searching(info, c, Leaf, node, Inorder(t)) && Plug(c, Leaf) == t && IsRedBlack(t)
    requires node !in Inorder(t)
    ensures CtxNodes(c) == Nodes(t) && node !in Nodes(t)
    ensures Inserting(c, Node(Leaf, node, Red, Leaf), h, Below(c) + [node] + Above(c), Nodes(t) + {node})
    ensures InsertedAt(info, Inorder(t), Below(c) + [node] + Above(c), node, |Below(c)|)
  {
    RootPlug(c, Leaf);
    assert node !in Nodes(t) by {
      NodesAreInorder(t);
    }
    h := UnplugRedBlack(c, Leaf);
    var leaf := Node(Leaf, node, Red, Leaf);
    assert RedBlack(leaf, h) && Inorder(leaf) == [node] && Nodes(leaf) == {node};
    assert Inorder(t) == Below(c) + Above(c);
    InsertedBetween(info, Below(c), Above(c), node);
  }

  lemma InsertedBetween(info: map<Addr, Info>, b: seq<Addr>, a: seq<Addr>, node: Addr)
    requires forall x :: x in b ==> x in info && x + InfoSize(info[x]) <= node
    requires forall x :: x in a ==> node < x
    ensures InsertedAt(info, b + a, b + [node] + a, node, |b|)
  {
    forall i | 0 <= i < |b + a|
      ensures if i < |b| then (b + a)[i] in b else (b + a)[i] in a
    {
      assert (b + a)[i] == if i < |b| then b[i] else a[i - |b|];
    }
    assert (b + a)[..|b|] == b && (b + a)[|b|..] == a;
  }

  /** Hangs `node` as a red leaf at the position a failed lookup ended at. */
  method Attach(m: Memory, node: Addr, parent: Addr, isLeft: bool, tree: Addr, ghost c: Ctx) returns (tree': Addr)
    requires Focus(m.links, tree, c, Leaf) && parent == ParentOf(c) && (isLeft <==> c.InLeft?)
    requires node != 0 && node in m.links && node !in CtxNodes(c)
    modifies m`links
    ensures Focus(m.links, tree', c, Node(Leaf, node, Red, Leaf))
    ensures m.links.Keys == old(m.links.Keys) && SameOutside(old(m.links), m.links, CtxNodes(c) + {node})
  {
    NoNullCtx(c);
    m.SetLeft(0, node);
    m.SetRight(0, node);
    m.SetColor(Red, node);
    m.SetParent(parent, node);
    if parent != 0 {
      SetChild(m, node, parent, isLeft);
      tree' := tree;
    } else {
      tree' := node;
    }
    AttachLeaf(old(m.links), m.links, tree, c, node);
  }

  /** Inserts `node` unless a run of the tree already contains its address. */
  method Insert(m: Memory, node: Addr, tree: Addr, ghost t: Tree)
    returns (existing: Addr, tree': Addr, ghost t': Tree, ghost pos: nat, ghost rotations: nat)
    requires Focus(m.links, tree, Top, t) && Ordered(m.info, Inorder(t)) && IsRedBlack(t)
    requires node != 0 && node in m.links && node !in Inorder(t)
    modifies m`links
    ensures existing == Scan(m.info, Inorder(t), node)
    ensures existing != 0 ==> tree' == tree && t' == t && m.links == old(m.links)
    ensures Focus(m.links, tree', Top, t') && IsRedBlack(t')
    ensures existing == 0 ==> InsertedAt(m.info, Inorder(t), Inorder(t'), node, pos)
    ensures rotations <= 2
    ensures m.links.Keys == old(m.links.Keys) && SameOutside(old(m.links), m.links, Nodes(t) + {node})
  {
    var parent, isLeft;
    ghost var c, s, steps;
    existing, parent, isLeft, c, s, steps := DoLookup(m, node, tree, t);
    if existing != 0 {
      tree', t', pos, rotations := tree, t, 0, 0;
      return;
    }
    pos := |Below(c)|;
    tree', t', rotations := InsertNew(m, node, parent, isLeft, tree, c, t);
  }

  /** Attaches `node` where the lookup ended and rebalances. */
  method InsertNew(m: Memory, node: Addr, parent: Addr, isLeft: bool, tree: Addr, ghost c: Ctx, ghost t: Tree)
    returns (tree': Addr, ghost t': Tree, ghost rotations: nat)
    requires Focus(m.links, tree, c, Leaf) && parent == ParentOf(c) && (isLeft <==> c.InLeft?)
    requires Searching(m.info, c, Leaf, node, Inorder(t)) && Plug(c, Leaf) == t && IsRedBlack(t)
    requires node != 0 && node in m.links && node !in Inorder(t)
    modifies m`links
    ensures Focus(m.links, tree', Top, t') && IsRedBlack(t')
    ensures InsertedAt(m.info, Inorder(t), Inorder(t'), node, |Below(c)|)
    ensures rotations <= 2
    ensures m.links.Keys == old(m.links.Keys) && SameOutside(old(m.links), m.links, Nodes(t) + {node})
  {
    ghost var h := InsertPosition(m.info, c, t, node);
    tree' := Attach(m, node, parent, isLeft, tree, c);
    tree', t', rotations := FixInsert(m, node, tree', c, Node(Leaf, node, Red, Leaf), h,
                                      Below(c) + [node] + Above(c), Nodes(t) + {node});
  }
}
