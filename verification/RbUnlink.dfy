/** Unlinking a run from its tree: the first half of removal, before the colours are repaired. */
module RbUnlink {
  import opened RbTreeModel
  import opened RunMemory
  import opened RbTree
  import opened RbWalk

  // ----- a node with two children -----

  /** The top node of the spine is not below one of its steps. */
  lemma HeadApart(sp: Spine, b: Ctx)
    requires sp.Cons? && CtxSeparate(Down(sp, b))
    ensures Head(sp) !in Nodes(sp.right)
    ensures sp.up.Cons? ==> Head(sp) == Head(sp.up) && Head(sp) != sp.addr
  {
    SpineNodesFacts(sp.up, b);
  }

  lemma {:induction false} RebaseRep(l0: map<Addr, Link>, l1: map<Addr, Link>, sp: Spine, b0: Ctx, b1: Ctx,
                                     hole: Addr, s: set<Addr>)
    requires sp.Cons? && RepCtx(l0, Down(sp, b0), hole) && CtxSeparate(Down(sp, b0))
    requires SameOutside(l0, l1, s) && SpineNodes(sp) * s <= {Head(sp)}
    requires Head(sp) in l0 && Head(sp) in l1 && l1[Head(sp)] == l0[Head(sp)].(parent := ParentOf(b1))
    requires RepCtx(l1, b1, Head(sp))
    ensures RepCtx(l1, Down(sp, b1), hole)
  {
    SpineNodesFacts(sp.up, b0);
    assert Down(sp, b0) == InLeft(sp.addr, sp.color, sp.right, Down(sp.up, b0));
    HeadApart(sp, b0);
    assert Nodes(sp.right) !! s by {
      assert forall a :: a in Nodes(sp.right) && a in s ==> a in SpineNodes(sp) * s;
    }
    FrameRep(l0, l1, sp.right, sp.addr, s);
    if sp.up.Cons? {
      assert sp.addr in SpineNodes(sp) && sp.addr != Head(sp);
      RebaseRep(l0, l1, sp.up, b0, b1, sp.addr, s);
    }
  }

  lemma {:induction false} RebaseSeparate(sp: Spine, b0: Ctx, b1: Ctx)
    requires CtxSeparate(Down(sp, b0)) && CtxSeparate(b1) && SpineNodes(sp) !! CtxNodes(b1)
    ensures CtxSeparate(Down(sp, b1))
  {
    if sp.Cons? {
      RebaseSeparate(sp.up, b0, b1);
      SpineNodesFacts(sp.up, b0);
      SpineNodesFacts(sp.up, b1);
    }
  }

  lemma {:induction false} RebaseRedBlack(sp: Spine, b0: Ctx, b1: Ctx, h: nat)
    requires b0.InRight? && b1.InRight? && b0.left == b1.left && b0.color == b1.color && b0.up == b1.up
    requires RedBlackCtx(Down(sp, b0), h)
    ensures RedBlackCtx(Down(sp, b1), h)
  {
    if sp.Cons? {
      RebaseRedBlack(sp.up, b0, b1, if sp.color == Red then h else h + 1);
    }
  }

  lemma {:induction false} SpineRoot(sp: Spine, b: Ctx, hole: Addr)
    ensures CtxRoot(Down(sp, b), hole) == CtxRoot(b, if sp.Nil? then hole else Head(sp))
  {
    if sp.Cons? {
      SpineRoot(sp.up, b, sp.addr);
    }
  }

  /** A node `t` with two children, and its successor `s` at the end of the left steps `sp`. */
  ghost predicate TwoChildren(links: map<Addr, Link>, root: Addr, c: Ctx, t: Tree, sp: Spine, s: Tree) {
    && t.Node? && t.left.Node? && t.right.Node?
    && Focus(links, root, c, t)
    && Focus(links, root, Down(sp, InRight(t.left, t.addr, t.color, c)), s)
    && Leftward(InRight(t.left, t.addr, t.color, c), t.right, sp, s) && s.left == Leaf
  }

  /** The node above the successor. */
  ghost function AboveNext(sp: Spine, s: Tree): Addr
    requires s.Node?
  {
    if sp.Nil? then s.addr else sp.addr
  }

  lemma TwoChildrenSite(links: map<Addr, Link>, root: Addr, c: Ctx, t: Tree, sp: Spine, s: Tree)
    requires TwoChildren(links, root, c, t, sp, s)
    ensures var (u, l, r, n, x, np) := (ParentOf(c), t.left.addr, t.right.addr, s.addr, RootOf(s.right),
      AboveNext(sp, s));
      && t.addr in links && links[t.addr] == Link(u, l, r, t.color)
      && l in links && r in links
      && n in links && links[n] == Link(if sp.Nil? then t.addr else np, 0, x, s.color)
      && np in links && (x != 0 ==> x in links) && (u != 0 ==> u in links)
      && (x != 0 <==> s.right.Node?) && (u != 0 <==> !c.Top?)
      && (u != 0 ==> (links[u].left == t.addr <==> c.InLeft?))
  {
    FocusDown(links, root, c, t);
    NoNullCtx(c);
    NoNullNode(s.right);
    assert Rep(links, s.right, s.addr);
    if c.InRight? {
      NoNullNode(c.left);
    }
  }

  /** The parts of the tree around such a node do not share nodes. */
  lemma TwoChildrenApart(links: map<Addr, Link>, root: Addr, c: Ctx, t: Tree, sp: Spine, s: Tree)
    requires TwoChildren(links, root, c, t, sp, s)
    ensures Nodes(t.left) !! SpineNodes(sp) !! Nodes(s.right) !! CtxNodes(c) !! {s.addr} !! {0}
    ensures t.left.addr in Nodes(t.left) && s.addr != 0
    ensures s.right.Node? ==> RootOf(s.right) in Nodes(s.right)
    ensures !c.Top? ==> ParentOf(c) in CtxNodes(c)
    ensures sp.Cons? ==> t.right.addr in SpineNodes(sp) && sp.addr in SpineNodes(sp)
    ensures sp.Nil? ==> t.right.addr == s.addr
    ensures Separate(t.left) && Separate(s.right) && CtxSeparate(c)
  {
    var base := InRight(t.left, t.addr, t.color, c);
    SpineNodesFacts(sp, base);
    NoNullCtx(Down(sp, base));
    NoNullNode(s);
    NoNullNode(s.right);
    NoNullNode(t.left);
    NoNullCtx(c);
    SpineSeparate(sp, base);
  }

  lemma {:induction false} SpineSeparate(sp: Spine, b: Ctx)
    requires CtxSeparate(Down(sp, b))
    ensures CtxSeparate(b) && SpineNodes(sp) !! CtxNodes(b)
  {
    if sp.Cons? {
      SpineSeparate(sp.up, b);
      SpineNodesFacts(sp.up, b);
    }
  }

  /** The links after `t.addr` has been replaced by its successor. */
  ghost predicate Unlinked(l0: map<Addr, Link>, l1: map<Addr, Link>, c: Ctx, t: Tree, sp: Spine, s: Tree)
    requires t.Node? && t.left.Node? && t.right.Node? && s.Node?
  {
    var (u, l, r, n, x, np) := (ParentOf(c), t.left.addr, t.right.addr, s.addr, RootOf(s.right), AboveNext(sp, s));
    && SameOutside(l0, l1, {u, l, r, n, x, np} - {0})
    && n in l1 && l1[n] == Link(u, l, if sp.Nil? then x else r, t.color)
    && l in l0 && l in l1 && l1[l] == l0[l].(parent := n)
    && (!c.Top? ==> u in l0 && u in l1 && l1[u] == HoleLink(c, l0[u], n))
    && (s.right.Node? ==> x in l0 && x in l1 && l1[x] == l0[x].(parent := np))
    && (sp.Cons? ==>
          && r in l0 && r in l1 && np in l0 && np in l1
          && l1[r] == (if np == r then l0[r].(parent := n, left := x) else l0[r].(parent := n))
          && (np != r ==> l1[np] == l0[np].(left := x)))
  }

  /** The part above the spine. */
  lemma UnlinkedBase(l0: map<Addr, Link>, l1: map<Addr, Link>, root: Addr, c: Ctx, t: Tree, sp: Spine, s: Tree)
    requires TwoChildren(l0, root, c, t, sp, s) && Unlinked(l0, l1, c, t, sp, s)
    ensures var b1 := InRight(t.left, s.addr, t.color, c);
      RepCtx(l1, b1, if sp.Nil? then RootOf(s.right) else t.right.addr) && CtxSeparate(b1)
  {
    var (u, l, r, n, x, np) := (ParentOf(c), t.left.addr, t.right.addr, s.addr, RootOf(s.right), AboveNext(sp, s));
    var ch := {u, l, r, n, x, np} - {0};
    TwoChildrenApart(l0, root, c, t, sp, s);
    FrameRepParent(l0, l1, t.left, t.addr, n, ch);
    FrameRepCtxHole(l0, l1, c, t.addr, n, ch);
  }

  /** The part below the replaced node. */
  lemma UnlinkedSpine(l0: map<Addr, Link>, l1: map<Addr, Link>, root: Addr, c: Ctx, t: Tree, sp: Spine, s: Tree)
    requires TwoChildren(l0, root, c, t, sp, s) && Unlinked(l0, l1, c, t, sp, s)
    ensures RepCtx(l1, Down(sp, InRight(t.left, s.addr, t.color, c)), RootOf(s.right))
  {
    var (b0, b1) := (InRight(t.left, t.addr, t.color, c), InRight(t.left, s.addr, t.color, c));
    var (u, l, r, n, x, np) := (ParentOf(c), t.left.addr, t.right.addr, s.addr, RootOf(s.right), AboveNext(sp, s));
    UnlinkedBase(l0, l1, root, c, t, sp, s);
    hide Rep, RepCtx, Separate, CtxSeparate, Below, Above, Inorder, RedBlack, RedBlackCtx, SpineOrder, Nodes, CtxNodes;
    if sp.Cons? {
      TwoChildrenApart(l0, root, c, t, sp, s);
      SpineNodesFacts(sp, b0);
      var lm := l0[np := l0[np].(left := x)];
      FrameRepCtxHole(l0, lm, Down(sp, b0), n, x, {np});
      RebaseRep(lm, l1, sp, b0, b1, x, {u, l, r, n, x} - {0, np} + {r});
    }
  }

  lemma UnlinkedEffect(l0: map<Addr, Link>, l1: map<Addr, Link>, root: Addr, c: Ctx, t: Tree, sp: Spine, s: Tree)
    requires TwoChildren(l0, root, c, t, sp, s) && Unlinked(l0, l1, c, t, sp, s)
    ensures Focus(l1, CtxRoot(c, s.addr), Down(sp, InRight(t.left, s.addr, t.color, c)), s.right)
    ensures CtxNodes(Down(sp, InRight(t.left, s.addr, t.color, c))) + Nodes(s.right) <= CtxNodes(c) + Nodes(t)
  {
    var (b0, b1) := (InRight(t.left, t.addr, t.color, c), InRight(t.left, s.addr, t.color, c));
    UnlinkedSpine(l0, l1, root, c, t, sp, s);
    UnlinkedBase(l0, l1, root, c, t, sp, s);
    TwoChildrenApart(l0, root, c, t, sp, s);
    assert Rep(l0, s.right, s.addr);
    FrameRepParent(l0, l1, s.right, s.addr, AboveNext(sp, s),
                   {ParentOf(c), t.left.addr, t.right.addr, s.addr, RootOf(s.right), AboveNext(sp, s)} - {0});
    SpineNodesFacts(sp, b0);
    SpineNodesFacts(sp, b1);
    RebaseSeparate(sp, b0, b1);
    SpineRoot(sp, b1, RootOf(s.right));
  }

  /** The nodes that unlinking `node` touches: its parent `u`, its children `l` and `r`, its successor `n`,
      the successor's right child `x` and parent `np` (`n` itself when that is `node`). */
  ghost predicate UnlinkSite(k: map<Addr, Link>, node: Addr, u: Addr, l: Addr, r: Addr, n: Addr, x: Addr, np: Addr) {
    && node in k && l in k && r in k && n in k && np in k && (x != 0 ==> x in k) && (u != 0 ==> u in k)
    && k[node].parent == u && k[node].left == l && k[node].right == r && k[n].right == x
    && (n == r <==> np == n) && (n != r ==> k[n].parent == np)
    && u != node && u != l && u != r && u != n && u != np && (u != 0 ==> u != x)
    && node != l && node != r && node != n && node != np && node != x
    && l != r && l != n && l != np && l != x && x != r && x != n && x != np
    && l != 0 && r != 0 && n != 0 && np != 0
  }

  /** The links after `node` has been replaced by its successor `n`, one store after another. */
  ghost function RelinkedTwo(k: map<Addr, Link>, node: Addr, u: Addr, l: Addr, r: Addr, n: Addr, x: Addr, np: Addr)
      : map<Addr, Link>
    requires UnlinkSite(k, node, u, l, r, n, x, np)
  {
    var k1 := if u == 0 then k else k[u := if k[u].left == node then k[u].(left := n) else k[u].(right := n)];
    var k2 := k1[n := k1[n].(color := k1[node].color)];
    var k3 := k2[n := k2[n].(left := l)];
    var k4 := k3[l := k3[l].(parent := n)];
    var k5 := if n != r then
        var k5 := k4[n := k4[n].(parent := k4[node].parent)];
        var k6 := k5[np := k5[np].(left := x)];
        var k7 := k6[n := k6[n].(right := r)];
        k7[r := k7[r].(parent := n)]
      else k4[n := k4[n].(parent := u)];
    if x != 0 then k5[x := k5[x].(parent := np)] else k5
  }

  lemma RelinkedTwoLinks(l0: map<Addr, Link>, node: Addr, u: Addr, l: Addr, r: Addr, n: Addr, x: Addr, np: Addr)
    requires UnlinkSite(l0, node, u, l, r, n, x, np)
    ensures var l1 := RelinkedTwo(l0, node, u, l, r, n, x, np);
      && l1.Keys == l0.Keys && SameOutside(l0, l1, {u, l, r, n, x, np} - {0})
      && l1[n] == Link(u, l, if n == r then x else r, l0[node].color)
      && l1[l] == l0[l].(parent := n)
      && (u != 0 ==> l1[u] == if l0[u].left == node then l0[u].(left := n) else l0[u].(right := n))
      && (x != 0 ==> l1[x] == l0[x].(parent := np))
      && (n != r ==>
            && l1[r] == (if np == r then l0[r].(parent := n, left := x) else l0[r].(parent := n))
            && (np != r ==> l1[np] == l0[np].(left := x)))
  {
  }

  /** Replaces `node`, which has two children, by its successor `next`. `child` is what the successor
      leaves behind and `parent` where it now hangs. */
  method RelinkTwo(m: Memory, node: Addr, next: Addr, tree: Addr,
                   ghost u: Addr, ghost l: Addr, ghost r: Addr, ghost x: Addr, ghost np: Addr)
    returns (tree': Addr, child: Addr, parent: Addr, color: Color)
    requires UnlinkSite(m.links, node, u, l, r, next, x, np)
    modifies m`links
    ensures m.links == RelinkedTwo(old(m.links), node, u, l, r, next, x, np)
    ensures child == x && color == old(m.links)[next].color && parent == np
    ensures tree' == if u == 0 then next else tree
  {
    parent := m.links[node].parent;
    var left := m.links[node].left;
    var right := m.links[node].right;
    tree' := ReplaceChild(m, parent, node, next, tree);
    color := m.links[next].color;
    m.SetColor(m.links[node].color, next);
    m.SetLeft(left, next);
    m.SetParent(next, left);
    if next != right {
      parent := m.links[next].parent;
      m.SetParent(m.links[node].parent, next);
      child := m.links[next].right;
      m.SetLeft(child, parent);
      m.SetRight(right, next);
      m.SetParent(next, right);
    } else {
      m.SetParent(parent, next);
      parent := next;
      child := m.links[next].right;
    }
    if child != 0 {
      m.SetParent(parent, child);
    }
  }

  // ----- what unlinking leaves -----

  /** Above `node` has been unlinked: the subtree `s` at position `c` is one black node short
      exactly when the vacated place was black. */
  ghost predicate Vacated(c: Ctx, s: Tree, color: Color, h: nat, order: seq<Addr>) {
    && Below(c) + Inorder(s) + Above(c) == order
    && RedBlack(s, h) && (color == Red ==> IsBlack(s))
    && RedBlackCtx(c, if color == Red then h else h + 1)
  }

  /** What remains of the order when the node at position `c` goes. */
  ghost function Without(c: Ctx, t: Tree): seq<Addr>
    requires t.Node?
  {
    Below(c) + Inorder(t.left) + Inorder(t.right) + Above(c)
  }

  lemma VacatedTwo(c: Ctx, t: Tree, sp: Spine, s: Tree) returns (h: nat)
    requires t.Node? && Leftward(InRight(t.left, t.addr, t.color, c), t.right, sp, s) && s.left == Leaf
    requires IsRedBlack(Plug(c, t))
    ensures Vacated(Down(sp, InRight(t.left, s.addr, t.color, c)), s.right, s.color, h, Without(c, t))
  {
    var (b0, b1) := (InRight(t.left, t.addr, t.color, c), InRight(t.left, s.addr, t.color, c));
    assert Plug(c, t) == Plug(Down(sp, b0), s);
    h := UnplugRedBlack(Down(sp, b0), s);
    RebaseRedBlack(sp, b0, b1, h);
    if s.color == Black { h := h - 1; }
    VacatedTwoOrder(c, t, sp, s);
  }

  lemma VacatedTwoOrder(c: Ctx, t: Tree, sp: Spine, s: Tree)
    requires t.Node? && Leftward(InRight(t.left, t.addr, t.color, c), t.right, sp, s) && s.left == Leaf
    ensures var b1 := Down(sp, InRight(t.left, s.addr, t.color, c));
      Below(b1) + Inorder(s.right) + Above(b1) == Without(c, t)
  {
    SpineOrderFacts(sp, InRight(t.left, s.addr, t.color, c));
    assert Inorder(s) == [s.addr] + Inorder(s.right);
    Regroup(Below(c) + Inorder(t.left), [s.addr], Inorder(s.right), SpineOrder(sp), Above(c));
  }

  lemma Regroup(b: seq<Addr>, n: seq<Addr>, x: seq<Addr>, o: seq<Addr>, e: seq<Addr>)
    ensures (b + n) + x + (o + e) == b + ((n + x) + o) + e
  {
  }

  lemma VacatedOne(c: Ctx, t: Tree) returns (h: nat)
    requires t.Node? && (t.left == Leaf || t.right == Leaf) && IsRedBlack(Plug(c, t))
    ensures Vacated(c, if t.left == Leaf then t.right else t.left, t.color, h, Without(c, t))
  {
    h := UnplugRedBlack(c, t);
    var s := if t.left == Leaf then t.right else t.left;
    assert Inorder(t.left) + Inorder(t.right) == Inorder(s);
    assert Below(c) + (Inorder(t.left) + Inorder(t.right)) + Above(c) == Without(c, t);
    if t.color == Black { h := h - 1; }
  }

  lemma UnlinkOneEffect(l0: map<Addr, Link>, l1: map<Addr, Link>, root: Addr, c: Ctx, t: Tree, s: Tree)
    requires Focus(l0, root, c, t) && t.Node? && (s == t.left || s == t.right)
    requires SameOutside(l0, l1, {ParentOf(c), RootOf(s)} - {0})
    requires !c.Top? ==> c.addr in l0 && c.addr in l1 && l1[c.addr] == HoleLink(c, l0[c.addr], RootOf(s))
    requires s.Node? ==> s.addr in l0 && s.addr in l1 && l1[s.addr] == l0[s.addr].(parent := ParentOf(c))
    ensures Focus(l1, CtxRoot(c, RootOf(s)), c, s)
  {
    NoNullCtx(c);
    NoNullNode(s);
    NoNullNode(t);
    var ch := {ParentOf(c), RootOf(s)} - {0};
    FrameRepParent(l0, l1, s, t.addr, ParentOf(c), ch);
    FrameRepCtxHole(l0, l1, c, t.addr, RootOf(s), ch);
  }

  /** Replaces a node with at most one child by that child. */
  method UnlinkOne(m: Memory, node: Addr, next: Addr, tree: Addr, ghost c: Ctx, ghost t: Tree, ghost s: Tree)
    returns (tree': Addr, parent: Addr, color: Color)
    requires Focus(m.links, tree, c, t) && t.Node? && t.addr == node
    requires (s == t.left || s == t.right) && next == RootOf(s)
    modifies m`links
    ensures Focus(m.links, tree', c, s) && parent == ParentOf(c) && color == t.color
    ensures m.links.Keys == old(m.links.Keys) && SameOutside(old(m.links), m.links, CtxNodes(c) + Nodes(t))
  {
    NoNullCtx(c);
    NoNullNode(s);
    NoNullNode(t);
    FocusDown(m.links, tree, c, t);
    parent := m.links[node].parent;
    tree' := ReplaceChild(m, parent, node, next, tree);
    color := m.links[node].color;
    if next != 0 {
      m.SetParent(parent, next);
    }
    UnlinkOneEffect(old(m.links), m.links, tree, c, t, s);
  }

  lemma TwoChildrenUnlinkSite(links: map<Addr, Link>, root: Addr, c: Ctx, t: Tree, sp: Spine, s: Tree)
    requires TwoChildren(links, root, c, t, sp, s)
    ensures UnlinkSite(links, t.addr, ParentOf(c), t.left.addr, t.right.addr, s.addr, RootOf(s.right), AboveNext(sp, s))
  {
    TwoChildrenSite(links, root, c, t, sp, s);
    TwoChildrenApart(links, root, c, t, sp, s);
    NoNullNode(s.right);
  }

  lemma RelinkedTwoUnlinked(l0: map<Addr, Link>, root: Addr, c: Ctx, t: Tree, sp: Spine, s: Tree)
    requires TwoChildren(l0, root, c, t, sp, s)
    requires UnlinkSite(l0, t.addr, ParentOf(c), t.left.addr, t.right.addr, s.addr, RootOf(s.right), AboveNext(sp, s))
    ensures var l1 := RelinkedTwo(l0, t.addr, ParentOf(c), t.left.addr, t.right.addr, s.addr, RootOf(s.right),
      AboveNext(sp, s));
      && Unlinked(l0, l1, c, t, sp, s) && l1.Keys == l0.Keys
      && SameOutside(l0, l1, CtxNodes(c) + Nodes(t))
      && (ParentOf(c) == 0 <==> c.Top?)
  {
    TwoChildrenSite(l0, root, c, t, sp, s);
    TwoChildrenApart(l0, root, c, t, sp, s);
    RelinkedTwoLinks(l0, t.addr, ParentOf(c), t.left.addr, t.right.addr, s.addr, RootOf(s.right), AboveNext(sp, s));
  }

  /** Replaces a node with two children by its in-order successor. */
  method UnlinkTwo(m: Memory, node: Addr, next: Addr, tree: Addr, ghost c: Ctx, ghost t: Tree, ghost sp: Spine,
        ghost s: Tree)
    returns (tree': Addr, child: Addr, parent: Addr, color: Color)
    requires TwoChildren(m.links, tree, c, t, sp, s) && t.addr == node && s.addr == next
    modifies m`links
    ensures Focus(m.links, tree', Down(sp, InRight(t.left, next, t.color, c)), s.right)
    ensures child == RootOf(s.right) && color == s.color
    ensures parent == ParentOf(Down(sp, InRight(t.left, next, t.color, c)))
    ensures m.links.Keys == old(m.links.Keys) && SameOutside(old(m.links), m.links, CtxNodes(c) + Nodes(t))
    ensures CtxNodes(Down(sp, InRight(t.left, next, t.color, c))) + Nodes(s.right) <= CtxNodes(c) + Nodes(t)
  {
    TwoChildrenUnlinkSite(m.links, tree, c, t, sp, s);
    RelinkedTwoUnlinked(m.links, tree, c, t, sp, s);
    assert m.links[next].color == s.color;
    tree', child, parent, color := RelinkTwo(m, node, next, tree, ParentOf(c), t.left.addr, t.right.addr,
                                             RootOf(s.right), AboveNext(sp, s));
    UnlinkedEffect(old(m.links), m.links, tree, c, t, sp, s);
  }
}
