/** In-order walk of the red-black tree of runs. */
module RbWalk {
  import opened RbTreeModel
  import opened RunMemory
  import opened RbTree

  // ----- the leftmost path below a position -----

  /** A path of left steps, lowest step first. */
  datatype Spine = Nil | Cons(addr: Addr, color: Color, right: Tree, up: Spine)

  ghost function Down(sp: Spine, base: Ctx): Ctx {
    if sp.Nil? then base else InLeft(sp.addr, sp.color, sp.right, Down(sp.up, base))
  }

  /** The node of the first step. */
  ghost function Head(sp: Spine): Addr {
    if sp.Nil? then 0 else if sp.up.Nil? then sp.addr else Head(sp.up)
  }

  ghost function SpineNodes(sp: Spine): set<Addr> {
    if sp.Nil? then {} else {sp.addr} + Nodes(sp.right) + SpineNodes(sp.up)
  }

  ghost function SpineOrder(sp: Spine): seq<Addr> {
    if sp.Nil? then [] else [sp.addr] + Inorder(sp.right) + SpineOrder(sp.up)
  }

  lemma {:induction false} SpineNodesFacts(sp: Spine, base: Ctx)
    ensures CtxNodes(Down(sp, base)) == SpineNodes(sp) + CtxNodes(base)
    ensures sp.Cons? ==> Head(sp) in SpineNodes(sp)
  {
    if sp.Cons? {
      SpineNodesFacts(sp.up, base);
    }
  }

  lemma {:induction false} SpineOrderFacts(sp: Spine, base: Ctx)
    ensures Below(Down(sp, base)) == Below(base)
    ensures Above(Down(sp, base)) == SpineOrder(sp) + Above(base)
  {
    if sp.Cons? {
      SpineOrderFacts(sp.up, base);
      assert [sp.addr] + Inorder(sp.right) + (SpineOrder(sp.up) + Above(base)) == SpineOrder(sp) + Above(base);
    } else {
      assert [] + Above(base) == Above(base);
    }
  }

  /** `s` is reached from `t`, at position `c`, by the left steps `sp`. */
  ghost predicate Leftward(c: Ctx, t: Tree, sp: Spine, s: Tree) {
    && t.Node? && s.Node?
    && Plug(Down(sp, c), s) == Plug(c, t)
    && Inorder(t) == Inorder(s) + SpineOrder(sp) && Nodes(t) == Nodes(s) + SpineNodes(sp)
    && (if sp.Nil? then s == t else Head(sp) == t.addr)
  }

  lemma LeftwardStep(c: Ctx, t: Tree, sp: Spine, s: Tree)
    requires Leftward(c, t, sp, s) && s.left.Node?
    ensures Leftward(c, t, Cons(s.addr, s.color, s.right, sp), s.left)
  {
    var (l, a, r, u) := (Inorder(s.left), [s.addr], Inorder(s.right), SpineOrder(sp));
    assert (l + a + r) + u == l + (a + r + u);
  }

  lemma LeftwardEnd(links: map<Addr, Link>, root: Addr, c: Ctx, t: Tree, sp: Spine, s: Tree)
    requires Leftward(c, t, sp, s) && s.left == Leaf && Focus(links, root, Down(sp, c), s)
    ensures Inorder(t)[0] == s.addr
    ensures sp.Nil? <==> s.addr == t.addr
  {
    assert Inorder(s)[0] == s.addr;
    assert Inorder(t)[0] == (Inorder(s) + SpineOrder(sp))[0];
    if sp.Cons? {
      SpineNodesFacts(sp, c);
    }
  }

  /** Walks to the first run of a subtree. */
  method First(m: Memory, tree: Addr, ghost root: Addr, ghost c: Ctx, ghost t: Tree)
    returns (node: Addr, ghost sp: Spine, ghost s: Tree)
    requires Focus(m.links, root, c, t) && t.Node? && t.addr == tree
    ensures Focus(m.links, root, Down(sp, c), s) && Leftward(c, t, sp, s) && s.left == Leaf && s.addr == node
    ensures Inorder(t)[0] == node
    ensures sp.Nil? <==> node == tree
  {
    node, sp, s := tree, Nil, t;
    assert Inorder(t) + [] == Inorder(t);
    while m.links[node].left != 0
      invariant Focus(m.links, root, Down(sp, c), s) && Leftward(c, t, sp, s) && s.addr == node
      decreases s
    {
      FocusDown(m.links, root, Down(sp, c), s);
      LeftwardStep(c, t, sp, s);
      node := m.links[node].left;
      sp, s := Cons(s.addr, s.color, s.right, sp), s.left;
    }
    assert s.left == Leaf by {
      NoNullNode(s.left);
    }
    LeftwardEnd(m.links, root, c, t, sp, s);
  }

  // ----- in-order successor -----

  /** The position of the `i`-th node. */
  lemma {:induction false} PositionOf(t: Tree, i: nat) returns (c: Ctx, s: Tree)
    requires i < |Inorder(t)|
    ensures Plug(c, s) == t && s.Node? && s.addr == Inorder(t)[i]
    ensures |Below(c)| + |Inorder(s.left)| == i
  {
    c, s := PositionBelow(Top, t, i);
  }

  lemma {:induction false} PositionBelow(c0: Ctx, t: Tree, i: nat) returns (c: Ctx, s: Tree)
    requires |Below(c0)| <= i < |Below(c0)| + |Inorder(t)|
    ensures Plug(c, s) == Plug(c0, t) && s.Node? && s.addr == Inorder(t)[i - |Below(c0)|]
    ensures |Below(c)| + |Inorder(s.left)| == i
    decreases t
  {
    var k := |Below(c0)| + |Inorder(t.left)|;
    if i == k {
      c, s := c0, t;
    } else if i < k {
      c, s := PositionBelow(InLeft(t.addr, t.color, t.right, c0), t.left, i);
    } else {
      c, s := PositionBelow(InRight(t.left, t.addr, t.color, c0), t.right, i);
    }
  }

  /** The run after `node` in address order, or null. */
  method Next(m: Memory, node: Addr, ghost root: Addr, ghost t: Tree, ghost i: nat) returns (next: Addr)
    requires Focus(m.links, root, Top, t) && i < |Inorder(t)| && Inorder(t)[i] == node
    ensures next == if i + 1 < |Inorder(t)| then Inorder(t)[i + 1] else 0
  {
    ghost var c, s := PositionOf(t, i);
    FocusAt(m.links, root, c, s);
    InorderPlug(c, s);
    NoNullNode(s.right);
    ghost var order := Inorder(t);
    if m.links[node].right != 0 {
      FocusDown(m.links, root, c, s);
      ghost var sp, s';
      next, sp, s' := First(m, m.links[node].right, root, InRight(s.left, s.addr, s.color, c), s.right);
      assert order[i + 1] == Inorder(s.right)[0];
      return;
    }
    var node := node;
    while m.links[node].parent != 0 && m.links[m.links[node].parent].right == node
      invariant Focus(m.links, root, c, s) && s.Node? && s.addr == node
      invariant Below(c) + Inorder(s) + Above(c) == order && |Below(c)| + |Inorder(s)| == i + 1
      decreases Depth(c)
    {
      NoNullCtx(c);
      ParentOrder(c, s);
      FocusUp(m.links, root, c, s);
      node := m.links[node].parent;
      c, s := c.up, Parent(c, s);
    }
    NoNullCtx(c);
    next := m.links[node].parent;
  }
}
