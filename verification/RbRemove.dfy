/** Removal of a run from its red-black tree: the fix-up after unlinking, and the whole operation. */
module RbRemove {
  import opened RbTreeModel
  import opened RunMemory
  import opened RbTree
  import opened RbWalk
  import opened RbUnlink

  /** The sibling of the hole. */
  ghost function Sibling(c: Ctx): Tree
    requires !c.Top?
  {
    if c.InLeft? then c.right else c.left
  }

  /** The position of the sibling of the hole when the hole holds `s`. */
  ghost function SiblingCtx(c: Ctx, s: Tree): Ctx
    requires !c.Top?
  {
    if c.InLeft? then InRight(s, c.addr, c.color, c.up) else InLeft(c.addr, c.color, s, c.up)
  }

  ghost function WithSibling(c: Ctx, w: Tree): Ctx
    requires !c.Top?
  {
    if c.InLeft? then c.(right := w) else c.(left := w)
  }

  /** The child of the sibling that is nearer to the hole, and the one farther away. */
  ghost function Near(c: Ctx): Tree
    requires !c.Top? && Sibling(c).Node?
  {
    if c.InLeft? then Sibling(c).left else Sibling(c).right
  }

  ghost function Far(c: Ctx): Tree
    requires !c.Top? && Sibling(c).Node?
  {
    if c.InLeft? then Sibling(c).right else Sibling(c).left
  }

  // ----- the three steps of the fix-up, on trees -----

  /** A red sibling: after the rotation the hole has the sibling's near child as new sibling. */
  ghost function LiftedSibling(c: Ctx): Ctx
    requires !c.Top? && Sibling(c).Node?
  {
    var (p, w) := (c.addr, Sibling(c));
    if c.InLeft? then InLeft(p, Red, w.left, InLeft(w.addr, Black, w.right, c.up))
    else InRight(w.right, p, Red, InRight(w.left, w.addr, Black, c.up))
  }

  /** A red near child and a black far child: the near child becomes the sibling. */
  ghost function TurnedSibling(c: Ctx): Ctx
    requires !c.Top? && Sibling(c).Node? && Near(c).Node?
  {
    var (w, n) := (Sibling(c), Near(c));
    if c.InLeft? then c.(right := Node(n.left, n.addr, Black, Node(n.right, w.addr, Red, w.right)))
    else c.(left := Node(Node(w.left, w.addr, Red, n.left), n.addr, Black, n.right))
  }

  /** A red far child: the sibling takes the parent's place and the shortage is gone. */
  ghost function Settled(c: Ctx, s: Tree): Tree
    requires !c.Top? && Sibling(c).Node? && Far(c).Node?
  {
    var (p, w, f) := (c.addr, Sibling(c), Far(c));
    if c.InLeft? then Node(Node(s, p, Black, w.left), w.addr, c.color, f.(color := Black))
    else Node(f.(color := Black), w.addr, c.color, Node(w.right, p, Black, s))
  }

  lemma LiftedSiblingOrder(c: Ctx)
    requires !c.Top? && Sibling(c).Node?
    ensures Below(LiftedSibling(c)) == Below(c) && Above(LiftedSibling(c)) == Above(c)
    ensures CtxNodes(LiftedSibling(c)) == CtxNodes(c)
  {
    var w := Sibling(c);
    if c.InLeft? {
      Reassociate([c.addr], Inorder(w.left), [w.addr], Inorder(w.right), Above(c.up));
    } else {
      Reassociate(Below(c.up), Inorder(w.left), [w.addr], Inorder(w.right), [c.addr]);
    }
  }

  lemma TurnedSiblingOrder(c: Ctx)
    requires !c.Top? && Sibling(c).Node? && Near(c).Node?
    ensures Below(TurnedSibling(c)) == Below(c) && Above(TurnedSibling(c)) == Above(c)
    ensures CtxNodes(TurnedSibling(c)) == CtxNodes(c)
  {
    var (w, n) := (Sibling(c), Near(c));
    if c.InLeft? {
      assert Inorder(n.left) + [n.addr] + (Inorder(n.right) + [w.addr] + Inorder(w.right))
          == (Inorder(n.left) + [n.addr] + Inorder(n.right)) + [w.addr] + Inorder(w.right);
      assert Inorder(TurnedSibling(c).right) == Inorder(w) && Nodes(TurnedSibling(c).right) == Nodes(w);
    } else {
      assert (Inorder(w.left) + [w.addr] + Inorder(n.left)) + [n.addr] + Inorder(n.right)
          == Inorder(w.left) + [w.addr] + (Inorder(n.left) + [n.addr] + Inorder(n.right));
      assert Inorder(TurnedSibling(c).left) == Inorder(w) && Nodes(TurnedSibling(c).left) == Nodes(w);
    }
  }

  lemma Associate(a: seq<Addr>, x: seq<Addr>, b: seq<Addr>, y: seq<Addr>, d: seq<Addr>)
    ensures (a + x + b) + y + d == a + x + (b + y + d)
  {
  }

  lemma SettledOrder(c: Ctx, s: Tree)
    requires !c.Top? && Sibling(c).Node? && Far(c).Node?
    ensures Inorder(Settled(c, s)) == Inorder(Parent(c, s)) && Nodes(Settled(c, s)) == Nodes(Parent(c, s))
  {
    var (w, f) := (Sibling(c), Far(c));
    assert Inorder(f.(color := Black)) == Inorder(f) && Nodes(f.(color := Black)) == Nodes(f);
    assert Inorder(w) == Inorder(w.left) + [w.addr] + Inorder(w.right);
    assert Nodes(w) == Nodes(w.left) + {w.addr} + Nodes(w.right);
    if c.InLeft? {
      Associate(Inorder(s), [c.addr], Inorder(w.left), [w.addr], Inorder(w.right));
    } else {
      Associate(Inorder(w.left), [w.addr], Inorder(w.right), [c.addr], Inorder(s));
    }
  }

  // ----- what the fix-up maintains -----

  /** The black subtree `s` is one black node short at position `c`. */
  ghost predicate Short(c: Ctx, s: Tree, h: nat, order: seq<Addr>, nodes: set<Addr>) {
    && RedBlack(s, h) && IsBlack(s) && RedBlackCtx(c, h + 1)
    && Below(c) + Inorder(s) + Above(c) == order
    && CtxNodes(c) + Nodes(s) <= nodes
  }

  /** Painting `s` black gives a red-black tree. */
  ghost predicate Repaired(c: Ctx, s: Tree, h: nat, order: seq<Addr>, nodes: set<Addr>) {
    && (if s.Leaf? then c.Top? else RedBlack(s.(color := Black), h) && RedBlackCtx(c, h))
    && Below(c) + Inorder(s) + Above(c) == order
    && CtxNodes(c) + Nodes(s) <= nodes
  }

  /** There is a sibling whenever a node is missing below: the fix-up never meets a null sibling. */
  lemma SiblingExists(c: Ctx, s: Tree, h: nat, order: seq<Addr>, nodes: set<Addr>)
    requires Short(c, s, h, order, nodes) && !c.Top?
    ensures Sibling(c).Node? && RedBlack(Sibling(c), h + 1)
    ensures Sibling(c).color == Red ==> c.color == Black && Near(c).Node? && Far(c).Node?
  {
    if Sibling(c).color == Red {
      assert RedBlack(Near(c), h + 1) && RedBlack(Far(c), h + 1);
    }
  }

  lemma LiftedSiblingShort(c: Ctx, s: Tree, h: nat, order: seq<Addr>, nodes: set<Addr>)
    requires Short(c, s, h, order, nodes) && !c.Top? && Sibling(c).Node? && Sibling(c).color == Red
    ensures Short(LiftedSibling(c), s, h, order, nodes)
    ensures IsBlack(Sibling(LiftedSibling(c)))
  {
    LiftedSiblingOrder(c);
    SiblingExists(c, s, h, order, nodes);
  }

  lemma TurnedSiblingShort(c: Ctx, s: Tree, h: nat, order: seq<Addr>, nodes: set<Addr>)
    requires Short(c, s, h, order, nodes) && !c.Top? && Sibling(c).Node? && Sibling(c).color == Black
    requires !IsBlack(Near(c)) && IsBlack(Far(c))
    ensures Short(TurnedSibling(c), s, h, order, nodes)
    ensures Sibling(TurnedSibling(c)).color == Black && !IsBlack(Far(TurnedSibling(c)))
  {
    TurnedSiblingOrder(c);
    assert RedBlack(Sibling(c), h + 1);
    assert RedBlack(Near(c), h) && RedBlack(Far(c), h);
    var w' := Sibling(TurnedSibling(c));
    assert RedBlack(Far(TurnedSibling(c)), h);
    assert RedBlack(w', h + 1);
  }

  lemma SettledRedBlack(c: Ctx, s: Tree, h: nat)
    requires RedBlack(s, h) && IsBlack(s) && RedBlackCtx(c, h + 1)
    requires !c.Top? && Sibling(c).Node? && Sibling(c).color == Black && !IsBlack(Far(c))
    ensures var hp := if c.color == Red then h + 1 else h + 2;
      RedBlack(Settled(c, s), hp) && RedBlackCtx(c.up, hp)
    ensures IsBlack(Settled(c, s)) || (c.up != Top && CtxBlack(c.up))
  {
    assert RedBlack(Sibling(c), h + 1) && RedBlack(Far(c), h);
    assert RedBlack(Far(c).(color := Black), h + 1);
  }

  lemma SettledRepaired(c: Ctx, s: Tree, h: nat, order: seq<Addr>, nodes: set<Addr>) returns (k: nat)
    requires Short(c, s, h, order, nodes) && !c.Top? && Sibling(c).Node? && Sibling(c).color == Black
    requires !IsBlack(Far(c))
    ensures IsRedBlack(Plug(c.up, Settled(c, s)))
    ensures Repaired(Top, Plug(c.up, Settled(c, s)), k, order, nodes)
  {
    var t := Settled(c, s);
    SettledRedBlack(c, s, h);
    hide RedBlack, RedBlackCtx, Plug, Inorder, Below, Above, Nodes, CtxNodes, Settled, Repaired;
    PlugIsRedBlack(c.up, t, if c.color == Red then h + 1 else h + 2);
    InorderPlug(c.up, t);
    RootPlug(c.up, t);
    SettledOrder(c, s);
    ParentOrder(c, s);
    PlugIsNode(c.up, t);
    k :| RedBlack(Plug(c.up, t), k);
    RepairedWhole(Plug(c.up, t), k, order, nodes);
  }

  lemma RepairedWhole(t: Tree, h: nat, order: seq<Addr>, nodes: set<Addr>)
    requires t.Node? && IsBlack(t) && RedBlack(t, h) && Inorder(t) == order && Nodes(t) <= nodes
    ensures Repaired(Top, t, h, order, nodes)
  {
    assert t.(color := Black) == t;
    assert [] + Inorder(t) + [] == Inorder(t);
  }

  // ----- the three steps, in memory -----

  lemma FocusSibling(links: map<Addr, Link>, root: Addr, c: Ctx, s: Tree)
    requires Focus(links, root, c, s) && !c.Top?
    ensures Focus(links, root, SiblingCtx(c, s), Sibling(c))
    ensures CtxNodes(SiblingCtx(c, s)) + Nodes(Sibling(c)) == CtxNodes(c) + Nodes(s)
  {
    FocusUp(links, root, c, s);
    FocusDown(links, root, c.up, Parent(c, s));
  }

  method LiftLeft(m: Memory, parent: Addr, sibling: Addr, tree: Addr, ghost c: Ctx, ghost s: Tree) returns (tree': Addr)
    requires Focus(m.links, tree, c, s) && c.InLeft? && c.addr == parent && Sibling(c).Node?
      && Sibling(c).addr == sibling
    modifies m`links
    ensures Focus(m.links, tree', LiftedSibling(c), s)
    ensures m.links.Keys == old(m.links.Keys) && SameOutside(old(m.links), m.links, CtxNodes(c) + Nodes(s))
  {
    ghost var w := Sibling(c);
    FocusSibling(m.links, tree, c, s);
    Paint(m, Black, sibling, tree, SiblingCtx(c, s), w);
    FocusUp(m.links, tree, SiblingCtx(c, s), w.(color := Black));
    Paint(m, Red, parent, tree, c.up, Node(s, parent, c.color, w.(color := Black)));
    ghost var t := Node(s, parent, Red, w.(color := Black));
    tree' := RotateLeft(m, parent, tree, c.up, t);
    FocusDown(m.links, tree', c.up, RotatedLeft(t));
    FocusDown(m.links, tree', InLeft(sibling, Black, w.right, c.up), RotatedLeft(t).left);
  }

  method TurnLeft(m: Memory, near: Addr, sibling: Addr, tree: Addr, ghost c: Ctx, ghost s: Tree) returns (tree': Addr)
    requires Focus(m.links, tree, c, s) && c.InLeft? && Sibling(c).Node? && Sibling(c).addr == sibling
    requires Near(c).Node? && Near(c).addr == near
    modifies m`links
    ensures Focus(m.links, tree', TurnedSibling(c), s)
    ensures m.links.Keys == old(m.links.Keys) && SameOutside(old(m.links), m.links, CtxNodes(c) + Nodes(s))
  {
    ghost var w, n, wc := Sibling(c), Near(c), SiblingCtx(c, s);
    FocusSibling(m.links, tree, c, s);
    FocusDown(m.links, tree, wc, w);
    ghost var nc := InLeft(w.addr, w.color, w.right, wc);
    Paint(m, Black, near, tree, nc, n);
    FocusUp(m.links, tree, nc, n.(color := Black));
    Paint(m, Red, sibling, tree, wc, Node(n.(color := Black), w.addr, w.color, w.right));
    ghost var t := Node(n.(color := Black), w.addr, Red, w.right);
    tree' := RotateRight(m, sibling, tree, wc, t);
    FocusSibling(m.links, tree', wc, RotatedRight(t));
  }

  method SettleLeft(m: Memory, parent: Addr, sibling: Addr, tree: Addr, ghost c: Ctx, ghost s: Tree)
    returns (tree': Addr)
    requires Focus(m.links, tree, c, s) && c.InLeft? && c.addr == parent && Sibling(c).Node?
      && Sibling(c).addr == sibling
    requires Far(c).Node?
    modifies m`links
    ensures Focus(m.links, tree', c.up, Settled(c, s))
    ensures m.links.Keys == old(m.links.Keys) && SameOutside(old(m.links), m.links, CtxNodes(c) + Nodes(s))
  {
    ghost var w, f, wc := Sibling(c), Far(c), SiblingCtx(c, s);
    FocusSibling(m.links, tree, c, s);
    FocusUp(m.links, tree, c, s);
    Paint(m, m.links[parent].color, sibling, tree, wc, w);
    w := w.(color := c.color);
    FocusUp(m.links, tree, wc, w);
    Paint(m, Black, parent, tree, c.up, Node(s, parent, c.color, w));
    FocusDown(m.links, tree, c.up, Node(s, parent, Black, w));
    wc := InRight(s, parent, Black, c.up);
    FocusDown(m.links, tree, wc, w);
    ghost var fc := InRight(w.left, w.addr, w.color, wc);
    Paint(m, Black, m.links[sibling].right, tree, fc, f);
    FocusUp(m.links, tree, fc, f.(color := Black));
    w := Node(w.left, w.addr, w.color, f.(color := Black));
    FocusUp(m.links, tree, wc, w);
    tree' := RotateLeft(m, parent, tree, c.up, Node(s, parent, Black, w));
  }

  method LiftRight(m: Memory, parent: Addr, sibling: Addr, tree: Addr, ghost c: Ctx, ghost s: Tree)
    returns (tree': Addr)
    requires Focus(m.links, tree, c, s) && c.InRight? && c.addr == parent && Sibling(c).Node?
      && Sibling(c).addr == sibling
    modifies m`links
    ensures Focus(m.links, tree', LiftedSibling(c), s)
    ensures m.links.Keys == old(m.links.Keys) && SameOutside(old(m.links), m.links, CtxNodes(c) + Nodes(s))
  {
    ghost var w := Sibling(c);
    FocusSibling(m.links, tree, c, s);
    Paint(m, Black, sibling, tree, SiblingCtx(c, s), w);
    FocusUp(m.links, tree, SiblingCtx(c, s), w.(color := Black));
    Paint(m, Red, parent, tree, c.up, Node(w.(color := Black), parent, c.color, s));
    ghost var t := Node(w.(color := Black), parent, Red, s);
    tree' := RotateRight(m, parent, tree, c.up, t);
    FocusDown(m.links, tree', c.up, RotatedRight(t));
    FocusDown(m.links, tree', InRight(w.left, sibling, Black, c.up), RotatedRight(t).right);
  }

  method TurnRight(m: Memory, near: Addr, sibling: Addr, tree: Addr, ghost c: Ctx, ghost s: Tree) returns (tree': Addr)
    requires Focus(m.links, tree, c, s) && c.InRight? && Sibling(c).Node? && Sibling(c).addr == sibling
    requires Near(c).Node? && Near(c).addr == near
    modifies m`links
    ensures Focus(m.links, tree', TurnedSibling(c), s)
    ensures m.links.Keys == old(m.links.Keys) && SameOutside(old(m.links), m.links, CtxNodes(c) + Nodes(s))
  {
    ghost var w, n, wc := Sibling(c), Near(c), SiblingCtx(c, s);
    FocusSibling(m.links, tree, c, s);
    FocusDown(m.links, tree, wc, w);
    ghost var nc := InRight(w.left, w.addr, w.color, wc);
    Paint(m, Black, near, tree, nc, n);
    FocusUp(m.links, tree, nc, n.(color := Black));
    Paint(m, Red, sibling, tree, wc, Node(w.left, w.addr, w.color, n.(color := Black)));
    ghost var t := Node(w.left, w.addr, Red, n.(color := Black));
    tree' := RotateLeft(m, sibling, tree, wc, t);
    FocusSibling(m.links, tree', wc, RotatedLeft(t));
  }

  method SettleRight(m: Memory, parent: Addr, sibling: Addr, tree: Addr, ghost c: Ctx, ghost s: Tree)
    returns (tree': Addr)
    requires Focus(m.links, tree, c, s) && c.InRight? && c.addr == parent && Sibling(c).Node?
      && Sibling(c).addr == sibling
    requires Far(c).Node?
    modifies m`links
    ensures Focus(m.links, tree', c.up, Settled(c, s))
    ensures m.links.Keys == old(m.links.Keys) && SameOutside(old(m.links), m.links, CtxNodes(c) + Nodes(s))
  {
    ghost var w, f, wc := Sibling(c), Far(c), SiblingCtx(c, s);
    FocusSibling(m.links, tree, c, s);
    FocusUp(m.links, tree, c, s);
    Paint(m, m.links[parent].color, sibling, tree, wc, w);
    w := w.(color := c.color);
    FocusUp(m.links, tree, wc, w);
    Paint(m, Black, parent, tree, c.up, Node(w, parent, c.color, s));
    FocusDown(m.links, tree, c.up, Node(w, parent, Black, s));
    wc := InLeft(parent, Black, s, c.up);
    FocusDown(m.links, tree, wc, w);
    ghost var fc := InLeft(w.addr, w.color, w.right, wc);
    Paint(m, Black, m.links[sibling].left, tree, fc, f);
    FocusUp(m.links, tree, fc, f.(color := Black));
    w := Node(f.(color := Black), w.addr, w.color, w.right);
    FocusUp(m.links, tree, wc, w);
    tree' := RotateRight(m, parent, tree, c.up, Node(w, parent, Black, s));
  }

  // ----- the fix-up -----

  /** The source's test for a black child: null or painted black. */
  predicate NullOrBlack(links: map<Addr, Link>, a: Addr)
    requires a != 0 ==> a in links
  {
    a == 0 || links[a].color == Black
  }

  /** What the pointers around the parent say about the sibling and its children. */
  lemma SiblingSite(links: map<Addr, Link>, root: Addr, c: Ctx, s: Tree)
    requires Focus(links, root, c, s) && !c.Top? && Sibling(c).Node?
    ensures c.addr in links && links[c.addr].parent == ParentOf(c.up) && links[c.addr].color == c.color
    ensures c.InLeft? ==> links[c.addr].right == Sibling(c).addr
    ensures c.InRight? ==> links[c.addr].left == Sibling(c).addr
    ensures c.InLeft? <==> RootOf(s) == links[c.addr].left
    ensures var w := Sibling(c);
      && w.addr in links && links[w.addr].color == w.color
      && links[w.addr].left == RootOf(w.left) && links[w.addr].right == RootOf(w.right)
      && (RootOf(w.left) != 0 ==> RootOf(w.left) in links) && (RootOf(w.right) != 0 ==> RootOf(w.right) in links)
      && (NullOrBlack(links, RootOf(w.left)) <==> IsBlack(w.left))
      && (NullOrBlack(links, RootOf(w.right)) <==> IsBlack(w.right))
  {
    var w := Sibling(c);
    NoNullCtx(c);
    NoNullNode(s);
    FocusSibling(links, root, c, s);
    assert Rep(links, w, c.addr);
    NoNullNode(w);
    NoNullNode(w.left);
    NoNullNode(w.right);
    assert Rep(links, w.left, w.addr) && Rep(links, w.right, w.addr);
  }

  /** The shortage moved up to the parent by painting the sibling red. */
  ghost function Faded(c: Ctx, s: Tree): Tree
    requires !c.Top? && Sibling(c).Node?
  {
    Parent(WithSibling(c, Sibling(c).(color := Red)), s)
  }

  lemma FadedShort(c: Ctx, s: Tree, h: nat, order: seq<Addr>, nodes: set<Addr>)
    requires Short(c, s, h, order, nodes) && !c.Top? && Sibling(c).Node? && Sibling(c).color == Black
    requires IsBlack(Near(c)) && IsBlack(Far(c))
    ensures c.color == Black ==> Short(c.up, Faded(c, s), h + 1, order, nodes)
    ensures c.color == Red ==> Repaired(c.up, Faded(c, s), h + 1, order, nodes)
  {
    var w := Sibling(c);
    assert RedBlack(w, h + 1);
    assert RedBlack(w.(color := Red), h);
    assert Inorder(w.(color := Red)) == Inorder(w) && Nodes(w.(color := Red)) == Nodes(w);
    var c' := WithSibling(c, w.(color := Red));
    assert Below(c') == Below(c) && Above(c') == Above(c) && CtxNodes(c') == CtxNodes(c);
    ParentOrder(c', s);
  }

  method FadeSibling(m: Memory, sibling: Addr, tree: Addr, ghost c: Ctx, ghost s: Tree)
    requires Focus(m.links, tree, c, s) && !c.Top? && Sibling(c).Node? && Sibling(c).addr == sibling
    modifies m`links
    ensures Focus(m.links, tree, c.up, Faded(c, s))
    ensures m.links.Keys == old(m.links.Keys) && SameOutside(old(m.links), m.links, CtxNodes(c) + Nodes(s))
  {
    FocusSibling(m.links, tree, c, s);
    Paint(m, Red, sibling, tree, SiblingCtx(c, s), Sibling(c));
    FocusUp(m.links, tree, SiblingCtx(c, s), Sibling(c).(color := Red));
  }

  /** A red sibling on the right is lifted first, so that the sibling is black. */
  method BlackSiblingLeft(m: Memory, parent: Addr, tree: Addr, ghost c: Ctx, ghost s: Tree, ghost h: nat,
                          ghost order: seq<Addr>, ghost nodes: set<Addr>)
    returns (sibling: Addr, tree': Addr, ghost c': Ctx)
    requires Focus(m.links, tree, c, s) && Short(c, s, h, order, nodes) && c.InLeft? && parent == c.addr
    modifies m`links
    ensures Focus(m.links, tree', c', s) && Short(c', s, h, order, nodes) && c'.InLeft? && c'.addr == parent
    ensures Sibling(c').Node? && Sibling(c').color == Black && sibling == Sibling(c').addr
    ensures c' == c || c'.color == Red
    ensures m.links.Keys == old(m.links.Keys) && SameOutside(old(m.links), m.links, nodes)
  {
    SiblingExists(c, s, h, order, nodes);
    SiblingSite(m.links, tree, c, s);
    tree', c' := tree, c;
    sibling := m.links[parent].right;
    if m.links[sibling].color == Red {
      LiftedSiblingShort(c, s, h, order, nodes);
      tree' := LiftLeft(m, parent, sibling, tree, c, s);
      c' := LiftedSibling(c);
      SiblingExists(c', s, h, order, nodes);
      SiblingSite(m.links, tree', c', s);
      sibling := m.links[parent].right;
    }
  }

  /** The sibling on the right is black and has a red child. */
  method SettleRoundLeft(m: Memory, parent: Addr, sibling: Addr, tree: Addr, ghost c: Ctx, ghost s: Tree, ghost h: nat,
                         ghost order: seq<Addr>, ghost nodes: set<Addr>)
    returns (tree': Addr, ghost t': Tree, ghost h': nat)
    requires Focus(m.links, tree, c, s) && Short(c, s, h, order, nodes) && c.InLeft? && parent == c.addr
    requires Sibling(c).Node? && Sibling(c).color == Black && sibling == Sibling(c).addr
    requires !IsBlack(Near(c)) || !IsBlack(Far(c))
    modifies m`links
    ensures Focus(m.links, tree', Top, t') && Repaired(Top, t', h', order, nodes) && t'.Node?
    ensures m.links.Keys == old(m.links.Keys) && SameOutside(old(m.links), m.links, nodes)
  {
    tree' := tree;
    var sibling := sibling;
    ghost var c := c;
    SiblingSite(m.links, tree, c, s);
    if NullOrBlack(m.links, m.links[sibling].right) {
      TurnedSiblingShort(c, s, h, order, nodes);
      tree' := TurnLeft(m, m.links[sibling].left, sibling, tree, c, s);
      c := TurnedSibling(c);
      SiblingSite(m.links, tree', c, s);
      sibling := m.links[parent].right;
    }
    h' := SettledRepaired(c, s, h, order, nodes);
    tree' := SettleLeft(m, parent, sibling, tree', c, s);
    PlugIsNode(c.up, Settled(c, s));
    FocusTop(m.links, tree', c.up, Settled(c, s));
    t' := Plug(c.up, Settled(c, s));
  }

  /** One round of the fix-up below a left child. */
  method RepairRoundLeft(m: Memory, parent: Addr, tree: Addr, ghost c: Ctx, ghost s: Tree, ghost h: nat,
                         ghost order: seq<Addr>, ghost nodes: set<Addr>)
    returns (node': Addr, parent': Addr, tree': Addr, done: bool, ghost c': Ctx, ghost s': Tree, ghost h': nat)
    requires Focus(m.links, tree, c, s) && Short(c, s, h, order, nodes) && c.InLeft? && parent == c.addr
    modifies m`links
    ensures Focus(m.links, tree', c', s') && s'.Node? && node' == s'.addr && (!done ==> parent' == ParentOf(c'))
    ensures done || !IsBlack(s') ==> Repaired(c', s', h', order, nodes)
    ensures !done && IsBlack(s') ==> Short(c', s', h', order, nodes) && Depth(c') < Depth(c)
    ensures m.links.Keys == old(m.links.Keys) && SameOutside(old(m.links), m.links, nodes)
  {
    var sibling;
    ghost var c1;
    sibling, tree', c1 := BlackSiblingLeft(m, parent, tree, c, s, h, order, nodes);
    SiblingSite(m.links, tree', c1, s);
    if NullOrBlack(m.links, m.links[sibling].left) && NullOrBlack(m.links, m.links[sibling].right) {
      FadedShort(c1, s, h, order, nodes);
      FadeSibling(m, sibling, tree', c1, s);
      node', parent' := parent, m.links[parent].parent;
      done, c', s', h' := false, c1.up, Faded(c1, s), h + 1;
    } else {
      tree', s', h' := SettleRoundLeft(m, parent, sibling, tree', c1, s, h, order, nodes);
      node', parent', done, c' := tree', parent, true, Top;
    }
  }

  /** A red sibling on the left is lifted first, so that the sibling is black. */
  method BlackSiblingRight(m: Memory, parent: Addr, tree: Addr, ghost c: Ctx, ghost s: Tree, ghost h: nat,
                          ghost order: seq<Addr>, ghost nodes: set<Addr>)
    returns (sibling: Addr, tree': Addr, ghost c': Ctx)
    requires Focus(m.links, tree, c, s) && Short(c, s, h, order, nodes) && c.InRight? && parent == c.addr
    modifies m`links
    ensures Focus(m.links, tree', c', s) && Short(c', s, h, order, nodes) && c'.InRight? && c'.addr == parent
    ensures Sibling(c').Node? && Sibling(c').color == Black && sibling == Sibling(c').addr
    ensures c' == c || c'.color == Red
    ensures m.links.Keys == old(m.links.Keys) && SameOutside(old(m.links), m.links, nodes)
  {
    SiblingExists(c, s, h, order, nodes);
    SiblingSite(m.links, tree, c, s);
    tree', c' := tree, c;
    sibling := m.links[parent].left;
    if m.links[sibling].color == Red {
      LiftedSiblingShort(c, s, h, order, nodes);
      tree' := LiftRight(m, parent, sibling, tree, c, s);
      c' := LiftedSibling(c);
      SiblingExists(c', s, h, order, nodes);
      SiblingSite(m.links, tree', c', s);
      sibling := m.links[parent].left;
    }
  }

  /** The sibling on the left is black and has a red child. */
  method SettleRoundRight(m: Memory, parent: Addr, sibling: Addr, tree: Addr, ghost c: Ctx, ghost s: Tree, ghost h: nat,
                         ghost order: seq<Addr>, ghost nodes: set<Addr>)
    returns (tree': Addr, ghost t': Tree, ghost h': nat)
    requires Focus(m.links, tree, c, s) && Short(c, s, h, order, nodes) && c.InRight? && parent == c.addr
    requires Sibling(c).Node? && Sibling(c).color == Black && sibling == Sibling(c).addr
    requires !IsBlack(Near(c)) || !IsBlack(Far(c))
    modifies m`links
    ensures Focus(m.links, tree', Top, t') && Repaired(Top, t', h', order, nodes) && t'.Node?
    ensures m.links.Keys == old(m.links.Keys) && SameOutside(old(m.links), m.links, nodes)
  {
    tree' := tree;
    var sibling := sibling;
    ghost var c := c;
    SiblingSite(m.links, tree, c, s);
    if NullOrBlack(m.links, m.links[sibling].left) {
      TurnedSiblingShort(c, s, h, order, nodes);
      tree' := TurnRight(m, m.links[sibling].right, sibling, tree, c, s);
      c := TurnedSibling(c);
      SiblingSite(m.links, tree', c, s);
      sibling := m.links[parent].left;
    }
    h' := SettledRepaired(c, s, h, order, nodes);
    tree' := SettleRight(m, parent, sibling, tree', c, s);
    PlugIsNode(c.up, Settled(c, s));
    FocusTop(m.links, tree', c.up, Settled(c, s));
    t' := Plug(c.up, Settled(c, s));
  }

  /** One round of the fix-up below a right child. */
  method RepairRoundRight(m: Memory, parent: Addr, tree: Addr, ghost c: Ctx, ghost s: Tree, ghost h: nat,
                         ghost order: seq<Addr>, ghost nodes: set<Addr>)
    returns (node': Addr, parent': Addr, tree': Addr, done: bool, ghost c': Ctx, ghost s': Tree, ghost h': nat)
    requires Focus(m.links, tree, c, s) && Short(c, s, h, order, nodes) && c.InRight? && parent == c.addr
    modifies m`links
    ensures Focus(m.links, tree', c', s') && s'.Node? && node' == s'.addr && (!done ==> parent' == ParentOf(c'))
    ensures done || !IsBlack(s') ==> Repaired(c', s', h', order, nodes)
    ensures !done && IsBlack(s') ==> Short(c', s', h', order, nodes) && Depth(c') < Depth(c)
    ensures m.links.Keys == old(m.links.Keys) && SameOutside(old(m.links), m.links, nodes)
  {
    var sibling;
    ghost var c1;
    sibling, tree', c1 := BlackSiblingRight(m, parent, tree, c, s, h, order, nodes);
    SiblingSite(m.links, tree', c1, s);
    if NullOrBlack(m.links, m.links[sibling].left) && NullOrBlack(m.links, m.links[sibling].right) {
      FadedShort(c1, s, h, order, nodes);
      FadeSibling(m, sibling, tree', c1, s);
      node', parent' := parent, m.links[parent].parent;
      done, c', s', h' := false, c1.up, Faded(c1, s), h + 1;
    } else {
      tree', s', h' := SettleRoundRight(m, parent, sibling, tree', c1, s, h, order, nodes);
      node', parent', done, c' := tree', parent, true, Top;
    }
  }

  /** Only the root of the tree equals the root pointer. */
  lemma IsWholeTree(links: map<Addr, Link>, root: Addr, c: Ctx, s: Tree)
    requires Focus(links, root, c, s)
    ensures RootOf(s) == root <==> c.Top?
  {
    NoNullCtx(c);
    NoNullNode(s);
    if !c.Top? {
      CtxRootInside(c, RootOf(s));
    }
  }

  lemma {:induction false} CtxRootInside(c: Ctx, hole: Addr)
    requires !c.Top?
    ensures CtxRoot(c, hole) in CtxNodes(c)
    decreases c
  {
    if !c.up.Top? {
      CtxRootInside(c.up, c.addr);
    }
  }

  lemma RepairedTree(links: map<Addr, Link>, root: Addr, c: Ctx, s: Tree, h: nat, order: seq<Addr>, nodes: set<Addr>)
    returns (t: Tree)
    requires Repaired(c, s, h, order, nodes)
    requires Focus(links, root, c, if s.Node? then s.(color := Black) else Leaf)
    ensures Focus(links, root, Top, t) && IsRedBlack(t) && Inorder(t) == order
  {
    var b := if s.Node? then s.(color := Black) else Leaf;
    assert Inorder(b) == Inorder(s);
    FocusTop(links, root, c, b);
    InorderPlug(c, b);
    t := Plug(c, b);
    if s.Node? {
      PlugIsRedBlack(c, b, h);
    } else {
      assert RedBlack(Leaf, 0);
    }
  }

  /** Restores the red-black invariants when `node` (possibly null) below `parent` is one black node short. */
  method Repair(m: Memory, node: Addr, parent: Addr, tree: Addr, ghost c: Ctx, ghost s: Tree, ghost h: nat,
                ghost order: seq<Addr>, ghost nodes: set<Addr>)
    returns (tree': Addr, ghost t': Tree)
    requires Focus(m.links, tree, c, s) && Short(c, s, h, order, nodes) && node == RootOf(s) && parent == ParentOf(c)
    modifies m`links
    ensures Focus(m.links, tree', Top, t') && IsRedBlack(t') && Inorder(t') == order
    ensures m.links.Keys == old(m.links.Keys) && SameOutside(old(m.links), m.links, nodes)
  {
    var node, parent, more := node, parent, true;
    ghost var c, s, h := c, s, h;
    tree' := tree;
    while more
      invariant Focus(m.links, tree', c, s) && node == RootOf(s)
      invariant more ==> Short(c, s, h, order, nodes) && parent == ParentOf(c)
      invariant !more ==> Repaired(c, s, h, order, nodes)
      invariant m.links.Keys == old(m.links.Keys) && SameOutside(old(m.links), m.links, nodes)
      decreases more, Depth(c)
    {
      IsWholeTree(m.links, tree', c, s);
      if node == tree' {
        more := false;
      } else {
        SiblingExists(c, s, h, order, nodes);
        SiblingSite(m.links, tree', c, s);
        var done;
        if node == m.links[parent].left {
          node, parent, tree', done, c, s, h := RepairRoundLeft(m, parent, tree', c, s, h, order, nodes);
        } else {
          node, parent, tree', done, c, s, h := RepairRoundRight(m, parent, tree', c, s, h, order, nodes);
        }
        more := !done && m.links[node].color == Black;
      }
    }
    if node != 0 {
      Paint(m, Black, node, tree', c, s);
    }
    t' := RepairedTree(m.links, tree', c, s, h, order, nodes);
  }

  // ----- the whole operation -----

  /** Takes `node` out of the tree without repairing colours. `child` is what now hangs below `parent`
      in the vacated place, whose colour was `color`. */
  method Unlink(m: Memory, node: Addr, tree: Addr, ghost c: Ctx, ghost t: Tree)
    returns (tree': Addr, child: Addr, parent: Addr, color: Color, ghost c': Ctx, ghost s': Tree, ghost h: nat)
    requires Focus(m.links, tree, c, t) && t.Node? && t.addr == node && IsRedBlack(Plug(c, t))
    modifies m`links
    ensures Focus(m.links, tree', c', s') && child == RootOf(s') && parent == ParentOf(c')
    ensures Vacated(c', s', color, h, Without(c, t))
    ensures CtxNodes(c') + Nodes(s') <= CtxNodes(c) + Nodes(t)
    ensures m.links.Keys == old(m.links.Keys) && SameOutside(old(m.links), m.links, CtxNodes(c) + Nodes(t))
  {
    NoNullNode(t.left);
    NoNullNode(t.right);
    FocusDown(m.links, tree, c, t);
    var left := m.links[node].left;
    var right := m.links[node].right;
    if left == 0 || right == 0 {
      c', s' := c, if t.left == Leaf then t.right else t.left;
      h := VacatedOne(c, t);
      child := if left == 0 then right else left;
      tree', parent, color := UnlinkOne(m, node, child, tree, c, t, s');
    } else {
      ghost var sp, s;
      var next;
      next, sp, s := First(m, right, tree, InRight(t.left, t.addr, t.color, c), t.right);
      h := VacatedTwo(c, t, sp, s);
      tree', child, parent, color := UnlinkTwo(m, node, next, tree, c, t, sp, s);
      c', s' := Down(sp, InRight(t.left, next, t.color, c)), s.right;
    }
  }

  lemma VacatedRepaired(c: Ctx, s: Tree, color: Color, h: nat, order: seq<Addr>)
    requires Vacated(c, s, color, h, order) && (color == Red || !IsBlack(s))
    ensures var s' := if color == Red then s else s.(color := Black);
      IsRedBlack(Plug(c, s')) && Inorder(Plug(c, s')) == order
  {
    var s' := if color == Red then s else s.(color := Black);
    assert RedBlack(s', if color == Red then h else h + 1);
    assert Inorder(s') == Inorder(s);
    PlugIsRedBlack(c, s', if color == Red then h else h + 1);
    InorderPlug(c, s');
  }

  lemma OrderWithout(c: Ctx, t: Tree, i: nat)
    requires t.Node? && |Below(c)| + |Inorder(t.left)| == i
    ensures i < |Inorder(Plug(c, t))|
    ensures Without(c, t) == Inorder(Plug(c, t))[..i] + Inorder(Plug(c, t))[i + 1..]
  {
    hide Plug, Below, Above;
    InorderPlug(c, t);
    assert Inorder(t) == Inorder(t.left) + [t.addr] + Inorder(t.right);
    Excise(Inorder(Plug(c, t)), Below(c), Inorder(t.left), t.addr, Inorder(t.right), Above(c));
  }

  lemma Excise(order: seq<Addr>, b: seq<Addr>, l: seq<Addr>, a: Addr, r: seq<Addr>, e: seq<Addr>)
    requires order == b + (l + [a] + r) + e
    ensures |b| + |l| < |order|
    ensures b + l + r + e == order[..|b| + |l|] + order[|b| + |l| + 1..]
  {
    assert order[..|b| + |l|] == b + l;
    assert order[|b| + |l| + 1..] == r + e;
  }

  /** Removes `node`, the `i`-th run of the tree. */
  method Remove(m: Memory, node: Addr, tree: Addr, ghost t: Tree, ghost i: nat)
    returns (tree': Addr, ghost t': Tree)
    requires Focus(m.links, tree, Top, t) && IsRedBlack(t)
    requires i < |Inorder(t)| && Inorder(t)[i] == node
    modifies m`links
    ensures Focus(m.links, tree', Top, t') && IsRedBlack(t')
    ensures Inorder(t') == Inorder(t)[..i] + Inorder(t)[i + 1..]
    ensures m.links.Keys == old(m.links.Keys) && SameOutside(old(m.links), m.links, Nodes(t))
  {
    ghost var c, s := PositionOf(t, i);
    FocusAt(m.links, tree, c, s);
    OrderWithout(c, s, i);
    RootPlug(c, s);
    var child, parent, color;
    ghost var c', s', h;
    tree', child, parent, color, c', s', h := Unlink(m, node, tree, c, s);
    NoNullNode(s');
    if color == Red {
      VacatedRepaired(c', s', color, h, Without(c, s));
      FocusTop(m.links, tree', c', s');
      t' := Plug(c', s');
      return;
    }
    if child != 0 && m.links[child].color == Red {
      VacatedRepaired(c', s', color, h, Without(c, s));
      Paint(m, Black, child, tree', c', s');
      FocusTop(m.links, tree', c', s'.(color := Black));
      t' := Plug(c', s'.(color := Black));
      return;
    }
    tree', t' := Repair(m, child, parent, tree', c', s', h, Without(c, s), Nodes(t));
  }
}
