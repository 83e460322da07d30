/** Run headers in memory, and what it means for their links to spell out a tree. */
module RunMemory {
  import opened RbTreeModel

  /** The link fields of a run header. */
  datatype Link = Link(parent: Addr, left: Addr, right: Addr, color: Color)

  /** The remaining header fields. `word` is the slot bitmap of a run with slots and
      the total size of a run without. */
  datatype Info = Info(slotCount: nat, slotSize: nat, word: nat)

  /** Bytes in a run whose slots have the given size. */
  function GetRunSize(size: nat): nat {
    if size < 64 then 512 else if size < 256 then 4096 else 0
  }

  function InfoSize(i: Info): nat {
    if i.slotCount != 0 then GetRunSize(i.slotSize) else i.word
  }

  /** The memory that holds the headers, by address. */
  class Memory {
    var links: map<Addr, Link>
    var info: map<Addr, Info>

    constructor ()
      ensures links == map[] && info == map[]
    {
      links := map[];
      info := map[];
    }

    method SetParent(parent: Addr, node: Addr)
      requires node in links
      modifies this`links
      ensures links == old(links)[node := old(links)[node].(parent := parent)]
    {
      links := links[node := links[node].(parent := parent)];
    }

    method SetLeft(left: Addr, node: Addr)
      requires node in links
      modifies this`links
      ensures links == old(links)[node := old(links)[node].(left := left)]
    {
      links := links[node := links[node].(left := left)];
    }

    method SetRight(right: Addr, node: Addr)
      requires node in links
      modifies this`links
      ensures links == old(links)[node := old(links)[node].(right := right)]
    {
      links := links[node := links[node].(right := right)];
    }

    method SetColor(color: Color, node: Addr)
      requires node in links
      modifies this`links
      ensures links == old(links)[node := old(links)[node].(color := color)]
    {
      links := links[node := links[node].(color := color)];
    }
  }

  // ----- links that represent a tree -----

  /** The links of the nodes of `t` are exactly those of the tree `t` hanging below `parent`. */
  ghost predicate Rep(links: map<Addr, Link>, t: Tree, parent: Addr)
    decreases t
  {
    t.Node? ==>
      && t.addr in links
      && links[t.addr] == Link(parent, RootOf(t.left), RootOf(t.right), t.color)
      && Rep(links, t.left, t.addr)
      && Rep(links, t.right, t.addr)
  }

  /** The links of the nodes of `c` are those of the context `c` with `hole` at its hole. */
  ghost predicate RepCtx(links: map<Addr, Link>, c: Ctx, hole: Addr)
    decreases c
  {
    match c
    case Top => true
    case InLeft(a, col, r, up) =>
      && a in links
      && links[a] == Link(ParentOf(up), hole, RootOf(r), col)
      && Rep(links, r, a) && RepCtx(links, up, a)
    case InRight(l, a, col, up) =>
      && a in links
      && links[a] == Link(ParentOf(up), RootOf(l), hole, col)
      && Rep(links, l, a) && RepCtx(links, up, a)
  }

  /** The links spell out a tree with root pointer `root`, seen from the position (`c`, `t`). */
  ghost predicate Focus(links: map<Addr, Link>, root: Addr, c: Ctx, t: Tree) {
    && Rep(links, t, ParentOf(c))
    && RepCtx(links, c, RootOf(t))
    && root == CtxRoot(c, RootOf(t))
    && Separate(t) && CtxSeparate(c) && Nodes(t) !! CtxNodes(c)
  }

  lemma {:induction false} NoNullNode(t: Tree)
    requires Separate(t)
    ensures 0 !in Nodes(t) && (t.Node? ==> RootOf(t) in Nodes(t))
  {
    if t.Node? {
      NoNullNode(t.left);
      NoNullNode(t.right);
    }
  }

  lemma {:induction false} NoNullCtx(c: Ctx)
    requires CtxSeparate(c)
    ensures 0 !in CtxNodes(c) && (!c.Top? ==> ParentOf(c) in CtxNodes(c))
    decreases c
  {
    if !c.Top? {
      NoNullCtx(c.up);
      NoNullNode(if c.InLeft? then c.right else c.left);
    }
  }

  /** Two link maps agree outside `s`. */
  ghost predicate SameOutside(l0: map<Addr, Link>, l1: map<Addr, Link>, s: set<Addr>) {
    forall a :: a in l0 && a !in s ==> a in l1 && l1[a] == l0[a]
  }

  // ----- frames -----

  lemma {:induction false} FrameRep(l0: map<Addr, Link>, l1: map<Addr, Link>, t: Tree, parent: Addr, s: set<Addr>)
    requires Rep(l0, t, parent) && SameOutside(l0, l1, s) && Nodes(t) !! s
    ensures Rep(l1, t, parent)
    decreases t
  {
    if t.Node? {
      FrameRep(l0, l1, t.left, t.addr, s);
      FrameRep(l0, l1, t.right, t.addr, s);
    }
  }

  /** Only the parent link of the root changes. */
  lemma FrameRepParent(l0: map<Addr, Link>, l1: map<Addr, Link>, t: Tree, p0: Addr, p1: Addr, s: set<Addr>)
    requires Rep(l0, t, p0) && Separate(t) && SameOutside(l0, l1, s) && Nodes(t) * s <= {RootOf(t)}
    requires t.Node? ==> t.addr in l1 && l1[t.addr] == l0[t.addr].(parent := p1)
    ensures Rep(l1, t, p1)
  {
    if t.Node? {
      FrameRep(l0, l1, t.left, t.addr, s);
      FrameRep(l0, l1, t.right, t.addr, s);
    }
  }

  lemma {:induction false} FrameRepCtx(l0: map<Addr, Link>, l1: map<Addr, Link>, c: Ctx, hole: Addr, s: set<Addr>)
    requires RepCtx(l0, c, hole) && SameOutside(l0, l1, s) && CtxNodes(c) !! s
    ensures RepCtx(l1, c, hole)
    decreases c
  {
    match c
    case Top =>
    case InLeft(a, col, r, up) =>
      FrameRep(l0, l1, r, a, s);
      FrameRepCtx(l0, l1, up, a, s);
    case InRight(l, a, col, up) =>
      FrameRep(l0, l1, l, a, s);
      FrameRepCtx(l0, l1, up, a, s);
  }

  /** Link of the node just above the hole when the hole becomes `h`. */
  function HoleLink(c: Ctx, k: Link, h: Addr): Link
    requires !c.Top?
  {
    if c.InLeft? then k.(left := h) else k.(right := h)
  }

  /** Only the child link at the hole changes. */
  lemma FrameRepCtxHole(l0: map<Addr, Link>, l1: map<Addr, Link>, c: Ctx, h0: Addr, h1: Addr, s: set<Addr>)
    requires RepCtx(l0, c, h0) && CtxSeparate(c) && SameOutside(l0, l1, s) && CtxNodes(c) * s <= {ParentOf(c)}
    requires !c.Top? ==> c.addr in l1 && l1[c.addr] == HoleLink(c, l0[c.addr], h1)
    ensures RepCtx(l1, c, h1)
  {
    match c
    case Top =>
    case InLeft(a, col, r, up) =>
      FrameRep(l0, l1, r, a, s);
      FrameRepCtx(l0, l1, up, a, s);
    case InRight(l, a, col, up) =>
      FrameRep(l0, l1, l, a, s);
      FrameRepCtx(l0, l1, up, a, s);
  }

  /** A position can be moved up one step, or down to a child, without touching memory. */
  lemma FocusUp(links: map<Addr, Link>, root: Addr, c: Ctx, t: Tree)
    requires Focus(links, root, c, t)
    ensures c.InLeft? ==> Focus(links, root, c.up, Node(t, c.addr, c.color, c.right))
    ensures c.InRight? ==> Focus(links, root, c.up, Node(c.left, c.addr, c.color, t))
  {
  }

  lemma FocusDown(links: map<Addr, Link>, root: Addr, c: Ctx, t: Tree)
    requires Focus(links, root, c, t) && t.Node?
    ensures Focus(links, root, InLeft(t.addr, t.color, t.right, c), t.left)
    ensures Focus(links, root, InRight(t.left, t.addr, t.color, c), t.right)
  {
  }

  /** Seen from the root, a position is the whole tree. */
  lemma {:induction false} FocusTop(links: map<Addr, Link>, root: Addr, c: Ctx, t: Tree)
    requires Focus(links, root, c, t)
    ensures Focus(links, root, Top, Plug(c, t))
    decreases c
  {
    if !c.Top? {
      FocusUp(links, root, c, t);
      FocusTop(links, root, c.up,
               if c.InLeft? then Node(t, c.addr, c.color, c.right) else Node(c.left, c.addr, c.color, t));
    }
  }

  lemma {:induction false} FocusAt(links: map<Addr, Link>, root: Addr, c: Ctx, t: Tree)
    requires Focus(links, root, Top, Plug(c, t))
    ensures Focus(links, root, c, t)
    decreases c
  {
    if !c.Top? {
      var t1 := if c.InLeft? then Node(t, c.addr, c.color, c.right) else Node(c.left, c.addr, c.color, t);
      FocusAt(links, root, c.up, t1);
      FocusDown(links, root, c.up, t1);
    }
  }
  
  /** Links outside the nodes of a tree do not matter to it. */
  lemma FrameFocus(l0: map<Addr, Link>, l1: map<Addr, Link>, root: Addr, t: Tree, s: set<Addr>)
    requires Focus(l0, root, Top, t) && SameOutside(l0, l1, s) && Nodes(t) !! s
    ensures Focus(l1, root, Top, t)
  {
    FrameRep(l0, l1, t, 0, s);
  }

  lemma {:induction false} RepInDomain(links: map<Addr, Link>, t: Tree, parent: Addr)
    requires Rep(links, t, parent)
    ensures forall a :: a in Nodes(t) ==> a in links
    decreases t
  {
    if t.Node? {
      RepInDomain(links, t.left, t.addr);
      RepInDomain(links, t.right, t.addr);
    }
  }
}
