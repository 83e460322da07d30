/** Abstract red-black trees and their zippers.

    A tree of runs in memory is described by a `Tree` value; a position inside it by a
    `Ctx` (the path from that position up to the root) together with the subtree below.
    Rotations do not change the in-order sequence, so the address order of the runs
    is stated once, about `Inorder`. */
module RbTreeModel {
  import opened Powers


  /** An address; 0 is the null pointer. */
  type Addr = nat

  datatype Color = Red | Black

  datatype Tree = Leaf | Node(left: Tree, addr: Addr, color: Color, right: Tree)

  /** A tree with a hole: `InLeft` when the hole is the left child of `addr`. */
  datatype Ctx =
    | Top
    | InLeft(addr: Addr, color: Color, right: Tree, up: Ctx)
    | InRight(left: Tree, addr: Addr, color: Color, up: Ctx)

  function RootOf(t: Tree): Addr {
    if t.Leaf? then 0 else t.addr
  }

  function ParentOf(c: Ctx): Addr {
    if c.Top? then 0 else c.addr
  }

  /** The root of the whole tree when the hole of `c` is filled by a subtree rooted at `h`. */
  function CtxRoot(c: Ctx, h: Addr): Addr
    decreases c
  {
    if c.Top? then h else CtxRoot(c.up, c.addr)
  }

  function Plug(c: Ctx, t: Tree): Tree
    decreases c
  {
    match c
    case Top => t
    case InLeft(a, col, r, up) => Plug(up, Node(t, a, col, r))
    case InRight(l, a, col, up) => Plug(up, Node(l, a, col, t))
  }

  function Inorder(t: Tree): seq<Addr> {
    match t
    case Leaf => []
    case Node(l, a, _, r) => Inorder(l) + [a] + Inorder(r)
  }

  /** What precedes the hole in address order. */
  function Below(c: Ctx): seq<Addr>
    decreases c
  {
    match c
    case Top => []
    case InLeft(_, _, _, up) => Below(up)
    case InRight(l, a, _, up) => Below(up) + Inorder(l) + [a]
  }

  /** What follows the hole in address order. */
  function Above(c: Ctx): seq<Addr>
    decreases c
  {
    match c
    case Top => []
    case InLeft(a, _, r, up) => [a] + Inorder(r) + Above(up)
    case InRight(_, _, _, up) => Above(up)
  }

  lemma Reassociate(b: seq<Addr>, x: seq<Addr>, y: seq<Addr>, z: seq<Addr>, e: seq<Addr>)
    ensures b + (x + y + z) + e == b + x + (y + z + e)
    ensures b + (x + y + z) + e == (b + x + y) + z + e
  {
  }

  lemma Redistribute(b: seq<Addr>, x: seq<Addr>, p: seq<Addr>, y: seq<Addr>, q: seq<Addr>, z: seq<Addr>, e: seq<Addr>)
    ensures b + (x + p + y) + (q + z + e) == (b + x + p) + (y + q + z) + e
  {
  }

  lemma {:induction false} InorderPlug(c: Ctx, t: Tree)
    ensures Inorder(Plug(c, t)) == Below(c) + Inorder(t) + Above(c)
    decreases c
  {
    match c
    case Top =>
      assert [] + Inorder(t) + [] == Inorder(t);
    case InLeft(a, col, r, up) =>
      InorderPlug(up, Node(t, a, col, r));
      Reassociate(Below(up), Inorder(t), [a], Inorder(r), Above(up));
    case InRight(l, a, col, up) =>
      InorderPlug(up, Node(l, a, col, t));
      Reassociate(Below(up), Inorder(l), [a], Inorder(t), Above(up));
  }

  // ----- the set of nodes, and trees in which no address occurs twice -----

  ghost function Nodes(t: Tree): set<Addr> {
    match t
    case Leaf => {}
    case Node(l, a, _, r) => Nodes(l) + {a} + Nodes(r)
  }

  ghost function CtxNodes(c: Ctx): set<Addr>
    decreases c
  {
    match c
    case Top => {}
    case InLeft(a, _, r, up) => {a} + Nodes(r) + CtxNodes(up)
    case InRight(l, a, _, up) => Nodes(l) + {a} + CtxNodes(up)
  }

  ghost predicate Separate(t: Tree) {
    match t
    case Leaf => true
    case Node(l, a, _, r) =>
      && a != 0 && a !in Nodes(l) && a !in Nodes(r)
      && Nodes(l) !! Nodes(r) && Separate(l) && Separate(r)
  }

  ghost predicate CtxSeparate(c: Ctx)
    decreases c
  {
    match c
    case Top => true
    case InLeft(a, _, r, up) =>
      && a != 0 && a !in Nodes(r) && a !in CtxNodes(up)
      && Nodes(r) !! CtxNodes(up) && Separate(r) && CtxSeparate(up)
    case InRight(l, a, _, up) =>
      && a != 0 && a !in Nodes(l) && a !in CtxNodes(up)
      && Nodes(l) !! CtxNodes(up) && Separate(l) && CtxSeparate(up)
  }

  lemma {:induction false} NodesAreInorder(t: Tree)
    ensures forall a :: a in Nodes(t) <==> a in Inorder(t)
  {
    if t.Node? {
      NodesAreInorder(t.left);
      NodesAreInorder(t.right);
    }
  }

  lemma {:induction false} RootPlug(c: Ctx, t: Tree)
    ensures RootOf(Plug(c, t)) == CtxRoot(c, RootOf(t))
    ensures Nodes(Plug(c, t)) == CtxNodes(c) + Nodes(t)
    decreases c
  {
    match c
    case Top =>
    case InLeft(a, col, r, up) => RootPlug(up, Node(t, a, col, r));
    case InRight(l, a, col, up) => RootPlug(up, Node(l, a, col, t));
  }

  // ----- the red-black invariants -----

  predicate IsBlack(t: Tree) {
    t.Leaf? || t.color == Black
  }

  /** `t` has no red node with a red child, and every path to a leaf meets `h` black nodes. */
  ghost predicate RedBlack(t: Tree, h: nat) {
    match t
    case Leaf => h == 0
    case Node(l, _, Red, r) => IsBlack(l) && IsBlack(r) && RedBlack(l, h) && RedBlack(r, h)
    case Node(l, _, Black, r) => h > 0 && RedBlack(l, h - 1) && RedBlack(r, h - 1)
  }

  ghost predicate CtxBlack(c: Ctx) {
    c.Top? || c.color == Black
  }

  /** `c` becomes a red-black tree when its hole is filled by a black-rooted subtree of black height `h`. */
  ghost predicate RedBlackCtx(c: Ctx, h: nat)
    decreases c
  {
    match c
    case Top => true
    case InLeft(_, Red, r, up) => IsBlack(r) && RedBlack(r, h) && up != Top && CtxBlack(up) && RedBlackCtx(up, h)
    case InLeft(_, Black, r, up) => RedBlack(r, h) && RedBlackCtx(up, h + 1)
    case InRight(l, _, Red, up) => IsBlack(l) && RedBlack(l, h) && up != Top && CtxBlack(up) && RedBlackCtx(up, h)
    case InRight(l, _, Black, up) => RedBlack(l, h) && RedBlackCtx(up, h + 1)
  }

  /** A red-black tree as the source keeps it: black root, no red node with a red child, equal black heights. */
  ghost predicate IsRedBlack(t: Tree) {
    IsBlack(t) && exists h: nat :: RedBlack(t, h)
  }

  lemma {:induction false} PlugIsRedBlack(c: Ctx, t: Tree, h: nat)
    requires RedBlackCtx(c, h) && RedBlack(t, h)
    requires IsBlack(t) || (c != Top && CtxBlack(c))
    ensures IsRedBlack(Plug(c, t))
    decreases c
  {
    match c
    case Top =>
    case InLeft(a, col, r, up) => PlugIsRedBlack(up, Node(t, a, col, r), if col == Red then h else h + 1);
    case InRight(l, a, col, up) => PlugIsRedBlack(up, Node(l, a, col, t), if col == Red then h else h + 1);
  }

  lemma {:induction false} UnplugRedBlack(c: Ctx, t: Tree) returns (h: nat)
    requires IsRedBlack(Plug(c, t))
    ensures RedBlackCtx(c, h) && RedBlack(t, h)
    ensures IsBlack(t) || (c != Top && CtxBlack(c))
    decreases c
  {
    match c
    case Top =>
      h :| RedBlack(t, h);
    case InLeft(a, col, r, up) =>
      h := UnplugRedBlack(up, Node(t, a, col, r));
      if col == Black { h := h - 1; }
    case InRight(l, a, col, up) =>
      h := UnplugRedBlack(up, Node(l, a, col, t));
      if col == Black { h := h - 1; }
  }

  // ----- height -----

  function Height(t: Tree): nat {
    if t.Leaf? then 0 else 1 + Max(Height(t.left), Height(t.right))
  }

  /** A tree of black height `h` is at most about twice as high, and has at least 2^h - 1 nodes. */
  lemma {:induction false} HeightBound(t: Tree, h: nat)
    requires RedBlack(t, h)
    ensures Height(t) <= 2 * h + (if IsBlack(t) then 0 else 1)
    ensures Pow2(h) <= |Inorder(t)| + 1
  {
    if t.Node? {
      var k := if t.color == Red then h else h - 1;
      HeightBound(t.left, k);
      HeightBound(t.right, k);
    }
  }
}
