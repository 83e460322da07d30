/** The icosahedron: the mesh every subdivision starts from. */
module Icosahedron {
  import opened Mesh

  function Face(i: nat): Surface {
    if i == 0 then Surface(0, 11, 5)
    else if i == 1 then Surface(0, 5, 1)
    else if i == 2 then Surface(0, 1, 7)
    else if i == 3 then Surface(0, 7, 10)
    else if i == 4 then Surface(0, 10, 11)
    else if i == 5 then Surface(1, 5, 9)
    else if i == 6 then Surface(5, 11, 4)
    else if i == 7 then Surface(11, 10, 2)
    else if i == 8 then Surface(10, 7, 6)
    else if i == 9 then Surface(7, 1, 8)
    else if i == 10 then Surface(3, 9, 4)
    else if i == 11 then Surface(3, 4, 2)
    else if i == 12 then Surface(3, 2, 6)
    else if i == 13 then Surface(3, 6, 8)
    else if i == 14 then Surface(3, 8, 9)
    else if i == 15 then Surface(4, 9, 5)
    else if i == 16 then Surface(2, 4, 11)
    else if i == 17 then Surface(6, 2, 10)
    else if i == 18 then Surface(8, 6, 7)
    else Surface(9, 8, 1)
  }

  function Faces(): (r: seq<Surface>)
    ensures |r| == 20 && forall i :: 0 <= i < 20 ==> r[i] == Face(i)
  {
    seq(20, i requires 0 <= i < 20 => Face(i))
  }

  /** The side that runs from `u` to `v`. */
  function Where(u: nat, v: nat): Half {
    if u == 0 then
      if v == 1 then Half(2, 0) else if v == 5 then Half(1, 0) else if v == 7 then Half(3, 0) else if v == 10
        then Half(4, 0) else Half(0, 0)
    else if u == 1 then
      if v == 0 then Half(1, 2) else if v == 5 then Half(5, 0) else if v == 7 then Half(2, 1) else if v == 8
        then Half(9, 1) else Half(19, 2)
    else if u == 2 then
      if v == 3 then Half(11, 2) else if v == 4 then Half(16, 0) else if v == 6 then Half(12, 1) else if v == 10
        then Half(17, 1) else Half(7, 2)
    else if u == 3 then
      if v == 2 then Half(12, 0) else if v == 4 then Half(11, 0) else if v == 6 then Half(13, 0) else if v == 8
        then Half(14, 0) else Half(10, 0)
    else if u == 4 then
      if v == 2 then Half(11, 1) else if v == 3 then Half(10, 2) else if v == 5 then Half(6, 2) else if v == 9
        then Half(15, 0) else Half(16, 1)
    else if u == 5 then
      if v == 0 then Half(0, 2) else if v == 1 then Half(1, 1) else if v == 4 then Half(15, 2) else if v == 9
        then Half(5, 1) else Half(6, 0)
    else if u == 6 then
      if v == 2 then Half(17, 0) else if v == 3 then Half(12, 2) else if v == 7 then Half(18, 1) else if v == 8
        then Half(13, 1) else Half(8, 2)
    else if u == 7 then
      if v == 0 then Half(2, 2) else if v == 1 then Half(9, 0) else if v == 6 then Half(8, 1) else if v == 8
        then Half(18, 2) else Half(3, 1)
    else if u == 8 then
      if v == 1 then Half(19, 1) else if v == 3 then Half(13, 2) else if v == 6 then Half(18, 0) else if v == 7
        then Half(9, 2) else Half(14, 1)
    else if u == 9 then
      if v == 1 then Half(5, 2) else if v == 3 then Half(14, 2) else if v == 4 then Half(10, 1) else if v == 5
        then Half(15, 1) else Half(19, 0)
    else if u == 10 then
      if v == 0 then Half(3, 2) else if v == 2 then Half(7, 1) else if v == 6 then Half(17, 2) else if v == 7
        then Half(8, 0) else Half(4, 1)
    else
      if v == 0 then Half(4, 2) else if v == 2 then Half(16, 2) else if v == 4 then Half(6, 1) else if v == 5
        then Half(0, 1) else Half(7, 0)
  }

  /** Each side is where it should be, and so is its reverse, in another face for each side of a face. */
  predicate SidesOk(i: nat) {
    var s := Face(i);
    && Where(s.v1, s.v2) == Half(i, 0) && Where(s.v2, s.v3) == Half(i, 1) && Where(s.v3, s.v1) == Half(i, 2)
    && (var (a, b, c) := (Where(s.v2, s.v1), Where(s.v3, s.v2), Where(s.v1, s.v3));
        && a.face < 20 && b.face < 20 && c.face < 20 && a.k < 3 && b.k < 3 && c.k < 3
        && Corner(Face(a.face), a.k) == s.v2 && Corner(Face(a.face), NextSide(a.k)) == s.v1
        && Corner(Face(b.face), b.k) == s.v3 && Corner(Face(b.face), NextSide(b.k)) == s.v2
        && Corner(Face(c.face), c.k) == s.v1 && Corner(Face(c.face), NextSide(c.k)) == s.v3
        && a.face != b.face && b.face != c.face && c.face != a.face)
    && s.v1 < 12 && s.v2 < 12 && s.v3 < 12 && s.v1 != s.v2 && s.v2 != s.v3 && s.v3 != s.v1
  }

  lemma SidesFrom0()
    ensures SidesOk(0) && SidesOk(1)
  {
  }

  lemma SidesFrom2()
    ensures SidesOk(2) && SidesOk(3)
  {
  }

  lemma SidesFrom4()
    ensures SidesOk(4) && SidesOk(5)
  {
  }

  lemma SidesFrom6()
    ensures SidesOk(6) && SidesOk(7)
  {
  }

  lemma SidesFrom8()
    ensures SidesOk(8) && SidesOk(9)
  {
  }

  lemma SidesFrom10()
    ensures SidesOk(10) && SidesOk(11)
  {
  }

  lemma SidesFrom12()
    ensures SidesOk(12) && SidesOk(13)
  {
  }

  lemma SidesFrom14()
    ensures SidesOk(14) && SidesOk(15)
  {
  }

  lemma SidesFrom16()
    ensures SidesOk(16) && SidesOk(17)
  {
  }

  lemma SidesFrom18()
    ensures SidesOk(18) && SidesOk(19)
  {
  }

  lemma Sides(i: nat)
    requires i < 20
    ensures SidesOk(i)
  {
    hide SidesOk;
    SidesFrom0();
    SidesFrom2();
    SidesFrom4();
    SidesFrom6();
    SidesFrom8();
    SidesFrom10();
    SidesFrom12();
    SidesFrom14();
    SidesFrom16();
    SidesFrom18();
    assert i == 0 || i == 1 || i == 2 || i == 3 || i == 4 || i == 5 || i == 6 || i == 7 || i == 8 || i == 9 || i == 10
      || i == 11 || i == 12 || i == 13 || i == 14 || i == 15 || i == 16 || i == 17 || i == 18 || i == 19;
  }

  function Reverse(x: Half): Half {
    Where(Corner(Face(x.face), NextSide(x.k)), Corner(Face(x.face), x.k))
  }

  lemma SideAt(x: Half)
    requires In(Faces(), x)
    ensures Where(From(Faces(), x), To(Faces(), x)) == x && From(Faces(), x) != To(Faces(), x) && From(Faces(), x) < 12
    ensures Twins(Faces(), x, Reverse(x)) && Reverse(x) == Where(To(Faces(), x), From(Faces(), x))
  {
    hide Face, Where;
    Sides(x.face);
  }

  lemma NeighboursDiffer(x: Half, y: Half)
    requires In(Faces(), x) && In(Faces(), y) && x.face == y.face && x != y
    ensures Reverse(x).face != Reverse(y).face
  {
    hide Face, Where;
    Sides(x.face);
  }

  /** A vertex is a corner of the first side that leaves it. */
  lemma VertexUsed(v: nat)
    requires v < 12
    ensures HasCorner(Faces(), v)
  {
    var x := if v == 0 then Half(0, 0) else if v == 1 then Half(5, 0) else if v == 2 then Half(16, 0) else if v == 3
      then Half(10, 0)
      else if v == 4 then Half(15, 0) else if v == 5 then Half(6, 0) else if v == 6 then Half(17, 0) else if v == 7
        then Half(9, 0)
      else if v == 8 then Half(18, 0) else if v == 9 then Half(19, 0) else if v == 10 then Half(8, 0) else Half(7, 0);
    assert In(Faces(), x) && From(Faces(), x) == v;
  }

  /** The icosahedron is a closed oriented surface. */
  lemma ClosedIcosahedron()
    ensures ClosedSurface(Faces(), 12)
  {
    var s := Faces();
    hide Face, Faces, Where, Reverse, From, To;
    forall x | In(s, x) ensures From(s, x) != To(s, x) && From(s, x) < 12 && HasTwin(s, x) {
      SideAt(x);
    }
    forall v: nat | v < 12 ensures HasCorner(s, v) {
      VertexUsed(v);
    }
    forall x, y | SameEdge(s, x, y) ensures x == y {
      SideAt(x);
      SideAt(y);
    }
    forall x, y, x', y' | Twins(s, x, y) && Twins(s, x', y') ensures x.face == x'.face && y.face == y'.face ==>
      x == x' {
      TwinIsReverse(x, y);
      TwinIsReverse(x', y');
      if x.face == x'.face && x != x' {
        NeighboursDiffer(x, x');
      }
    }
    SeparatedBy(s);
  }

  lemma TwinIsReverse(x: Half, y: Half)
    requires Twins(Faces(), x, y)
    ensures y == Reverse(x)
  {
    hide Face, Faces, Where, Reverse;
    SideAt(x);
    SideAt(y);
  }
}
