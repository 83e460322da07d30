/** Triangle meshes as closed oriented surfaces, and their subdivision. */
module Mesh {

  datatype Surface = Surface(v1: nat, v2: nat, v3: nat)

  /** Side `k` of a face runs from its corner `k` to the next. */
  datatype Half = Half(face: nat, k: nat)

  function NextSide(k: nat): nat {
    if k == 2 then 0 else k + 1
  }

  function PrevSide(k: nat): nat {
    if k == 0 then 2 else k - 1
  }

  function Corner(s: Surface, k: nat): nat {
    if k == 0 then s.v1 else if k == 1 then s.v2 else s.v3
  }

  predicate In(faces: seq<Surface>, x: Half) {
    x.face < |faces| && x.k < 3
  }

  function From(faces: seq<Surface>, x: Half): nat
    requires In(faces, x)
  {
    Corner(faces[x.face], x.k)
  }

  function To(faces: seq<Surface>, x: Half): nat
    requires In(faces, x)
  {
    Corner(faces[x.face], NextSide(x.k))
  }

  /** The two sides run between the same corners, in opposite directions. */
  predicate Twins(faces: seq<Surface>, x: Half, y: Half) {
    In(faces, x) && In(faces, y) && From(faces, y) == To(faces, x) && To(faces, y) == From(faces, x)
  }

  // ----- closed oriented surfaces -----

  /** Every corner is below `n`. */
  ghost predicate InRange(faces: seq<Surface>, n: nat) {
    forall x :: In(faces, x) ==> From(faces, x) < n
  }

  ghost predicate HasCorner(faces: seq<Surface>, v: nat) {
    exists x :: In(faces, x) && From(faces, x) == v
  }

  /** Every vertex is a corner of some face. */
  ghost predicate Covered(faces: seq<Surface>, n: nat) {
    forall v: nat :: v < n ==> HasCorner(faces, v)
  }

  ghost predicate Proper(faces: seq<Surface>) {
    forall x :: In(faces, x) ==> From(faces, x) != To(faces, x)
  }

  predicate SameEdge(faces: seq<Surface>, x: Half, y: Half) {
    In(faces, x) && In(faces, y) && From(faces, x) == From(faces, y) && To(faces, x) == To(faces, y)
  }

  /** No directed edge occurs twice. */
  ghost predicate Oriented(faces: seq<Surface>) {
    forall x, y :: SameEdge(faces, x, y) ==> x == y
  }

  ghost predicate HasTwin(faces: seq<Surface>, x: Half) {
    exists y :: Twins(faces, x, y)
  }

  /** The reverse of every directed edge occurs. */
  ghost predicate Closed(faces: seq<Surface>) {
    forall x {:trigger HasTwin(faces, x)} :: In(faces, x) ==> HasTwin(faces, x)
  }

  /** Two faces share at most one edge. */
  ghost predicate Separated(faces: seq<Surface>) {
    forall x, y, x', y' :: Twins(faces, x, y) && Twins(faces, x', y') ==>
      (x.face == x'.face && y.face == y'.face ==> x == x')
  }

  ghost predicate ClosedSurface(faces: seq<Surface>, n: nat) {
    && InRange(faces, n) && Covered(faces, n) && Proper(faces) && Oriented(faces) && Closed(faces) && Separated(faces)
  }

  // ----- subdivision -----

  /** The corner put in the middle of a side. */
  function Mid(mids: seq<Surface>, x: Half): nat
    requires In(mids, x)
  {
    Corner(mids[x.face], x.k)
  }

  predicate SameMid(mids: seq<Surface>, x: Half, y: Half) {
    In(mids, x) && In(mids, y) && Mid(mids, x) == Mid(mids, y)
  }

  ghost predicate HasMid(mids: seq<Surface>, v: nat) {
    exists x :: In(mids, x) && Mid(mids, x) == v
  }

  /** Every side has a new corner in its middle, the same for twins and for no others, and no new corner is idle. */
  ghost predicate MidsOk(faces: seq<Surface>, n: nat, mids: seq<Surface>, m: nat) {
    && |mids| == |faces| && n <= m
    && (forall x :: In(mids, x) ==> n <= Mid(mids, x) < m)
    && (forall x, y :: SameMid(mids, x, y) ==> x == y || Twins(faces, x, y))
    && (forall x, y :: Twins(faces, x, y) ==> SameMid(mids, x, y))
    && (forall v: nat :: n <= v < m ==> HasMid(mids, v))
  }

  /** The four faces that replace one: three at its corners, then the one in the middle. */
  function SubFace(s: Surface, m: Surface, j: nat): Surface {
    if j == 0 then Surface(s.v1, m.v1, m.v3)
    else if j == 1 then Surface(s.v2, m.v2, m.v1)
    else if j == 2 then Surface(s.v3, m.v3, m.v2)
    else m
  }

  function Subdivide(faces: seq<Surface>, mids: seq<Surface>): (r: seq<Surface>)
    requires |mids| == |faces|
    ensures |r| == 4 * |faces|
  {
    if faces == [] then []
    else
      [SubFace(faces[0], mids[0], 0), SubFace(faces[0], mids[0], 1), SubFace(faces[0], mids[0], 2),
        SubFace(faces[0], mids[0], 3)]
      + Subdivide(faces[1..], mids[1..])
  }

  lemma {:induction false} SubdivideAt(faces: seq<Surface>, mids: seq<Surface>, i: nat, j: nat)
    requires |mids| == |faces| && i < |faces| && j < 4
    ensures Subdivide(faces, mids)[4 * i + j] == SubFace(faces[i], mids[i], j)
  {
    if i > 0 {
      SubdivideAt(faces[1..], mids[1..], i - 1, j);
    }
  }

  lemma {:induction false} SubdivideMore(faces: seq<Surface>, mids: seq<Surface>, s: Surface, m: Surface)
    requires |mids| == |faces|
    ensures Subdivide(faces + [s], mids + [m])
         == Subdivide(faces, mids) + [SubFace(s, m, 0), SubFace(s, m, 1), SubFace(s, m, 2), SubFace(s, m, 3)]
  {
    if faces == [] {
      assert faces + [s] == [s] && mids + [m] == [m];
    } else {
      assert (faces + [s])[1..] == faces[1..] + [s] && (mids + [m])[1..] == mids[1..] + [m];
      SubdivideMore(faces[1..], mids[1..], s, m);
    }
  }

  /** What a side of the subdivision is: the first or the second half of an old side, or an edge between
      the middles of sides `p` and `q` of an old face. */
  datatype Part = First(x: Half) | Second(x: Half) | Inner(face: nat, p: nat, q: nat)

  predicate PartOk(faces: seq<Surface>, a: Part) {
    match a
    case First(x) => In(faces, x)
    case Second(x) => In(faces, x)
    case Inner(i, p, q) => i < |faces| && p < 3 && q < 3 && p != q
  }

  function PartFrom(faces: seq<Surface>, mids: seq<Surface>, a: Part): nat
    requires |mids| == |faces| && PartOk(faces, a)
  {
    match a
    case First(x) => From(faces, x)
    case Second(x) => Mid(mids, x)
    case Inner(i, p, _) => Mid(mids, Half(i, p))
  }

  function PartTo(faces: seq<Surface>, mids: seq<Surface>, a: Part): nat
    requires |mids| == |faces| && PartOk(faces, a)
  {
    match a
    case First(x) => Mid(mids, x)
    case Second(x) => To(faces, x)
    case Inner(i, _, q) => Mid(mids, Half(i, q))
  }

  function PartOf(g: Half): Part {
    var (i, j) := (g.face / 4, g.face % 4);
    if j == 3 then Inner(i, g.k, NextSide(g.k))
    else if g.k == 0 then First(Half(i, j))
    else if g.k == 1 then Inner(i, j, PrevSide(j))
    else Second(Half(i, PrevSide(j)))
  }

  /** The side of the subdivision that is this part. */
  function Place(a: Part): Half {
    match a
    case First(x) => Half(4 * x.face + x.k, 0)
    case Second(x) => Half(4 * x.face + NextSide(x.k), 2)
    case Inner(i, p, q) => if q == NextSide(p) then Half(4 * i + 3, p) else Half(4 * i + p, 1)
  }

  lemma PartPlace(faces: seq<Surface>, g: Half)
    requires g.face < 4 * |faces| && g.k < 3
    ensures PartOk(faces, PartOf(g)) && Place(PartOf(g)) == g
  {
  }

  lemma PlacePart(faces: seq<Surface>, a: Part)
    requires PartOk(faces, a)
    ensures Place(a).face < 4 * |faces| && Place(a).k < 3 && PartOf(Place(a)) == a
  {
  }

  lemma PartEnds(faces: seq<Surface>, mids: seq<Surface>, g: Half)
    requires |mids| == |faces| && In(Subdivide(faces, mids), g)
    ensures PartOk(faces, PartOf(g)) && Place(PartOf(g)) == g
    ensures From(Subdivide(faces, mids), g) == PartFrom(faces, mids, PartOf(g))
    ensures To(Subdivide(faces, mids), g) == PartTo(faces, mids, PartOf(g))
  {
    PartPlace(faces, g);
    SubdivideAt(faces, mids, g.face / 4, g.face % 4);
    hide Subdivide;
  }

  lemma PlaceEnds(faces: seq<Surface>, mids: seq<Surface>, a: Part)
    requires |mids| == |faces| && PartOk(faces, a)
    ensures In(Subdivide(faces, mids), Place(a)) && PartOf(Place(a)) == a
    ensures From(Subdivide(faces, mids), Place(a)) == PartFrom(faces, mids, a)
    ensures To(Subdivide(faces, mids), Place(a)) == PartTo(faces, mids, a)
  {
    PlacePart(faces, a);
    PartEnds(faces, mids, Place(a));
  }

  // ----- the subdivision is a closed surface -----

  lemma SubdividedInRange(faces: seq<Surface>, n: nat, mids: seq<Surface>, m: nat)
    requires InRange(faces, n) && MidsOk(faces, n, mids, m)
    ensures InRange(Subdivide(faces, mids), m)
  {
    hide Subdivide, Place, PartOf;
    forall g | In(Subdivide(faces, mids), g) ensures From(Subdivide(faces, mids), g) < m {
      PartEnds(faces, mids, g);
    }
  }

  lemma SubdividedCovered(faces: seq<Surface>, n: nat, mids: seq<Surface>, m: nat)
    requires Covered(faces, n) && MidsOk(faces, n, mids, m)
    ensures Covered(Subdivide(faces, mids), m)
  {
    hide Subdivide, Place, PartOf;
    forall v: nat | v < m ensures HasCorner(Subdivide(faces, mids), v) {
      if v < n {
        assert HasCorner(faces, v);
        var x :| In(faces, x) && From(faces, x) == v;
        PlaceEnds(faces, mids, First(x));
      } else {
        assert HasMid(mids, v);
        var x :| In(mids, x) && Mid(mids, x) == v;
        PlaceEnds(faces, mids, Second(x));
      }
    }
  }

  lemma SubdividedProper(faces: seq<Surface>, n: nat, mids: seq<Surface>, m: nat)
    requires InRange(faces, n) && Proper(faces) && MidsOk(faces, n, mids, m)
    ensures Proper(Subdivide(faces, mids))
  {
    hide Subdivide, Place, PartOf;
    forall g | In(Subdivide(faces, mids), g) ensures From(Subdivide(faces, mids), g) != To(Subdivide(faces, mids), g) {
      PartEnds(faces, mids, g);
      match PartOf(g)
      case First(x) =>
      case Second(x) => EndInRange(faces, n, x);
      case Inner(i, p, q) => InnerProper(faces, n, mids, m, i, p, q);
    }
  }

  lemma EndInRange(faces: seq<Surface>, n: nat, x: Half)
    requires InRange(faces, n) && In(faces, x)
    ensures To(faces, x) < n && From(faces, x) < n
  {
    assert In(faces, Half(x.face, NextSide(x.k))) && From(faces, Half(x.face, NextSide(x.k))) < n;
  }

  /** Two sides of one proper face are not twins, so their middles differ. */
  lemma InnerProper(faces: seq<Surface>, n: nat, mids: seq<Surface>, m: nat, i: nat, p: nat, q: nat)
    requires Proper(faces) && MidsOk(faces, n, mids, m) && i < |faces| && p < 3 && q < 3 && p != q
    ensures Mid(mids, Half(i, p)) != Mid(mids, Half(i, q))
  {
    var (x, y) := (Half(i, p), Half(i, q));
    NotTwins(faces, i, p, q);
    assert !SameMid(mids, x, y);
  }

  lemma NotTwins(faces: seq<Surface>, i: nat, p: nat, q: nat)
    requires Proper(faces) && i < |faces| && p < 3 && q < 3 && p != q
    ensures !Twins(faces, Half(i, p), Half(i, q))
  {
    assert From(faces, Half(i, 0)) != To(faces, Half(i, 0));
    assert From(faces, Half(i, 1)) != To(faces, Half(i, 1));
    assert From(faces, Half(i, 2)) != To(faces, Half(i, 2));
  }

  // What the invariants say of particular sides.

  lemma SideEnds(faces: seq<Surface>, n: nat, x: Half)
    requires ClosedSurface(faces, n) && In(faces, x)
    ensures From(faces, x) < n && To(faces, x) < n && From(faces, x) != To(faces, x)
  {
    hide Covered, Oriented, Closed, Separated;
    EndInRange(faces, n, x);
  }

  lemma TwinOf(faces: seq<Surface>, n: nat, x: Half) returns (y: Half)
    requires ClosedSurface(faces, n) && In(faces, x)
    ensures In(faces, y) && Twins(faces, x, y) && Twins(faces, y, x)
  {
    hide InRange, Covered, Oriented, Separated, Proper;
    assert HasTwin(faces, x);
    y :| Twins(faces, x, y);
  }

  lemma OneTwin(faces: seq<Surface>, n: nat, x: Half, y: Half, z: Half)
    requires ClosedSurface(faces, n) && Twins(faces, x, y) && Twins(faces, x, z)
    ensures y == z
  {
    hide InRange, Covered, Closed, Separated, Proper;
    assert SameEdge(faces, y, z);
  }

  lemma NoSharedEdges(faces: seq<Surface>, n: nat, x: Half, y: Half, x': Half, y': Half)
    requires ClosedSurface(faces, n) && Twins(faces, x, y) && Twins(faces, x', y') && x.face == x'.face
      && y.face == y'.face
    ensures x == x'
  {
    hide InRange, Covered, Closed, Oriented, Proper;
  }

  lemma SurfaceProper(faces: seq<Surface>, n: nat)
    requires ClosedSurface(faces, n)
    ensures Proper(faces) && InRange(faces, n) && Covered(faces, n)
  {
    hide InRange, Covered, Closed, Oriented, Separated, Proper;
  }

  lemma MidRange(faces: seq<Surface>, n: nat, mids: seq<Surface>, m: nat, x: Half)
    requires MidsOk(faces, n, mids, m) && In(faces, x)
    ensures In(mids, x) && n <= Mid(mids, x) < m
  {
  }

  lemma MidsSame(faces: seq<Surface>, n: nat, mids: seq<Surface>, m: nat, x: Half, y: Half)
    requires MidsOk(faces, n, mids, m) && In(faces, x) && In(faces, y)
    ensures Mid(mids, x) == Mid(mids, y) <==> x == y || Twins(faces, x, y)
  {
    assert SameMid(mids, x, y) <==> Mid(mids, x) == Mid(mids, y);
  }

  /** Parts with the same ends are the same. */
  lemma PartsDiffer(faces: seq<Surface>, n: nat, mids: seq<Surface>, m: nat, a: Part, b: Part)
    requires ClosedSurface(faces, n) && MidsOk(faces, n, mids, m) && PartOk(faces, a) && PartOk(faces, b)
    requires |mids| == |faces|
    requires PartFrom(faces, mids, a) == PartFrom(faces, mids, b) && PartTo(faces, mids, a) == PartTo(faces, mids, b)
    ensures a == b
  {
    hide ClosedSurface, MidsOk, From, To, Mid;
    PartRange(faces, n, mids, m, a);
    PartRange(faces, n, mids, m, b);
    match a
    case First(x) => HalvesDiffer(faces, n, mids, m, x, b.x);
    case Second(x) => HalvesDiffer(faces, n, mids, m, x, b.x);
    case Inner(_, _, _) => InnersDiffer(faces, n, mids, m, a, b);
  }

  /** The kind of a part shows in which of its ends are old. */
  lemma PartRange(faces: seq<Surface>, n: nat, mids: seq<Surface>, m: nat, a: Part)
    requires ClosedSurface(faces, n) && MidsOk(faces, n, mids, m) && PartOk(faces, a) && |mids| == |faces|
    ensures PartFrom(faces, mids, a) < n <==> a.First?
    ensures PartTo(faces, mids, a) < n <==> a.Second?
  {
    hide ClosedSurface, MidsOk, From, To, Mid;
    match a
    case First(x) =>
      SideEnds(faces, n, x);
      MidRange(faces, n, mids, m, x);
    case Second(x) =>
      SideEnds(faces, n, x);
      MidRange(faces, n, mids, m, x);
    case Inner(i, p, q) =>
      MidRange(faces, n, mids, m, Half(i, p));
      MidRange(faces, n, mids, m, Half(i, q));
  }

  lemma HalvesDiffer(faces: seq<Surface>, n: nat, mids: seq<Surface>, m: nat, x: Half, y: Half)
    requires ClosedSurface(faces, n) && MidsOk(faces, n, mids, m) && |mids| == |faces|
    requires In(faces, x) && In(faces, y) && Mid(mids, x) == Mid(mids, y)
    requires From(faces, x) == From(faces, y) || To(faces, x) == To(faces, y)
    ensures x == y
  {
    hide ClosedSurface, MidsOk, From, To, Mid;
    MidsSame(faces, n, mids, m, x, y);
    SideEnds(faces, n, x);
  }

  lemma InnersDiffer(faces: seq<Surface>, n: nat, mids: seq<Surface>, m: nat, a: Part, b: Part)
    requires ClosedSurface(faces, n) && MidsOk(faces, n, mids, m) && |mids| == |faces|
    requires a.Inner? && b.Inner? && PartOk(faces, a) && PartOk(faces, b)
    requires Mid(mids, Half(a.face, a.p)) == Mid(mids, Half(b.face, b.p))
      && Mid(mids, Half(a.face, a.q)) == Mid(mids, Half(b.face, b.q))
    ensures a == b
  {
    hide ClosedSurface, MidsOk, From, To, Mid, Twins, Proper;
    var (x, y) := (Half(a.face, a.p), Half(b.face, b.p));
    var (x', y') := (Half(a.face, a.q), Half(b.face, b.q));
    MidsSame(faces, n, mids, m, x, y);
    MidsSame(faces, n, mids, m, x', y');
    SurfaceProper(faces, n);
    if a.face == b.face {
      if a.p != b.p { NotTwins(faces, a.face, a.p, b.p); }
      if a.q != b.q { NotTwins(faces, a.face, a.q, b.q); }
    } else {
      NoSharedEdges(faces, n, x, y, x', y');
    }
  }

  lemma SubdividedOriented(faces: seq<Surface>, n: nat, mids: seq<Surface>, m: nat)
    requires ClosedSurface(faces, n) && MidsOk(faces, n, mids, m)
    ensures Oriented(Subdivide(faces, mids))
  {
    var s := Subdivide(faces, mids);
    hide *;
    forall g, h | SameEdge(s, g, h) ensures g == h {
      SameEdgeParts(faces, mids, g, h);
      PartsDiffer(faces, n, mids, m, PartOf(g), PartOf(h));
    }
    OrientedBy(s);
  }

  lemma SameEdgeParts(faces: seq<Surface>, mids: seq<Surface>, g: Half, h: Half)
    requires |mids| == |faces| && SameEdge(Subdivide(faces, mids), g, h)
    ensures PartOk(faces, PartOf(g)) && PartOk(faces, PartOf(h)) && Place(PartOf(g)) == g && Place(PartOf(h)) == h
    ensures PartFrom(faces, mids, PartOf(g)) == PartFrom(faces, mids, PartOf(h))
    ensures PartTo(faces, mids, PartOf(g)) == PartTo(faces, mids, PartOf(h))
  {
    PartEnds(faces, mids, g);
    PartEnds(faces, mids, h);
  }

  lemma OrientedBy(faces: seq<Surface>)
    requires forall g, h :: SameEdge(faces, g, h) ==> g == h
    ensures Oriented(faces)
  {
  }

  /** A part and the part that runs the other way. */
  predicate PartsTwinned(faces: seq<Surface>, a: Part, b: Part) {
    && PartOk(faces, a) && PartOk(faces, b)
    && match a
       case First(x) => b.Second? && Twins(faces, x, b.x)
       case Second(x) => b.First? && Twins(faces, x, b.x)
       case Inner(i, p, q) => b == Inner(i, q, p)
  }

  /** The part that runs the other way. */
  lemma PartTwin(faces: seq<Surface>, n: nat, mids: seq<Surface>, m: nat, a: Part) returns (b: Part)
    requires ClosedSurface(faces, n) && MidsOk(faces, n, mids, m) && PartOk(faces, a) && |mids| == |faces|
    ensures PartOk(faces, b) && PartFrom(faces, mids, b) == PartTo(faces, mids, a)
      && PartTo(faces, mids, b) == PartFrom(faces, mids, a)
    ensures PartsTwinned(faces, a, b)
  {
    hide ClosedSurface, MidsOk;
    match a
    case First(x) =>
      var y := TwinOf(faces, n, x);
      MidsSame(faces, n, mids, m, x, y);
      b := Second(y);
    case Second(x) =>
      var y := TwinOf(faces, n, x);
      MidsSame(faces, n, mids, m, x, y);
      b := First(y);
    case Inner(i, p, q) =>
      b := Inner(i, q, p);
  }

  lemma SubdividedClosed(faces: seq<Surface>, n: nat, mids: seq<Surface>, m: nat)
    requires ClosedSurface(faces, n) && MidsOk(faces, n, mids, m) && |mids| == |faces|
    ensures Closed(Subdivide(faces, mids))
  {
    hide ClosedSurface, MidsOk, Subdivide, PartOf, Place, PartFrom, PartTo;
    var s := Subdivide(faces, mids);
    forall g | In(s, g) ensures HasTwin(s, g) {
      PartEnds(faces, mids, g);
      var b := PartTwin(faces, n, mids, m, PartOf(g));
      PlaceEnds(faces, mids, b);
      assert Twins(s, g, Place(b));
    }
  }

  /** The twin of a side is the part that runs the other way. */
  lemma PartTwins(faces: seq<Surface>, n: nat, mids: seq<Surface>, m: nat, g: Half, h: Half)
    requires |mids| == |faces| && Twins(Subdivide(faces, mids), g, h) && ClosedSurface(faces, n)
      && MidsOk(faces, n, mids, m)
    ensures Place(PartOf(g)) == g && Place(PartOf(h)) == h && PartsTwinned(faces, PartOf(g), PartOf(h))
  {
    hide ClosedSurface, MidsOk, Subdivide, PartOf, Place, PartFrom, PartTo;
    PartEnds(faces, mids, g);
    PartEnds(faces, mids, h);
    var b := PartTwin(faces, n, mids, m, PartOf(g));
    PartsDiffer(faces, n, mids, m, b, PartOf(h));
  }

  /** The sides of one new face are parts of different kinds. */
  lemma PartsOfFace(faces: seq<Surface>, a: Part, b: Part)
    requires PartOk(faces, a) && PartOk(faces, b) && Place(a).face == Place(b).face && a != b
    ensures a.First? && b.First? ==> false
    ensures a.Second? && b.Second? ==> false
    ensures a.Inner? && !b.Inner? ==> a.q == PrevSide(a.p)
    ensures a.First? && b.Second? ==> b.x.face == a.x.face && a.x.k == NextSide(b.x.k)
    ensures a.Second? && b.First? ==> b.x.face == a.x.face && b.x.k == NextSide(a.x.k)
    ensures a.First? && b.Inner? ==> b.face == a.x.face && b.p == a.x.k && b.q == PrevSide(b.p)
    ensures a.Second? && b.Inner? ==> b.face == a.x.face && b.p == NextSide(a.x.k) && b.q == PrevSide(b.p)
    ensures a.Inner? && b.Inner? ==> a.face == b.face && a.q == NextSide(a.p) && b.q == NextSide(b.p)
  {
  }

  /** Different sides of one new face do not have their twins in one face. */
  lemma NewFacesApart(faces: seq<Surface>, n: nat, a: Part, b: Part, a': Part, b': Part)
    requires PartsTwinned(faces, a, b) && PartsTwinned(faces, a', b')
    requires Place(a).face == Place(a').face && Place(b).face == Place(b').face
    requires ClosedSurface(faces, n)
    ensures a == a'
  {
    hide ClosedSurface, Twins, Place, In;
    if a != a' {
      PartsOfFace(faces, a, a');
      if a.Inner? && a'.Inner? {
        InnerFaces(a, a', b, b');
      } else if a.Inner? {
        InnerFaceOther(faces, a, a', b, b');
      } else if a'.Inner? {
        InnerFaceOther(faces, a', a, b', b);
      } else {
        assert b != b';
        PartsOfFace(faces, b, b');
        NoSharedEdges(faces, n, a.x, b.x, a'.x, b'.x);
      }
      assert false;
    }
  }

  lemma InnerFaces(a: Part, a': Part, b: Part, b': Part)
    requires a.Inner? && a'.Inner? && a.face == a'.face && a.p < 3 && a'.p < 3 && a.q == NextSide(a.p)
      && a'.q == NextSide(a'.p) && a != a'
    requires b == Inner(a.face, a.q, a.p) && b' == Inner(a'.face, a'.q, a'.p)
    ensures Place(b).face != Place(b').face
  {
  }

  lemma InnerFaceOther(faces: seq<Surface>, a: Part, a': Part, b: Part, b': Part)
    requires a.Inner? && !a'.Inner? && a.p < 3 && a.q == PrevSide(a.p) && b == Inner(a.face, a.q, a.p)
    requires !b'.Inner? && PartOk(faces, b')
    ensures Place(b).face != Place(b').face
  {
  }

  lemma SubdividedSeparated(faces: seq<Surface>, n: nat, mids: seq<Surface>, m: nat)
    requires |mids| == |faces| && ClosedSurface(faces, n) && MidsOk(faces, n, mids, m)
    ensures Separated(Subdivide(faces, mids))
  {
    var s := Subdivide(faces, mids);
    hide *;
    forall x, y, x', y' | Twins(s, x, y) && Twins(s, x', y') ensures x.face == x'.face && y.face == y'.face ==>
      x == x' {
      PartTwins(faces, n, mids, m, x, y);
      PartTwins(faces, n, mids, m, x', y');
      if x.face == x'.face && y.face == y'.face {
        NewFacesApart(faces, n, PartOf(x), PartOf(y), PartOf(x'), PartOf(y'));
      }
    }
    SeparatedBy(s);
  }

  lemma SeparatedBy(s: seq<Surface>)
    requires forall x, y, x', y' :: Twins(s, x, y) && Twins(s, x', y') ==>
      (x.face == x'.face && y.face == y'.face ==> x == x')
    ensures Separated(s)
  {
    hide Twins;
  }

  /** Subdividing a closed oriented surface gives a closed oriented surface with four times the faces. */
  lemma SubdividedSurface(faces: seq<Surface>, n: nat, mids: seq<Surface>, m: nat)
    requires ClosedSurface(faces, n) && MidsOk(faces, n, mids, m) && |mids| == |faces|
    ensures ClosedSurface(Subdivide(faces, mids), m)
  {
    SurfaceProper(faces, n);
    hide InRange, Covered, Proper, Oriented, Closed, Separated, MidsOk, Subdivide;
    SubdividedInRange(faces, n, mids, m);
    SubdividedCovered(faces, n, mids, m);
    SubdividedProper(faces, n, mids, m);
    SubdividedOriented(faces, n, mids, m);
    SubdividedClosed(faces, n, mids, m);
    SubdividedSeparated(faces, n, mids, m);
  }

  /** Every side of the subdivision has a new end. */
  lemma NewEnds(faces: seq<Surface>, n: nat, mids: seq<Surface>, m: nat, g: Half)
    requires ClosedSurface(faces, n) && MidsOk(faces, n, mids, m) && |mids| == |faces| && In(Subdivide(faces, mids), g)
    ensures From(Subdivide(faces, mids), g) >= n || To(Subdivide(faces, mids), g) >= n
  {
    hide ClosedSurface, MidsOk, Subdivide, PartOf, Place;
    PartEnds(faces, mids, g);
    PartRange(faces, n, mids, m, PartOf(g));
  }
}
