/** The icosphere: an icosahedron subdivided level by level, as the geometry engine builds it. */
module IcoSphere {
  import opened Powers
  import opened Mesh
  import Icosahedron
  import opened MidpointCache
  import opened DeepLevels
  import opened EdgeCount

  /** Where a vertex lies: at a corner of the icosahedron, or in the middle between two others. */
  datatype Position = Base(i: nat) | Middle(p: Position, q: Position)

  function Pow4(d: nat): (r: nat)
    ensures r > 0
  {
    if d == 0 then 1 else 4 * Pow4(d - 1)
  }

  lemma {:induction false} Pow4Monotone(a: nat, b: nat)
    requires a <= b
    ensures Pow4(a) <= Pow4(b)
    decreases b
  {
    if a < b { Pow4Monotone(a, b - 1); }
  }

  lemma Pow4Values()
    ensures Pow4(6) == 4096 && Pow4(7) == 16384 && Pow4(10) == 1048576 && Pow4(14) == 268435456
  {
    assert Pow4(2) == 16 && Pow4(4) == 256;
    assert Pow4(6) == 4096;
    assert Pow4(7) == 16384;
    assert Pow4(10) == 1048576;
    assert Pow4(14) == 268435456;
  }

  /** What a vertex in the middle of a side must be. */
  ghost predicate MiddleOf(vertices: seq<Position>, p: nat, a: nat, b: nat)
    requires p < |vertices| && a < |vertices| && b < |vertices|
  {
    vertices[p] == Middle(vertices[a], vertices[b]) || vertices[p] == Middle(vertices[b], vertices[a])
  }

  /** The middles of the sides `m` lie where they should. */
  ghost predicate Placed(faces: seq<Surface>, vertices: seq<Position>, m: map<Half, nat>) {
    forall x :: x in m ==>
      && In(faces, x) && m[x] < |vertices| && From(faces, x) < |vertices| && To(faces, x) < |vertices|
      && MiddleOf(vertices, m[x], From(faces, x), To(faces, x))
  }

  lemma PlacedMore(faces: seq<Surface>, vertices: seq<Position>, m: map<Half, nat>, v: Position)
    requires Placed(faces, vertices, m)
    ensures Placed(faces, vertices + [v], m)
  {
    hide From, To;
    forall x | x in m ensures MiddleOf(vertices + [v], m[x], From(faces, x), To(faces, x)) {
      assert MiddleOf(vertices, m[x], From(faces, x), To(faces, x));
    }
  }

  lemma PlacedAlso(faces: seq<Surface>, vertices: seq<Position>, m: map<Half, nat>, x: Half, p: nat)
    requires Placed(faces, vertices, m) && In(faces, x) && p < |vertices|
    requires From(faces, x) < |vertices| && To(faces, x) < |vertices|
      && MiddleOf(vertices, p, From(faces, x), To(faces, x))
    ensures Placed(faces, vertices, m[x := p])
  {
    hide From, To, MiddleOf;
  }

  lemma PlacedTwin(faces: seq<Surface>, vertices: seq<Position>, m: map<Half, nat>, x: Half, y: Half)
    requires Placed(faces, vertices, m) && Twins(faces, x, y) && y in m
    ensures m[y] < |vertices| && From(faces, x) < |vertices| && To(faces, x) < |vertices|
    ensures MiddleOf(vertices, m[y], From(faces, x), To(faces, x))
  {
    assert MiddleOf(vertices, m[y], From(faces, y), To(faces, y));
  }

  /** Every vertex in the middle of a side lies between the ends of the side. */
  ghost predicate MidsPlaced(faces: seq<Surface>, vertices: seq<Position>, mids: seq<Surface>) {
    && |mids| == |faces|
    && forall x :: In(faces, x) ==>
      && Mid(mids, x) < |vertices| && From(faces, x) < |vertices| && To(faces, x) < |vertices|
      && MiddleOf(vertices, Mid(mids, x), From(faces, x), To(faces, x))
  }

  /** Everything that holds while a level is being subdivided. */
  ghost predicate InLevel(faces: seq<Surface>, n: nat, base: map<nat, nat>, vertices: seq<Position>, index: nat,
                          cache: map<nat, nat>, m: map<Half, nat>, open: set<Half>, steps: nat) {
    && |vertices| == index && n <= LIMIT && Placed(faces, vertices, m)
    && LevelOk(faces, n, base, cache, index, m, open, steps) && Fresh(faces, base) && ClosedSurface(faces, n)
  }

  lemma InLevelBound(faces: seq<Surface>, n: nat, base: map<nat, nat>, vertices: seq<Position>, index: nat,
                     cache: map<nat, nat>, m: map<Half, nat>, open: set<Half>, steps: nat, x: Half)
    requires InLevel(faces, n, base, vertices, index, cache, m, open, steps) && In(faces, x)
    ensures n <= index == |vertices| && From(faces, x) < n && To(faces, x) < n
  {
    hide ClosedSurface, From, To;
    SideEnds(faces, n, x);
  }

  /** Looking up a side that is in the cache. */
  lemma LevelHit(faces: seq<Surface>, n: nat, base: map<nat, nat>, vertices: seq<Position>, index: nat,
        cache: map<nat, nat>, m: map<Half, nat>, open: set<Half>, steps: nat, x: Half)
    returns (open': set<Half>)
    requires InLevel(faces, n, base, vertices, index, cache, m, open, steps)
    requires In(faces, x) && x !in m && KeyOf(faces, x) in cache
    ensures InLevel(faces, n, base, vertices, index, cache, m[x := cache[KeyOf(faces, x)]], open', steps + 1)
  {
    hide LevelOk, Fresh, ClosedSurface, Placed, Key, KeyOf, From, To, MiddleOf, Twins;
    open' := StepHit(faces, n, base, cache, index, m, open, steps, x);
    var y := TwinOf(faces, n, x);
    HitIsTwin(faces, n, base, cache, index, m, open, steps, x, y);
    PlacedTwin(faces, vertices, m, x, y);
    PlacedAlso(faces, vertices, m, x, m[y]);
  }

  /** Adding the middle of a side that is not in the cache. */
  lemma LevelMiss(faces: seq<Surface>, n: nat, base: map<nat, nat>, vertices: seq<Position>, index: nat,
        cache: map<nat, nat>, m: map<Half, nat>, open: set<Half>, steps: nat, x: Half)
    returns (open': set<Half>)
    requires InLevel(faces, n, base, vertices, index, cache, m, open, steps)
    requires In(faces, x) && x !in m && KeyOf(faces, x) !in cache && From(faces, x) < |vertices|
      && To(faces, x) < |vertices|
    ensures InLevel(faces, n, base, vertices + [Middle(vertices[From(faces, x)], vertices[To(faces, x)])], index + 1,
                    cache[KeyOf(faces, x) := index], m[x := index], open', steps + 1)
  {
    hide LevelOk, Fresh, ClosedSurface, Placed, Key, KeyOf, From, To;
    open' := StepMiss(faces, n, base, cache, index, m, open, steps, x);
    var v := Middle(vertices[From(faces, x)], vertices[To(faces, x)]);
    PlacedMore(faces, vertices, m, v);
    PlacedAlso(faces, vertices + [v], m, x, index);
  }

  // ----- counts -----

  /** After `d` levels there are 20 * 4^d faces and 10 * 4^d + 2 vertices. */
  predicate CountsOk(d: nat, faces: nat, n: nat) {
    faces == 20 * Pow4(d) && n == 10 * Pow4(d) + 2
  }

  lemma CountsNext(d: nat, faces: nat, n: nat, n': nat)
    requires CountsOk(d, faces, n) && 2 * (n' - n) == 3 * faces
    ensures CountsOk(d + 1, 4 * faces, n')
  {
  }

  lemma CountsFit(d: nat, faces: nat, n: nat)
    requires CountsOk(d, faces, n) && d <= 14
    ensures n <= LIMIT
  {
    Pow4Monotone(d, 14);
    Pow4Values();
    LimitValue();
    hide Pow4, Pow2;
  }

  // ----- one level, face by face -----

  /** The sides of the first faces have been met, with these middles. */
  ghost predicate MetSoFar(faces: seq<Surface>, mids: seq<Surface>, m: map<Half, nat>) {
    && |mids| <= |faces|
    && forall x: Half :: (x in m <==> x.face < |mids| && x.k < 3) && (x in m ==> m[x] == Corner(mids[x.face], x.k))
  }

  lemma FaceSides(faces: seq<Surface>, i: nat)
    requires i < |faces|
    ensures var s := faces[i];
      && In(faces, Half(i, 0)) && From(faces, Half(i, 0)) == s.v1 && To(faces, Half(i, 0)) == s.v2
      && In(faces, Half(i, 1)) && From(faces, Half(i, 1)) == s.v2 && To(faces, Half(i, 1)) == s.v3
      && In(faces, Half(i, 2)) && From(faces, Half(i, 2)) == s.v3 && To(faces, Half(i, 2)) == s.v1
  {
  }

  function WithFace(m: map<Half, nat>, i: nat, a: nat, b: nat, c: nat): map<Half, nat> {
    m[Half(i, 0) := a][Half(i, 1) := b][Half(i, 2) := c]
  }

  /** Meeting the three sides of the next face. */
  lemma MetMore(faces: seq<Surface>, mids: seq<Surface>, m: map<Half, nat>, i: nat, a: nat, b: nat, c: nat)
    requires MetSoFar(faces, mids, m) && i == |mids| < |faces|
    ensures MetSoFar(faces, mids + [Surface(a, b, c)], WithFace(m, i, a, b, c))
  {
  }

  lemma MetAll(faces: seq<Surface>, mids: seq<Surface>, m: map<Half, nat>)
    requires |mids| == |faces| && MetSoFar(faces, mids, m)
    ensures AllMet(faces, mids, m)
  {
  }

  lemma AllPlaced(faces: seq<Surface>, vertices: seq<Position>, mids: seq<Surface>, m: map<Half, nat>)
    requires AllMet(faces, mids, m) && Placed(faces, vertices, m)
    ensures MidsPlaced(faces, vertices, mids)
  {
    hide From, To, Mid, MiddleOf;
  }

  lemma NothingMet(faces: seq<Surface>)
    ensures MetSoFar(faces, [], map[]) && Subdivide(faces[..0], []) == []
  {
  }

  lemma FourFaces(faces: seq<Surface>, mids: seq<Surface>, i: nat, a: nat, b: nat, c: nat)
    requires i == |mids| < |faces|
    ensures var s := faces[i];
      Subdivide(faces[..i + 1], mids + [Surface(a, b, c)])
      == Subdivide(faces[..i], mids) + [Surface(s.v1, a, c)] + [Surface(s.v2, b, a)] + [Surface(s.v3, c, b)]
        + [Surface(a, b, c)]
  {
    assert faces[..i + 1] == faces[..i] + [faces[i]];
    SubdivideMore(faces[..i], mids, faces[i], Surface(a, b, c));
  }

  lemma LevelStarts(faces: seq<Surface>, l: nat, n: nat, cache: map<nat, nat>, vertices: seq<Position>)
    requires |vertices| == n <= LIMIT && l <= n && KeysBelow(cache, l) && EndsAbove(faces, l) && ClosedSurface(faces, n)
    ensures InLevel(faces, n, cache, vertices, n, cache, map[], {}, 0)
  {
    hide KeysBelow, EndsAbove, ClosedSurface, KeyOf;
    StartFresh(faces, l, n, cache);
  }

  lemma LevelDone(faces: seq<Surface>, l: nat, n: nat, base: map<nat, nat>, vertices: seq<Position>, index: nat,
                  cache: map<nat, nat>, m: map<Half, nat>, open: set<Half>, mids: seq<Surface>)
    requires |mids| == |faces| && MetSoFar(faces, mids, m) && l <= n && KeysBelow(base, l)
    requires InLevel(faces, n, base, vertices, index, cache, m, open, 3 * |faces|)
    ensures MidsOk(faces, n, mids, index) && ClosedSurface(Subdivide(faces, mids), index) && |vertices| == index
    ensures KeysBelow(cache, n) && EndsAbove(Subdivide(faces, mids), n) && 2 * (index - n) == 3 * |faces|
    ensures MidsPlaced(faces, vertices, mids)
  {
    assert CacheExact(faces, base, cache, m);
    hide ClosedSurface, Subdivide, MidsOk, KeysBelow, EndsAbove, Placed, MidsPlaced, LevelOk, CacheExact, Fresh;
    MetAll(faces, mids, m);
    AllPlaced(faces, vertices, mids, m);
    LevelEnds(faces, n, base, cache, index, m, open, 3 * |faces|, mids);
    SubdividedSurface(faces, n, mids, index);
    EndsAboveNext(faces, n, mids, index);
    KeysBelowNext(faces, l, n, base, cache, m);
  }

  // ----- the first level -----

  lemma FacesListed()
    ensures Icosahedron.Faces() == [] + [Surface(0, 11, 5), Surface(0, 5, 1), Surface(0, 1, 7), Surface(0, 7, 10),
      Surface(0, 10, 11)]
      + [Surface(1, 5, 9), Surface(5, 11, 4), Surface(11, 10, 2), Surface(10, 7, 6), Surface(7, 1, 8)]
      + [Surface(3, 9, 4), Surface(3, 4, 2), Surface(3, 2, 6), Surface(3, 6, 8), Surface(3, 8, 9)]
      + [Surface(4, 9, 5), Surface(2, 4, 11), Surface(6, 2, 10), Surface(8, 6, 7), Surface(9, 8, 1)]
  {
    var s := Icosahedron.Faces();
    assert s[0] == Surface(0, 11, 5) && s[1] == Surface(0, 5, 1) && s[2] == Surface(0, 1, 7)
      && s[3] == Surface(0, 7, 10) && s[4] == Surface(0, 10, 11);
    assert s[5] == Surface(1, 5, 9) && s[6] == Surface(5, 11, 4) && s[7] == Surface(11, 10, 2)
      && s[8] == Surface(10, 7, 6) && s[9] == Surface(7, 1, 8);
    assert s[10] == Surface(3, 9, 4) && s[11] == Surface(3, 4, 2) && s[12] == Surface(3, 2, 6)
      && s[13] == Surface(3, 6, 8) && s[14] == Surface(3, 8, 9);
    assert s[15] == Surface(4, 9, 5) && s[16] == Surface(2, 4, 11) && s[17] == Surface(6, 2, 10)
      && s[18] == Surface(8, 6, 7) && s[19] == Surface(9, 8, 1);
  }

  lemma NothingCached(faces: seq<Surface>)
    ensures KeysBelow(map[], 0) && EndsAbove(faces, 0)
  {
  }

  lemma FirstCounts()
    ensures CountsOk(0, 20, 12)
  {
  }

  lemma EdgesCounted(d: nat, faces: seq<Surface>, n: nat)
    requires CountsOk(d, |faces|, n) && 2 * |Edges(faces)| == 3 * |faces|
    ensures |Edges(faces)| == 30 * Pow4(d)
  {
  }

  // ----- exported indices -----

  /** Assignment to `uint16_t`. */
  function Narrow(v: nat): nat {
    v % 65536
  }

  function Exported(faces: seq<Surface>): (r: seq<nat>)
    ensures |r| == 3 * |faces|
  {
    if faces == [] then []
    else
      var (n, s) := (|faces| - 1, faces[|faces| - 1]);
      Exported(faces[..n]) + [Narrow(s.v1)] + [Narrow(s.v2)] + [Narrow(s.v3)]
  }

  lemma {:induction false} ExportedAt(faces: seq<Surface>, x: Half)
    requires In(faces, x)
    ensures Exported(faces)[3 * x.face + x.k] == Narrow(From(faces, x))
  {
    if x.face < |faces| - 1 {
      ExportedAt(faces[..|faces| - 1], x);
    }
  }

  ghost predicate ExportExact(faces: seq<Surface>) {
    forall x :: In(faces, x) ==> Exported(faces)[3 * x.face + x.k] == From(faces, x)
  }

  /** The exported indices are the real ones exactly when there are at most 65536 vertices. */
  lemma ExportExactIff(faces: seq<Surface>, n: nat)
    requires ClosedSurface(faces, n)
    ensures ExportExact(faces) <==> n <= 65536
  {
    SurfaceProper(faces, n);
    hide ClosedSurface, From, Exported;
    if n <= 65536 {
      forall x | In(faces, x) ensures Exported(faces)[3 * x.face + x.k] == From(faces, x) {
        ExportedAt(faces, x);
        SideEnds(faces, n, x);
      }
    } else {
      assert HasCorner(faces, 65536);
      var x :| In(faces, x) && From(faces, x) == 65536;
      ExportedAt(faces, x);
      assert Narrow(65536) == 0;
    }
  }

  /** So they are exact up to level 6 and no further. */
  lemma ExactDepths(d: nat, faces: seq<Surface>, n: nat)
    requires CountsOk(d, |faces|, n) && ClosedSurface(faces, n)
    ensures ExportExact(faces) <==> d <= 6
  {
    hide ClosedSurface, ExportExact, Pow4;
    ExportExactIff(faces, n);
    Pow4Values();
    if d <= 6 { Pow4Monotone(d, 6); } else { Pow4Monotone(7, d); }
  }

  /** The Euler characteristic of a sphere. */
  lemma EulerCharacteristic(d: nat, faces: seq<Surface>, n: nat)
    requires CountsOk(d, |faces|, n) && ClosedSurface(faces, n)
    ensures n + |faces| == |Edges(faces)| + 2
  {
    hide ClosedSurface, Edges;
    EdgesOfSurface(faces, n);
    EdgesCounted(d, faces, n);
  }

  // ----- what holds at any depth -----

  /** Every cached vertex exists. */
  ghost predicate CacheInside(cache: map<nat, nat>, n: nat) {
    forall k :: k in cache ==> cache[k] < n
  }

  ghost predicate CacheKept(cache: map<nat, nat>, cache': map<nat, nat>) {
    forall k :: k in cache ==> k in cache' && cache'[k] == cache[k]
  }

  ghost predicate FacesInside(faces: seq<Surface>, n: nat) {
    forall i :: 0 <= i < |faces| ==> faces[i].v1 < n && faces[i].v2 < n && faces[i].v3 < n
  }

  lemma SubdividedInside(faces: seq<Surface>, mids: seq<Surface>, n: nat)
    requires |mids| == |faces| && FacesInside(faces, n) && FacesInside(mids, n)
    ensures FacesInside(Subdivide(faces, mids), n)
  {
    hide Subdivide;
    var s := Subdivide(faces, mids);
    forall g | 0 <= g < |s| ensures s[g].v1 < n && s[g].v2 < n && s[g].v3 < n {
      SubdivideAt(faces, mids, g / 4, g % 4);
    }
  }

  lemma InsideMore(faces: seq<Surface>, n: nat, n': nat)
    requires FacesInside(faces, n) && n <= n'
    ensures FacesInside(faces, n')
  {
  }

  /** A side whose twin comes later is not in the cache when its turn comes. */
  lemma LateMiss(faces: seq<Surface>, n: nat, base: map<nat, nat>, vertices: seq<Position>, index: nat,
        cache: map<nat, nat>, m: map<Half, nat>, open: set<Half>, steps: nat, x: Half)
    requires InLevel(faces, n, base, vertices, index, cache, m, open, steps)
    requires In(faces, x) && x !in m && Late(faces, x) && forall z :: z in m ==> z.face <= x.face
    ensures KeyOf(faces, x) !in cache
  {
    hide LevelOk, Fresh, ClosedSurface, Placed, KeyOf, Twins;
    var y := TwinOf(faces, n, x);
    HitIsTwin(faces, n, base, cache, index, m, open, steps, x, y);
  }

  /** How many new vertices there are when `i` faces are done. */
  lemma NewSoFar(faces: seq<Surface>, n: nat, base: map<nat, nat>, vertices: seq<Position>, index: nat,
        cache: map<nat, nat>, m: map<Half, nat>, open: set<Half>, i: nat)
    requires InLevel(faces, n, base, vertices, index, cache, m, open, 3 * i)
    ensures n <= index && 3 * i <= 2 * (index - n)
  {
  }

  lemma NumberedMore(faces: seq<Surface>, n: nat, mids: seq<Surface>, at: seq<nat>, s: Surface, index: nat)
    requires |mids| < |faces| && Numbered(faces, n, mids, at)
    requires NumberedAt(faces, n, mids + [s], at + [index], |mids|)
    ensures Numbered(faces, n, mids + [s], at + [index])
  {
    hide LateFace;
    var (mids', at') := (mids + [s], at + [index]);
    forall i | 0 <= i < |mids'| ensures NumberedAt(faces, n, mids', at', i) {
      assert i < |mids| ==> NumberedAt(faces, n, mids, at, i);
    }
  }

  lemma AgreesMore(faces: seq<Surface>, mids: seq<Surface>, s: Surface)
    requires |mids| < |faces| && MidsAgree(faces, mids) && FaceAgrees(faces[|mids|], s)
    ensures MidsAgree(faces, mids + [s])
  {
    hide FaceAgrees;
  }

  lemma NothingNumbered(faces: seq<Surface>, n: nat)
    ensures Numbered(faces, n, [], [n]) && MidsAgree(faces, []) && FacesInside([], n)
  {
  }

  lemma MetBefore(faces: seq<Surface>, mids: seq<Surface>, m: map<Half, nat>, i: nat)
    requires MetSoFar(faces, mids, m) && i == |mids|
    ensures forall x: Half :: x in m ==> x.face < i
  {
  }

  lemma FaceInside(faces: seq<Surface>, n: nat, i: nat)
    requires FacesInside(faces, n) && i < |faces|
    ensures faces[i].v1 < n && faces[i].v2 < n && faces[i].v3 < n
  {
  }

  lemma MidsInsideMore(mids: seq<Surface>, n: nat, n': nat, a: nat, b: nat, c: nat)
    requires FacesInside(mids, n) && n <= n' && a < n' && b < n' && c < n'
    ensures FacesInside(mids + [Surface(a, b, c)], n')
  {
  }

  lemma NumberedNext(faces: seq<Surface>, n: nat, mids: seq<Surface>, at: seq<nat>, i: nat, index: nat, index': nat,
        a: nat, b: nat, c: nat)
    requires i == |mids| < |faces| && |at| == i + 1 && at[i] == index
    requires n <= index <= n + 3 * i && 3 * i <= 2 * (index - n)
    requires LateFace(faces, i) ==> a == index && b == a + 1 && c == a + 2 && index' == index + 3
    ensures NumberedAt(faces, n, mids + [Surface(a, b, c)], at + [index'], i)
  {
    hide LateFace;
  }

  lemma IcosahedronInside()
    ensures FacesInside(Icosahedron.Faces(), 12) && CacheInside(map[], 12) && 20 * Pow4(0) == 20
  {
  }

  lemma NotLateYet(faces: seq<Surface>)
    ensures LateAt(0, faces)
  {
  }

  lemma CountFaces(d: nat, faces: seq<Surface>, mids: seq<Surface>)
    requires |mids| == |faces| == 20 * Pow4(d)
    ensures |Subdivide(faces, mids)| == 20 * Pow4(d + 1)
  {
  }

  lemma LevelCounts(d: nat, faces: nat, n: nat)
    requires CountsOk(d, faces, n)
    ensures d == 10 ==> faces > 5_000_000
    ensures d == 14 ==> n == 2_684_354_562
  {
    Pow4Values();
    hide Pow4;
  }

  /** One of the first fifteen levels. */
  lemma LevelRight(d: nat, faces: seq<Surface>, n: nat, mids: seq<Surface>, n': nat, at: seq<nat>)
    requires d <= 14 && |mids| == |faces| && ClosedSurface(faces, n) && MidsOk(faces, n, mids, n')
    requires CountsOk(d, |faces|, n) && 2 * (n' - n) == 3 * |faces|
    requires LateAt(d, faces) && Numbered(faces, n, mids, at)
    ensures CountsOk(d + 1, |Subdivide(faces, mids)|, n')
    ensures d < 14 ==> LateAt(d + 1, Subdivide(faces, mids))
    ensures d == 14 ==> Twisted(Subdivide(faces, mids))
  {
    hide *;
    CountsNext(d, |faces|, n, n');
    LevelCounts(d, |faces|, n);
    if d < 14 {
      LateNext(d, faces, n, mids, n');
    } else {
      ClashAfterFifteen(faces, n, mids, at);
    }
  }

  /** Any later level. */
  lemma LevelWrong(d: nat, faces: seq<Surface>, mids: seq<Surface>)
    requires d >= 15 && |mids| == |faces| && MidsAgree(faces, mids)
    requires if d == 15 then Twisted(faces) else Degenerate(faces)
    ensures Degenerate(Subdivide(faces, mids))
  {
    hide *;
    if d == 15 {
      TwistedNext(faces, mids);
    } else {
      DegenerateNext(faces, mids);
    }
  }

  class IcoSphereCreator {
    var vertices: seq<Position>
    var surfaces: seq<Surface>
    var index: nat
    var cache: map<nat, nat>

    constructor ()
      ensures vertices == [] && surfaces == [] && index == 0 && cache == map[]
    {
      vertices, surfaces, index, cache := [], [], 0, map[];
    }

    method AddVertex(v: Position) returns (i: nat)
      modifies this`vertices, this`index
      ensures vertices == old(vertices) + [v] && i == old(index) && index == i + 1
    {
      vertices := vertices + [v];
      i := index;
      index := index + 1;
    }

    method GetMiddlePoint(p1: nat, p2: nat) returns (i: nat)
      requires p1 < |vertices| && p2 < |vertices|
      modifies this`vertices, this`index, this`cache
      ensures var k := Key(p1, p2);
        if k in old(cache) then
          vertices == old(vertices) && index == old(index) && cache == old(cache) && i == cache[k]
        else
          && vertices == old(vertices) + [Middle(old(vertices)[p1], old(vertices)[p2])]
          && i == old(index) && index == i + 1 && cache == old(cache)[k := i]
    {
      var key := Key(p1, p2);
      if key in cache {
        return cache[key];
      }
      i := AddVertex(Middle(vertices[p1], vertices[p2]));
      cache := cache[key := i];
    }

    /** The middle of the side from `p1` to `p2`. In a level that is `good` so far this is side `x`. */
    method MiddleOfSide(p1: nat, p2: nat, ghost good: bool, ghost faces: seq<Surface>, ghost n: nat,
          ghost base: map<nat, nat>, ghost m: map<Half, nat>, ghost open: set<Half>, ghost steps: nat, ghost x: Half)
      returns (i: nat, ghost open': set<Half>)
      requires p1 < |vertices| == index && p2 < |vertices| && CacheInside(cache, index)
      requires good ==> InLevel(faces, n, base, vertices, index, cache, m, open, steps)
      requires good ==> In(faces, x) && x !in m && p1 == From(faces, x) && p2 == To(faces, x)
      modifies this`vertices, this`index, this`cache
      ensures i < index == |vertices| && old(vertices) <= vertices && CacheInside(cache, index)
      ensures CacheKept(old(cache), cache) && Key(p1, p2) in cache && cache[Key(p1, p2)] == i
      ensures if Key(p1, p2) in old(cache) then index == old(index) else i == old(index) && index == i + 1
      ensures good ==> InLevel(faces, n, base, vertices, index, cache, m[x := i], open', steps + 1)
    {
      hide InLevel, From, To, Key;
      ghost var (vertices0, index0, cache0) := (vertices, index, cache);
      i := GetMiddlePoint(p1, p2);
      open' := open;
      if good {
        assert Key(p1, p2) == KeyOf(faces, x);
        InLevelBound(faces, n, base, vertices0, index0, cache0, m, open, steps, x);
        if KeyOf(faces, x) in cache0 {
          open' := LevelHit(faces, n, base, vertices0, index0, cache0, m, open, steps, x);
        } else {
          open' := LevelMiss(faces, n, base, vertices0, index0, cache0, m, open, steps, x);
        }
      }
    }

    /** What a level needs to come out right; `l` vertices were there one level earlier. */
    ghost predicate Good(l: nat)
      reads this
    {
      && index <= LIMIT && ClosedSurface(surfaces, index)
      && l <= index && KeysBelow(cache, l) && EndsAbove(surfaces, l)
    }

    lemma GoodStarts(l: nat)
      requires Good(l) && |vertices| == index
      ensures InLevel(surfaces, index, cache, vertices, index, cache, map[], {}, 0) && l <= index && KeysBelow(cache, l)
    {
      hide ClosedSurface, KeysBelow, EndsAbove, InLevel;
      LevelStarts(surfaces, l, index, cache, vertices);
    }

    /** The three middles of face `i`. */
    method MiddlesOfFace(s: Surface, ghost good: bool, ghost faces: seq<Surface>, ghost n: nat,
          ghost base: map<nat, nat>, ghost m: map<Half, nat>, ghost open: set<Half>, ghost i: nat)
      returns (a: nat, b: nat, c: nat, ghost open': set<Half>)
      requires |vertices| == index && CacheInside(cache, index)
      requires i < |faces| && s == faces[i] && s.v1 < index && s.v2 < index && s.v3 < index
      requires forall x: Half :: x in m ==> x.face < i
      requires good ==> InLevel(faces, n, base, vertices, index, cache, m, open, 3 * i)
      modifies this`vertices, this`index, this`cache
      ensures |vertices| == index && old(vertices) <= vertices && CacheInside(cache, index)
      ensures a < index && b < index && c < index && FaceAgrees(s, Surface(a, b, c))
      ensures old(index) <= index <= old(index) + 3
      ensures good ==>
        InLevel(faces, n, base, vertices, index, cache, WithFace(m, i, a, b, c), open', 3 * i + 3)
      ensures good && LateFace(faces, i) ==>
        a == old(index) && b == a + 1 && c == a + 2 && index == old(index) + 3
    {
      hide InLevel, Key, Late;
      FaceSides(faces, i);
      ghost var m1 := m;
      open' := open;
      if good && LateFace(faces, i) {
        LateMiss(faces, n, base, vertices, index, cache, m1, open', 3 * i, Half(i, 0));
      }
      a, open' := MiddleOfSide(s.v1, s.v2, good, faces, n, base, m1, open', 3 * i, Half(i, 0));
      m1 := m1[Half(i, 0) := a];
      if good && LateFace(faces, i) {
        LateMiss(faces, n, base, vertices, index, cache, m1, open', 3 * i + 1, Half(i, 1));
      }
      b, open' := MiddleOfSide(s.v2, s.v3, good, faces, n, base, m1, open', 3 * i + 1, Half(i, 1));
      m1 := m1[Half(i, 1) := b];
      if good && LateFace(faces, i) {
        LateMiss(faces, n, base, vertices, index, cache, m1, open', 3 * i + 2, Half(i, 2));
      }
      c, open' := MiddleOfSide(s.v3, s.v1, good, faces, n, base, m1, open', 3 * i + 2, Half(i, 2));
    }

    /** One pass of the loop in `create`: every face is replaced by four. */
    method SubdivideLevel(ghost l: nat) returns (ghost mids: seq<Surface>, ghost at: seq<nat>)
      requires |vertices| == index && FacesInside(surfaces, index) && CacheInside(cache, index)
      modifies this
      ensures |mids| == |old(surfaces)| && surfaces == Subdivide(old(surfaces), mids)
      ensures |vertices| == index && FacesInside(surfaces, index) && CacheInside(cache, index)
      ensures old(vertices) <= vertices && MidsAgree(old(surfaces), mids)
      ensures old(Good(l)) ==>
        && MidsOk(old(surfaces), old(index), mids, index) && MidsPlaced(old(surfaces), vertices, mids)
        && ClosedSurface(surfaces, index)
        && KeysBelow(cache, old(index)) && EndsAbove(surfaces, old(index))
        && 2 * (index - old(index)) == 3 * |old(surfaces)|
        && Numbered(old(surfaces), old(index), mids, at)
    {
      hide *;
      ghost var good := Good(l);
      var faces := surfaces;
      ghost var (n, base) := (index, cache);
      if good {
        GoodStarts(l);
      }
      ghost var m: map<Half, nat> := map[];
      ghost var open: set<Half> := {};
      var newSurfaces: seq<Surface> := [];
      mids, at := [], [n];
      NothingMet(faces);
      NothingNumbered(faces, n);
      for i := 0 to |faces|
        invariant |mids| == i && newSurfaces == Subdivide(faces[..i], mids) && surfaces == faces
        invariant |vertices| == index && n <= index <= n + 3 * i && CacheInside(cache, index)
        invariant FacesInside(faces, n) && FacesInside(mids, index)
        invariant good ==> InLevel(faces, n, base, vertices, index, cache, m, open, 3 * i)
        invariant MetSoFar(faces, mids, m) && MidsAgree(faces, mids)
        invariant |at| == i + 1 && at[i] == index && (good ==> Numbered(faces, n, mids, at))
        invariant old(vertices) <= vertices
      {
        var s := faces[i];
        ghost var (m0, index0) := (m, index);
        MetBefore(faces, mids, m, i);
        FaceInside(faces, n, i);
        if good {
          NewSoFar(faces, n, base, vertices, index, cache, m, open, i);
        }
        var a, b, c;
        a, b, c, open := MiddlesOfFace(s, good, faces, n, base, m, open, i);
        m := WithFace(m, i, a, b, c);
        newSurfaces := newSurfaces + [Surface(s.v1, a, c)];
        newSurfaces := newSurfaces + [Surface(s.v2, b, a)];
        newSurfaces := newSurfaces + [Surface(s.v3, c, b)];
        newSurfaces := newSurfaces + [Surface(a, b, c)];
        MetMore(faces, mids, m0, i, a, b, c);
        FourFaces(faces, mids, i, a, b, c);
        MidsInsideMore(mids, index0, index, a, b, c);
        AgreesMore(faces, mids, Surface(a, b, c));
        if good {
          NumberedNext(faces, n, mids, at, i, index0, index, a, b, c);
          NumberedMore(faces, n, mids, at, Surface(a, b, c), index);
        }
        mids, at := mids + [Surface(a, b, c)], at + [index];
      }
      assert faces[..|faces|] == faces;
      surfaces := newSurfaces;
      InsideMore(faces, n, index);
      SubdividedInside(faces, mids, index);
      if good {
        assert l <= n && KeysBelow(base, l);
        LevelDone(faces, l, n, base, vertices, index, cache, m, open, mids);
      }
    }

    /** The twelve vertices and twenty faces of the icosahedron. */
    method AddIcosahedron()
      requires vertices == [] && surfaces == [] && index == 0
      modifies this`vertices, this`surfaces, this`index
      ensures |vertices| == index == 12 && surfaces == Icosahedron.Faces()
    {
      var i := AddVertex(Base(0));
      i := AddVertex(Base(1));
      i := AddVertex(Base(2));
      i := AddVertex(Base(3));
      i := AddVertex(Base(4));
      i := AddVertex(Base(5));
      i := AddVertex(Base(6));
      i := AddVertex(Base(7));
      i := AddVertex(Base(8));
      i := AddVertex(Base(9));
      i := AddVertex(Base(10));
      i := AddVertex(Base(11));

      // around vertex 0
      surfaces := surfaces + [Surface(0, 11, 5), Surface(0, 5, 1), Surface(0, 1, 7), Surface(0, 7, 10),
        Surface(0, 10, 11)];
      // next to them
      surfaces := surfaces + [Surface(1, 5, 9), Surface(5, 11, 4), Surface(11, 10, 2), Surface(10, 7, 6),
        Surface(7, 1, 8)];
      // around vertex 3
      surfaces := surfaces + [Surface(3, 9, 4), Surface(3, 4, 2), Surface(3, 2, 6), Surface(3, 6, 8), Surface(3, 8, 9)];
      // next to them
      surfaces := surfaces + [Surface(4, 9, 5), Surface(2, 4, 11), Surface(6, 2, 10), Surface(8, 6, 7),
        Surface(9, 8, 1)];
      FacesListed();
    }

    /** The whole construction. The mesh is closed as long as there are at most fifteen levels; the sixteenth
        level gives two edges of one face the same middle, and from then on some face has a corner twice. */
    method Create(recursionLevel: nat)
      requires vertices == [] && surfaces == [] && index == 0 && cache == map[]
      modifies this
      ensures |vertices| == index && |surfaces| == 20 * Pow4(recursionLevel)
      ensures ClosedSurface(surfaces, index) <==> recursionLevel <= 15
      ensures recursionLevel <= 15 ==>
        CountsOk(recursionLevel, |surfaces|, index) && |Edges(surfaces)| == 30 * Pow4(recursionLevel)
      ensures recursionLevel >= 16 ==> Degenerate(surfaces)
    {
      hide *;
      AddIcosahedron();
      FirstCounts();
      IcosahedronInside();
      Icosahedron.ClosedIcosahedron();
      NothingCached(surfaces);
      NotLateYet(surfaces);
      ghost var l := 0;
      for i := 0 to recursionLevel
        invariant |vertices| == index && |surfaces| == 20 * Pow4(i)
        invariant FacesInside(surfaces, index) && CacheInside(cache, index)
        invariant i <= 15 ==> ClosedSurface(surfaces, index) && CountsOk(i, |surfaces|, index)
        invariant i <= 15 ==> l <= index && KeysBelow(cache, l) && EndsAbove(surfaces, l)
        invariant i <= 14 ==> LateAt(i, surfaces)
        invariant i == 15 ==> Twisted(surfaces)
        invariant i >= 16 ==> Degenerate(surfaces)
      {
        ghost var (faces, n) := (surfaces, index);
        if i <= 14 {
          LevelGood(i, l);
        }
        ghost var mids, at := SubdivideLevel(l);
        CountFaces(i, faces, mids);
        if i <= 14 {
          LevelRight(i, faces, n, mids, index, at);
        } else {
          LevelWrong(i, faces, mids);
        }
        l := n;
      }
      if recursionLevel <= 15 {
        EdgesOfSurface(surfaces, index);
        EdgesCounted(recursionLevel, surfaces, index);
      } else {
        DegenerateNotClosed(surfaces, index);
      }
    }

    lemma LevelGood(d: nat, l: nat)
      requires d <= 14 && CountsOk(d, |surfaces|, index) && ClosedSurface(surfaces, index)
      requires l <= index && KeysBelow(cache, l) && EndsAbove(surfaces, l)
      ensures Good(l)
    {
      hide ClosedSurface, KeysBelow, EndsAbove, CountsOk;
      CountsFit(d, |surfaces|, index);
    }

    /** The corners of all faces, narrowed to 16 bits. */
    method Indices() returns (il: seq<nat>)
      ensures il == Exported(surfaces)
    {
      il := [];
      for i := 0 to |surfaces|
        invariant il == Exported(surfaces[..i])
      {
        var s := surfaces[i];
        il := il + [Narrow(s.v1)];
        il := il + [Narrow(s.v2)];
        il := il + [Narrow(s.v3)];
        assert surfaces[..i + 1][..i] == surfaces[..i];
      }
      assert surfaces[..|surfaces|] == surfaces;
    }
  }
}
