/** What becomes of the mesh when it is subdivided more than fifteen times: keys clash, and faces degenerate. */
module DeepLevels {
  import opened Powers
  import opened Masks
  import opened Mesh
  import opened MidpointCache

  // ----- keys that clash -----

  /** The key of two vertices that both need 33 bits: the highest bit of the second runs into the first. */
  lemma HighKey(u: nat, w: nat)
    requires u < w < LIMIT
    ensures Key(LIMIT + u, LIMIT + w) == Shift(BitOr(u, 1), 32) + w
  {
    hide Pow2, Shift, BitOr;
    ShiftSum(LIMIT, u, 32);
    ShiftPow2(32, 32);
    ShiftSum(u, LIMIT - u, 32);
    assert Shift(u, 32) < Pow2(64);
    ShiftOne(32);
    Wrapped(Shift(u, 32), Pow2(64));
    OrSplit(u, 0, 32, 1, w);
    OrZero(w);
  }

  lemma Wrapped(x: nat, y: nat)
    requires x < y
    ensures (y + x) % y == x
  {
  }

  /** Two of the edges between three new vertices in a row have the same key. */
  lemma KeysClash(i: nat)
    requires i % 2 == 0 && LIMIT <= i && i + 2 < 2 * LIMIT
    ensures Key(i + 1, i + 2) == Key(i + 2, i)
  {
    hide Pow2, Key;
    PowerEven(31);
    var v := (i - LIMIT) / 2;
    assert i == LIMIT + 2 * v;
    KeysClashAt(v);
  }

  lemma KeysClashAt(v: nat)
    requires 2 * v + 2 < LIMIT
    ensures Key(LIMIT + (2 * v + 1), LIMIT + (2 * v + 2)) == Key(LIMIT + (2 * v + 2), LIMIT + 2 * v)
  {
    hide *;
    KeySymmetric(LIMIT + (2 * v + 2), LIMIT + 2 * v);
    HighKey(2 * v, 2 * v + 2);
    HighKey(2 * v + 1, 2 * v + 2);
    LowestSet(v);
  }

  lemma LowestSet(v: nat)
    ensures BitOr(2 * v, 1) == 2 * v + 1 && BitOr(2 * v + 1, 1) == 2 * v + 1
  {
    OrZero(v);
    OrHalves(2 * v, 1);
    OrHalves(2 * v + 1, 1);
    hide BitOr;
  }

  lemma PowerEven(n: nat)
    ensures Pow2(n + 1) % 2 == 0
  {
    hide Pow2;
    Pow2Step(n);
  }

  // ----- faces all of whose neighbours come later -----

  /** The face on the other side of `x` comes later. */
  ghost predicate Late(faces: seq<Surface>, x: Half) {
    forall y :: Twins(faces, x, y) ==> x.face < y.face
  }

  ghost predicate LateFace(faces: seq<Surface>, i: nat) {
    Late(faces, Half(i, 0)) && Late(faces, Half(i, 1)) && Late(faces, Half(i, 2))
  }

  /** Both halves of such a side are such sides again. */
  lemma LateHalves(faces: seq<Surface>, n: nat, mids: seq<Surface>, m: nat, x: Half)
    requires |mids| == |faces| && In(faces, x) && Late(faces, x) && ClosedSurface(faces, n) && MidsOk(faces, n, mids, m)
    ensures Late(Subdivide(faces, mids), Place(First(x))) && Late(Subdivide(faces, mids), Place(Second(x)))
  {
    hide ClosedSurface, MidsOk, Subdivide, Twins;
    var s := Subdivide(faces, mids);
    PlacePart(faces, First(x));
    PlacePart(faces, Second(x));
    forall h | Twins(s, Place(First(x)), h) ensures Place(First(x)).face < h.face {
      PartTwins(faces, n, mids, m, Place(First(x)), h);
    }
    forall h | Twins(s, Place(Second(x)), h) ensures Place(Second(x)).face < h.face {
      PartTwins(faces, n, mids, m, Place(Second(x)), h);
    }
  }

  /** The face in the middle comes after the three at the corners. */
  lemma LateInner(faces: seq<Surface>, n: nat, mids: seq<Surface>, m: nat, i: nat, j: nat)
    requires |mids| == |faces| && i < |faces| && j < 3 && ClosedSurface(faces, n) && MidsOk(faces, n, mids, m)
    ensures Late(Subdivide(faces, mids), Half(4 * i + j, 1))
  {
    hide ClosedSurface, MidsOk, Subdivide, Twins;
    var (s, g) := (Subdivide(faces, mids), Half(4 * i + j, 1));
    forall h | Twins(s, g, h) ensures g.face < h.face {
      PartTwins(faces, n, mids, m, g, h);
      assert PartOf(g) == Inner(i, j, PrevSide(j));
    }
  }

  /** From the eleventh level on some face has a late side; from the thirteenth on one has only late sides. */
  ghost predicate LateAt(d: nat, faces: seq<Surface>) {
    && (d == 11 ==> |faces| > 20_000_000 && Late(faces, Half(20_000_000, 1)))
    && (d == 12 ==> |faces| > 80_000_001 && Late(faces, Half(80_000_001, 0)) && Late(faces, Half(80_000_001, 1)))
    && (d == 13 ==> |faces| > 320_000_005 && LateFace(faces, 320_000_005))
    && (d == 14 ==> |faces| > 1_280_000_021 && LateFace(faces, 1_280_000_020) && LateFace(faces, 1_280_000_021))
  }

  lemma LateNext(d: nat, faces: seq<Surface>, n: nat, mids: seq<Surface>, m: nat)
    requires |mids| == |faces| && ClosedSurface(faces, n) && MidsOk(faces, n, mids, m) && LateAt(d, faces)
    requires d == 10 ==> |faces| > 5_000_000
    ensures LateAt(d + 1, Subdivide(faces, mids))
  {
    hide ClosedSurface, MidsOk, Subdivide, Late;
    if d == 10 {
      LateInner(faces, n, mids, m, 5_000_000, 0);
    } else if d == 11 {
      LateHalves(faces, n, mids, m, Half(20_000_000, 1));
      LateInner(faces, n, mids, m, 20_000_000, 1);
    } else if d == 12 {
      LateHalves(faces, n, mids, m, Half(80_000_001, 0));
      LateHalves(faces, n, mids, m, Half(80_000_001, 1));
      LateInner(faces, n, mids, m, 80_000_001, 1);
    } else if d == 13 {
      LateHalves(faces, n, mids, m, Half(320_000_005, 0));
      LateHalves(faces, n, mids, m, Half(320_000_005, 1));
      LateHalves(faces, n, mids, m, Half(320_000_005, 2));
      LateInner(faces, n, mids, m, 320_000_005, 0);
      LateInner(faces, n, mids, m, 320_000_005, 1);
    }
  }

  // ----- how new vertices are numbered -----

  /** Before face `i` the number of new vertices is between half its sides and all of them; and a face all of
      whose neighbours come later gets three new vertices in a row. */
  ghost predicate NumberedAt(faces: seq<Surface>, n: nat, mids: seq<Surface>, at: seq<nat>, i: nat) {
    && i < |faces| && i < |mids| && i + 1 < |at|
    && 3 * i <= 2 * (at[i] - n) && at[i] - n <= 3 * i
    && (LateFace(faces, i) ==> mids[i] == Surface(at[i], at[i] + 1, at[i] + 2) && at[i + 1] == at[i] + 3)
  }

  ghost predicate Numbered(faces: seq<Surface>, n: nat, mids: seq<Surface>, at: seq<nat>) {
    && |at| == |mids| + 1
    && forall i :: 0 <= i < |mids| ==> NumberedAt(faces, n, mids, at, i)
  }

  /** The last two sides of face `j` have the same key. */
  predicate TwistedFace(faces: seq<Surface>, j: nat) {
    j < |faces| && Key(faces[j].v2, faces[j].v3) == Key(faces[j].v3, faces[j].v1)
  }

  /** Two sides of one face have the same key. */
  ghost predicate Twisted(faces: seq<Surface>) {
    exists j: nat :: TwistedFace(faces, j)
  }

  /** After the fifteenth level two sides of one face have the same key. */
  lemma ClashAfterFifteen(faces: seq<Surface>, n: nat, mids: seq<Surface>, at: seq<nat>)
    requires |mids| == |faces| && LateAt(14, faces) && n == 2_684_354_562 && Numbered(faces, n, mids, at)
    ensures Twisted(Subdivide(faces, mids))
  {
    hide Subdivide, LateFace, Key, Pow2;
    var f := 1_280_000_020;
    assert NumberedAt(faces, n, mids, at, f) && NumberedAt(faces, n, mids, at, f + 1);
    LimitValue();
    var j := if at[f] % 2 == 0 then f else f + 1;
    KeysClash(at[j]);
    SubdivideAt(faces, mids, j, 3);
    assert TwistedFace(Subdivide(faces, mids), 4 * j + 3);
  }

  lemma LimitValue()
    ensures LIMIT == 4_294_967_296
  {
    assert Pow2(8) == 256;
    assert Pow2(16) == 65536;
    assert Pow2(24) == 16777216;
  }

  // ----- faces that degenerate -----

  predicate DegenerateFace(faces: seq<Surface>, j: nat) {
    j < |faces| && faces[j].v2 == faces[j].v3
  }

  /** Some face has the same corner twice. */
  ghost predicate Degenerate(faces: seq<Surface>) {
    exists j: nat :: DegenerateFace(faces, j)
  }

  /** Sides of one face that have the same key get the same middle. */
  ghost predicate MidsAgree(faces: seq<Surface>, mids: seq<Surface>) {
    forall i :: 0 <= i < |mids| && i < |faces| ==> FaceAgrees(faces[i], mids[i])
  }

  predicate FaceAgrees(s: Surface, m: Surface) {
    && (Key(s.v1, s.v2) == Key(s.v3, s.v1) ==> m.v1 == m.v3)
    && (Key(s.v2, s.v3) == Key(s.v3, s.v1) ==> m.v2 == m.v3)
  }

  lemma TwistedNext(faces: seq<Surface>, mids: seq<Surface>)
    requires |mids| == |faces| && MidsAgree(faces, mids) && Twisted(faces)
    ensures Degenerate(Subdivide(faces, mids))
  {
    hide Subdivide, Key;
    var j: nat :| TwistedFace(faces, j);
    assert FaceAgrees(faces[j], mids[j]);
    SubdivideAt(faces, mids, j, 3);
    assert DegenerateFace(Subdivide(faces, mids), 4 * j + 3);
  }

  lemma DegenerateNext(faces: seq<Surface>, mids: seq<Surface>)
    requires |mids| == |faces| && MidsAgree(faces, mids) && Degenerate(faces)
    ensures Degenerate(Subdivide(faces, mids))
  {
    hide Subdivide, Key;
    var j: nat :| DegenerateFace(faces, j);
    assert FaceAgrees(faces[j], mids[j]);
    KeySymmetric(faces[j].v1, faces[j].v2);
    SubdivideAt(faces, mids, j, 0);
    assert DegenerateFace(Subdivide(faces, mids), 4 * j);
  }

  lemma DegenerateNotClosed(faces: seq<Surface>, n: nat)
    requires Degenerate(faces)
    ensures !ClosedSurface(faces, n)
  {
    var j: nat :| DegenerateFace(faces, j);
    assert In(faces, Half(j, 1)) && From(faces, Half(j, 1)) == To(faces, Half(j, 1));
  }
}
