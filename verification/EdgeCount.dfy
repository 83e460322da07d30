/** A closed surface has three edges for every two faces. */
module EdgeCount {
  import opened Mesh

  /** An edge without its direction. */
  function Pair(faces: seq<Surface>, x: Half): (nat, nat)
    requires In(faces, x)
  {
    var (a, b) := (From(faces, x), To(faces, x));
    if a < b then (a, b) else (b, a)
  }

  ghost function Edges(faces: seq<Surface>): set<(nat, nat)> {
    set i, k | 0 <= i < |faces| && 0 <= k < 3 :: Pair(faces, Half(i, k))
  }

  ghost predicate OfSide(faces: seq<Surface>, done: set<Half>, e: (nat, nat)) {
    exists x :: x in done && In(faces, x) && Pair(faces, x) == e
  }

  /** `edges` are the edges of the sides `done`; the sides `open` are those whose twins are not done. */
  ghost predicate Counted(faces: seq<Surface>, done: set<Half>, edges: set<(nat, nat)>, open: set<Half>, steps: nat) {
    && (forall x :: x in done ==> In(faces, x) && Pair(faces, x) in edges)
    && (forall e :: e in edges ==> OfSide(faces, done, e))
    && (forall x :: x in open ==> x in done)
    && (forall x, y :: Twins(faces, x, y) && x in done ==> (x in open <==> y !in done))
    && 2 * |edges| == steps + |open|
  }

  lemma SamePair(faces: seq<Surface>, n: nat, x: Half, y: Half)
    requires In(faces, x) && In(faces, y) && ClosedSurface(faces, n)
    ensures Pair(faces, x) == Pair(faces, y) <==> x == y || Twins(faces, x, y)
  {
    hide InRange, Covered, Closed, Separated, Proper;
    assert Pair(faces, x) == Pair(faces, y) ==> SameEdge(faces, x, y) || Twins(faces, x, y);
  }

  lemma CountSide(faces: seq<Surface>, n: nat, done: set<Half>, edges: set<(nat, nat)>, open: set<Half>, steps: nat,
        x: Half)
    returns (edges': set<(nat, nat)>, open': set<Half>)
    requires In(faces, x) && x !in done && Counted(faces, done, edges, open, steps) && ClosedSurface(faces, n)
    ensures Counted(faces, done + {x}, edges', open', steps + 1)
  {
    hide ClosedSurface, Pair, Twins, In, From, To, OfSide;
    var y := TwinOf(faces, n, x);
    SamePair(faces, n, x, y);
    edges', open' := if y in done then edges else edges + {Pair(faces, x)}, if y in done then open - {y}
      else open + {x};
    OfMoreSides(faces, done, edges, x);
    OpenAfter(faces, n, done, edges, open, steps, x, y);
    NewPair(faces, n, done, edges, open, steps, x, y);
  }

  /** An edge is new unless the twin has been counted. */
  lemma NewPair(faces: seq<Surface>, n: nat, done: set<Half>, edges: set<(nat, nat)>, open: set<Half>, steps: nat,
        x: Half, y: Half)
    requires In(faces, x) && x !in done && Twins(faces, x, y) && In(faces, y)
    requires Counted(faces, done, edges, open, steps) && ClosedSurface(faces, n)
    ensures Pair(faces, x) in edges <==> y in done
    ensures y in done ==> y in open
  {
    hide ClosedSurface, Pair, Twins, In, From, To;
    SamePair(faces, n, x, y);
    Swap(faces, x, y);
    if Pair(faces, x) in edges {
      assert OfSide(faces, done, Pair(faces, x));
      var z :| z in done && In(faces, z) && Pair(faces, z) == Pair(faces, x);
      SamePair(faces, n, x, z);
      OneTwin(faces, n, x, y, z);
    }
  }

  lemma OfMoreSides(faces: seq<Surface>, done: set<Half>, edges: set<(nat, nat)>, x: Half)
    requires In(faces, x) && forall e :: e in edges ==> OfSide(faces, done, e)
    ensures forall e :: e in edges + {Pair(faces, x)} ==> OfSide(faces, done + {x}, e)
  {
    hide Pair, In;
    forall e | e in edges + {Pair(faces, x)} ensures OfSide(faces, done + {x}, e) {
      if e in edges {
        assert OfSide(faces, done, e);
        var z :| z in done && In(faces, z) && Pair(faces, z) == e;
        assert z in done + {x};
      } else {
        assert x in done + {x};
      }
    }
  }

  lemma OpenAfter(faces: seq<Surface>, n: nat, done: set<Half>, edges: set<(nat, nat)>, open: set<Half>, steps: nat,
        x: Half, y: Half)
    requires x !in done && Twins(faces, x, y) && Counted(faces, done, edges, open, steps) && ClosedSurface(faces, n)
    ensures var open' := if y in done then open - {y} else open + {x};
      forall u, v :: Twins(faces, u, v) && u in done + {x} ==> (u in open' <==> v !in done + {x})
  {
    hide ClosedSurface, Pair, Twins, In, From, To;
    var open' := if y in done then open - {y} else open + {x};
    forall u, v | Twins(faces, u, v) && u in done + {x} ensures u in open' <==> v !in done + {x} {
      Swap(faces, u, v);
      Swap(faces, x, y);
      if u == x { OneTwin(faces, n, x, y, v); }
      if v == x { OneTwin(faces, n, x, y, u); }
      if u == y { OneTwin(faces, n, y, x, v); }
      if u == v { SideEnds(faces, n, u); SelfTwin(faces, u); }
    }
  }

  lemma SelfTwin(faces: seq<Surface>, u: Half)
    requires Twins(faces, u, u)
    ensures In(faces, u) && From(faces, u) == To(faces, u)
  {
  }

  lemma Swap(faces: seq<Surface>, x: Half, y: Half)
    requires Twins(faces, x, y)
    ensures Twins(faces, y, x) && In(faces, x) && In(faces, y)
  {
  }

  /** Side number `h`, counting three for each face. */
  function Side(h: nat): Half {
    Half(h / 3, h % 3)
  }

  /** The first `h` sides. */
  ghost predicate FirstSides(done: set<Half>, h: nat) {
    forall x :: x in done <==> x.k < 3 && 3 * x.face + x.k < h
  }

  lemma OneMore(done: set<Half>, h: nat)
    requires FirstSides(done, h)
    ensures FirstSides(done + {Side(h)}, h + 1) && Side(h) !in done
  {
    forall x: Half ensures x.k < 3 && 3 * x.face + x.k == h <==> x == Side(h) {}
  }

  lemma SideIn(faces: seq<Surface>, h: nat)
    requires h < 3 * |faces|
    ensures In(faces, Side(h))
  {
  }

  lemma NothingCounted(faces: seq<Surface>)
    ensures Counted(faces, {}, {}, {}, 0) && FirstSides({}, 0)
  {
  }

  lemma {:induction false} CountSides(faces: seq<Surface>, n: nat, h: nat)
    returns (done: set<Half>, edges: set<(nat, nat)>, open: set<Half>)
    requires h <= 3 * |faces| && ClosedSurface(faces, n)
    ensures FirstSides(done, h) && Counted(faces, done, edges, open, h)
  {
    hide *;
    if h == 0 {
      NothingCounted(faces);
      done, edges, open := {}, {}, {};
    } else {
      var done', edges', open' := CountSides(faces, n, h - 1);
      OneMore(done', h - 1);
      SideIn(faces, h - 1);
      done := done' + {Side(h - 1)};
      edges, open := CountSide(faces, n, done', edges', open', h - 1, Side(h - 1));
    }
  }

  lemma AllDone(faces: seq<Surface>, done: set<Half>, x: Half)
    requires FirstSides(done, 3 * |faces|)
    ensures x in done <==> In(faces, x)
  {
  }

  lemma NoneOpen(faces: seq<Surface>, n: nat, done: set<Half>, edges: set<(nat, nat)>, open: set<Half>, steps: nat)
    requires FirstSides(done, 3 * |faces|) && Counted(faces, done, edges, open, steps) && ClosedSurface(faces, n)
    ensures open == {}
  {
    hide ClosedSurface, Pair, Twins, FirstSides, In;
    if x :| x in open {
      var y := TwinOf(faces, n, x);
      AllDone(faces, done, y);
      assert false;
    }
  }

  lemma AllEdges(faces: seq<Surface>, done: set<Half>, edges: set<(nat, nat)>, open: set<Half>, steps: nat)
    requires FirstSides(done, 3 * |faces|) && Counted(faces, done, edges, open, steps)
    ensures edges == Edges(faces)
  {
    hide Pair, Twins, FirstSides;
    forall e ensures e in edges <==> e in Edges(faces) {
      if e in edges {
        assert OfSide(faces, done, e);
        var x :| x in done && In(faces, x) && Pair(faces, x) == e;
        assert e == Pair(faces, Half(x.face, x.k));
      }
      if e in Edges(faces) {
        var i, k :| 0 <= i < |faces| && 0 <= k < 3 && Pair(faces, Half(i, k)) == e;
        AllDone(faces, done, Half(i, k));
      }
    }
  }

  /** Twice the edges are three times the faces. */
  lemma EdgesOfSurface(faces: seq<Surface>, n: nat)
    requires ClosedSurface(faces, n)
    ensures 2 * |Edges(faces)| == 3 * |faces|
  {
    hide Edges, ClosedSurface;
    var done, edges, open := CountSides(faces, n, 3 * |faces|);
    NoneOpen(faces, n, done, edges, open, 3 * |faces|);
    AllEdges(faces, done, edges, open, 3 * |faces|);
  }
}
