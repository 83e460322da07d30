/** The cache of midpoints during the subdivision of one level. */
module MidpointCache {
  import opened Powers
  import opened Masks
  import opened Mesh

  // ----- keys -----

  const LIMIT := Pow2(32)

  /** `((uint64_t)min << 32) | (uint64_t)max`; the shift drops what does not fit into 64 bits. */
  function Key(a: nat, b: nat): nat {
    BitOr(Shift(Min(a, b), 32) % Pow2(64), Max(a, b))
  }

  lemma KeyValue(a: nat, b: nat)
    requires a < LIMIT && b < LIMIT
    ensures Key(a, b) == Shift(Min(a, b), 32) + Max(a, b)
  {
    hide Pow2, Shift, BitOr;
    var (x, y) := (Min(a, b), Max(a, b));
    OrSplit(x, 0, 32, 0, y);
    ShiftOne(32);
    ShiftPow2(32, 32);
    ShiftSum(x, Pow2(32) - x, 32);
    Remainder(Shift(x, 32), Pow2(64), Shift(Pow2(32) - x, 32));
    assert BitOr(x, 0) == x by { OrZero(x); }
    assert BitOr(0, y) == y by { OrZero(y); }
  }

  lemma OrZero(x: nat)
    ensures BitOr(x, 0) == x && BitOr(0, x) == x
  {
  }

  lemma Remainder(x: nat, y: nat, z: nat)
    requires y == x + z && z > 0
    ensures x % y == x
  {
  }

  lemma KeyInjective(a: nat, b: nat, c: nat, d: nat)
    requires a < LIMIT && b < LIMIT && c < LIMIT && d < LIMIT && Key(a, b) == Key(c, d)
    ensures (a == c && b == d) || (a == d && b == c)
  {
    KeyValue(a, b);
    KeyValue(c, d);
    SplitUnique(Min(a, b), Max(a, b), Min(c, d), Max(c, d));
    hide Key, Pow2;
  }

  lemma SplitUnique(x: nat, y: nat, u: nat, v: nat)
    requires y < LIMIT && v < LIMIT && Shift(x, 32) + y == Shift(u, 32) + v
    ensures x == u && y == v
  {
    hide Pow2, Shift;
    ShiftOne(32);
    if x < u {
      ShiftSum(x, u - x, 32);
      ShiftSum(1, u - x - 1, 32);
      assert false;
    } else if u < x {
      ShiftSum(u, x - u, 32);
      ShiftSum(1, x - u - 1, 32);
      assert false;
    }
  }

  /** Among the vertices below `n` no two edges have the same key. */
  ghost predicate KeysApart(n: nat) {
    forall a: nat, b: nat, c: nat, d: nat ::
      a < n && b < n && c < n && d < n && Key(a, b) == Key(c, d) ==> ((a == c && b == d) || (a == d && b == c))
  }

  /** Keys tell edges apart exactly as long as there are at most 2^32 vertices. */
  lemma KeysApartIff(n: nat)
    ensures KeysApart(n) <==> n <= LIMIT
  {
    hide Key, Pow2;
    if n <= LIMIT {
      forall a: nat, b: nat, c: nat, d: nat | a < n && b < n && c < n && d < n && Key(a, b) == Key(c, d)
        ensures (a == c && b == d) || (a == d && b == c)
      {
        KeyInjective(a, b, c, d);
      }
    } else {
      KeyCollision();
      assert 1 < LIMIT by { Pow2Monotone(1, 32); assert Pow2(1) == 2 by { PowOne(); } }
      assert LIMIT < n;
      assert 0 < n && 1 < n;
      assert Key(0, LIMIT) == Key(1, LIMIT);
    }
  }

  lemma PowOne()
    ensures Pow2(1) == 2
  {
  }

  lemma KeyCollision()
    ensures Key(0, LIMIT) == Key(1, LIMIT) && LIMIT > 1
  {
    hide Pow2, Shift, BitOr;
    ShiftOne(32);
    ShiftPow2(32, 32);
    ShiftOne(64);
    assert Pow2(1) == 2 by { PowOne(); }
    Pow2Monotone(1, 32);
    assert Pow2(33) == 2 * Pow2(32) by { Pow2Step(32); }
    Pow2Monotone(33, 64);
    Remainder(Pow2(32), Pow2(64), Pow2(64) - Pow2(32));
    Remainder(0, Pow2(64), Pow2(64));
    OrSelf(LIMIT);
    OrZero(LIMIT);
  }

  // ----- one level -----

  function KeyOf(faces: seq<Surface>, x: Half): nat
    requires In(faces, x)
  {
    Key(From(faces, x), To(faces, x))
  }

  /** No side of the level's faces is in the cache when the level starts. */
  ghost predicate Fresh(faces: seq<Surface>, cache: map<nat, nat>) {
    forall x :: In(faces, x) ==> KeyOf(faces, x) !in cache
  }

  /** The sides `m` have got their middles. */
  ghost predicate MidsCached(faces: seq<Surface>, n: nat, cache: map<nat, nat>, count: nat, m: map<Half, nat>) {
    forall x :: x in m ==>
      In(faces, x) && n <= m[x] < count && KeyOf(faces, x) in cache && cache[KeyOf(faces, x)] == m[x]
  }

  ghost predicate HasKey(faces: seq<Surface>, m: map<Half, nat>, k: nat) {
    exists x :: x in m && In(faces, x) && KeyOf(faces, x) == k
  }

  /** The cache holds what it held before the level and the sides `m`. */
  ghost predicate CacheExact(faces: seq<Surface>, base: map<nat, nat>, cache: map<nat, nat>, m: map<Half, nat>) {
    forall k :: k in cache ==> k in base || HasKey(faces, m, k)
  }

  ghost predicate Reached(m: map<Half, nat>, v: nat) {
    exists x :: x in m && m[x] == v
  }

  /** Each new vertex is the middle of a side, and of sides with one key only. */
  ghost predicate NewUsed(faces: seq<Surface>, n: nat, count: nat, m: map<Half, nat>) {
    && (forall v: nat :: n <= v < count ==> Reached(m, v))
    && (forall x, y :: x in m && y in m && In(faces, x) && In(faces, y) && m[x] == m[y] ==>
      KeyOf(faces, x) == KeyOf(faces, y))
  }

  /** The sides whose twins have not been met yet. */
  ghost predicate OpenExact(faces: seq<Surface>, m: map<Half, nat>, open: set<Half>) {
    && (forall x :: x in open ==> x in m)
    && (forall x, y :: Twins(faces, x, y) && x in m ==> (x in open <==> y !in m))
  }

  ghost predicate LevelOk(faces: seq<Surface>, n: nat, base: map<nat, nat>, cache: map<nat, nat>, count: nat,
                          m: map<Half, nat>, open: set<Half>, steps: nat) {
    && n <= count && MidsCached(faces, n, cache, count, m) && CacheExact(faces, base, cache, m)
    && NewUsed(faces, n, count, m) && OpenExact(faces, m, open)
    && 2 * (count - n) == steps + |open|
  }

  /** The sides of one surface with the same key are the same or twins. */
  lemma SameKey(faces: seq<Surface>, n: nat, x: Half, y: Half)
    requires In(faces, x) && In(faces, y) && n <= LIMIT && ClosedSurface(faces, n)
    ensures KeyOf(faces, x) == KeyOf(faces, y) <==> x == y || Twins(faces, x, y)
  {
    hide ClosedSurface, Key, Pow2;
    SideEnds(faces, n, x);
    SideEnds(faces, n, y);
    if KeyOf(faces, x) == KeyOf(faces, y) {
      KeyInjective(From(faces, x), To(faces, x), From(faces, y), To(faces, y));
      if SameEdge(faces, x, y) { OneSide(faces, n, x, y); }
    }
    if Twins(faces, x, y) {
      KeySymmetric(From(faces, x), To(faces, x));
    }
  }

  lemma KeySymmetric(a: nat, b: nat)
    ensures Key(a, b) == Key(b, a)
  {
  }

  lemma OneSide(faces: seq<Surface>, n: nat, x: Half, y: Half)
    requires SameEdge(faces, x, y) && ClosedSurface(faces, n)
    ensures x == y
  {
    hide InRange, Covered, Closed, Separated, Proper;
  }

  /** A lookup succeeds exactly when the twin has been met on this level, and then gives its middle. */
  lemma HitIsTwin(faces: seq<Surface>, n: nat, base: map<nat, nat>, cache: map<nat, nat>, count: nat,
                  m: map<Half, nat>, open: set<Half>, steps: nat, x: Half, y: Half)
    requires In(faces, x) && x !in m && Twins(faces, x, y) && n <= LIMIT
    requires LevelOk(faces, n, base, cache, count, m, open, steps) && Fresh(faces, base) && ClosedSurface(faces, n)
    ensures KeyOf(faces, x) in cache <==> y in m
    ensures y in m ==> cache[KeyOf(faces, x)] == m[y]
  {
    hide ClosedSurface, Key, Pow2, From, To, OpenExact, NewUsed, KeyOf;
    var k := KeyOf(faces, x);
    SameKey(faces, n, x, y);
    if k in cache {
      assert k !in base;
      assert HasKey(faces, m, k);
      var z :| z in m && In(faces, z) && KeyOf(faces, z) == k;
      SameKey(faces, n, x, z);
      OneTwin(faces, n, x, y, z);
    }
  }

  // ----- a step -----

  lemma StepHit(faces: seq<Surface>, n: nat, base: map<nat, nat>, cache: map<nat, nat>, count: nat,
                m: map<Half, nat>, open: set<Half>, steps: nat, x: Half) returns (open': set<Half>)
    requires In(faces, x) && x !in m && n <= LIMIT && KeyOf(faces, x) in cache
    requires LevelOk(faces, n, base, cache, count, m, open, steps) && Fresh(faces, base) && ClosedSurface(faces, n)
    ensures LevelOk(faces, n, base, cache, count, m[x := cache[KeyOf(faces, x)]], open', steps + 1)
  {
    hide ClosedSurface, Key, Pow2, From, To, KeyOf, Fresh, MidsCached, CacheExact, NewUsed, OpenExact, Twins, In;
    var y := TwinOf(faces, n, x);
    HitIsTwin(faces, n, base, cache, count, m, open, steps, x, y);
    SameKey(faces, n, x, y);
    open' := open - {y};
    StepHitParts(faces, n, base, cache, count, m, open, x, y);
  }

  lemma StepHitParts(faces: seq<Surface>, n: nat, base: map<nat, nat>, cache: map<nat, nat>, count: nat,
                     m: map<Half, nat>, open: set<Half>, x: Half, y: Half)
    requires In(faces, x) && x !in m && Twins(faces, x, y) && y in m && In(faces, y)
      && KeyOf(faces, x) == KeyOf(faces, y)
    requires KeyOf(faces, x) in cache && cache[KeyOf(faces, x)] == m[y]
    requires MidsCached(faces, n, cache, count, m) && CacheExact(faces, base, cache, m) && NewUsed(faces, n, count, m)
    requires OpenExact(faces, m, open) && ClosedSurface(faces, n)
    ensures var m' := m[x := m[y]];
      MidsCached(faces, n, cache, count, m') && CacheExact(faces, base, cache, m') && NewUsed(faces, n, count, m')
      && OpenExact(faces, m', open - {y}) && y in open
  {
    var m' := m[x := m[y]];
    CacheLarger(faces, base, cache, m, m');
    HitUsed(faces, n, count, m, x, y);
    HitOpen(faces, n, m, open, x, y, m[y]);
    hide *;
    MoreCached(faces, n, cache, count, m, x, m[y]);
  }

  lemma MoreCached(faces: seq<Surface>, n: nat, cache: map<nat, nat>, count: nat, m: map<Half, nat>, x: Half, v: nat)
    requires MidsCached(faces, n, cache, count, m) && In(faces, x) && n <= v < count
    requires KeyOf(faces, x) in cache && cache[KeyOf(faces, x)] == v
    ensures MidsCached(faces, n, cache, count, m[x := v])
  {
    hide KeyOf;
  }

  lemma HitUsed(faces: seq<Surface>, n: nat, count: nat, m: map<Half, nat>, x: Half, y: Half)
    requires In(faces, x) && In(faces, y) && x !in m && y in m && KeyOf(faces, x) == KeyOf(faces, y)
      && NewUsed(faces, n, count, m)
    ensures NewUsed(faces, n, count, m[x := m[y]])
  {
    hide KeyOf;
    ReachedLarger(faces, n, count, m, m[x := m[y]]);
  }

  /** Meeting a side closes its twin, when the twin was met before. */
  lemma HitOpen(faces: seq<Surface>, n: nat, m: map<Half, nat>, open: set<Half>, x: Half, y: Half, v: nat)
    requires x !in m && Twins(faces, x, y) && y in m && OpenExact(faces, m, open) && ClosedSurface(faces, n)
    ensures OpenExact(faces, m[x := v], open - {y}) && y in open
  {
    var m' := m[x := v];
    TwinsSwap(faces, x, y);
    assert y in open;
    forall u, w | Twins(faces, u, w) && u in m' ensures u in open - {y} <==> w !in m' {
      hide ClosedSurface, Twins;
      TwinsSwap(faces, u, w);
      if u == x { OneTwin(faces, n, x, y, w); }
      if w == x { OneTwin(faces, n, x, y, u); }
      if u == y { OneTwin(faces, n, y, x, w); }
    }
  }

  lemma TwinsSwap(faces: seq<Surface>, x: Half, y: Half)
    requires Twins(faces, x, y)
    ensures Twins(faces, y, x)
  {
  }

  lemma CacheLarger(faces: seq<Surface>, base: map<nat, nat>, cache: map<nat, nat>, m: map<Half, nat>,
        m': map<Half, nat>)
    requires CacheExact(faces, base, cache, m) && forall x :: x in m ==> x in m'
    ensures CacheExact(faces, base, cache, m')
  {
    hide KeyOf;
    forall k | k in cache && k !in base ensures HasKey(faces, m', k) {
      assert HasKey(faces, m, k);
      var x :| x in m && In(faces, x) && KeyOf(faces, x) == k;
      assert x in m';
    }
  }

  lemma ReachedLarger(faces: seq<Surface>, n: nat, count: nat, m: map<Half, nat>, m': map<Half, nat>)
    requires NewUsed(faces, n, count, m) && forall x :: x in m ==> x in m' && m'[x] == m[x]
    ensures forall v: nat :: n <= v < count ==> Reached(m', v)
  {
    hide KeyOf;
    forall v: nat | n <= v < count ensures Reached(m', v) {
      assert Reached(m, v);
      var x :| x in m && m[x] == v;
      assert x in m' && m'[x] == v;
    }
  }

  lemma StepMiss(faces: seq<Surface>, n: nat, base: map<nat, nat>, cache: map<nat, nat>, count: nat,
                 m: map<Half, nat>, open: set<Half>, steps: nat, x: Half) returns (open': set<Half>)
    requires In(faces, x) && x !in m && n <= LIMIT && KeyOf(faces, x) !in cache
    requires LevelOk(faces, n, base, cache, count, m, open, steps) && Fresh(faces, base) && ClosedSurface(faces, n)
    ensures LevelOk(faces, n, base, cache[KeyOf(faces, x) := count], count + 1, m[x := count], open', steps + 1)
  {
    hide ClosedSurface, Key, Pow2, From, To, KeyOf, Fresh, CacheExact, NewUsed, Twins, In;
    var y := TwinOf(faces, n, x);
    HitIsTwin(faces, n, base, cache, count, m, open, steps, x, y);
    open' := open + {x};
    StepMissParts(faces, n, base, cache, count, m, open, x, y);
    assert x !in open;
  }

  lemma StepMissParts(faces: seq<Surface>, n: nat, base: map<nat, nat>, cache: map<nat, nat>, count: nat,
                      m: map<Half, nat>, open: set<Half>, x: Half, y: Half)
    requires In(faces, x) && x !in m && Twins(faces, x, y) && y !in m && KeyOf(faces, x) !in cache && n <= count
    requires MidsCached(faces, n, cache, count, m) && CacheExact(faces, base, cache, m) && NewUsed(faces, n, count, m)
    requires OpenExact(faces, m, open) && ClosedSurface(faces, n)
    ensures var (m', cache') := (m[x := count], cache[KeyOf(faces, x) := count]);
      MidsCached(faces, n, cache', count + 1, m') && CacheExact(faces, base, cache', m')
        && NewUsed(faces, n, count + 1, m')
      && OpenExact(faces, m', open + {x})
  {
    CacheMore(faces, base, cache, m, x, count);
    MissUsed(faces, n, count, m, cache, x);
    MissOpen(faces, n, m, open, x, y, count);
    hide *;
    MissCached(faces, n, cache, count, m, x);
  }

  lemma MissCached(faces: seq<Surface>, n: nat, cache: map<nat, nat>, count: nat, m: map<Half, nat>, x: Half)
    requires MidsCached(faces, n, cache, count, m) && In(faces, x) && n <= count && KeyOf(faces, x) !in cache
    ensures MidsCached(faces, n, cache[KeyOf(faces, x) := count], count + 1, m[x := count])
  {
    hide KeyOf;
  }

  lemma CacheMore(faces: seq<Surface>, base: map<nat, nat>, cache: map<nat, nat>, m: map<Half, nat>, x: Half, v: nat)
    requires CacheExact(faces, base, cache, m) && In(faces, x)
    ensures CacheExact(faces, base, cache[KeyOf(faces, x) := v], m[x := v])
  {
    hide KeyOf;
    CacheLarger(faces, base, cache, m, m[x := v]);
    assert HasKey(faces, m[x := v], KeyOf(faces, x)) by { assert x in m[x := v]; }
  }

  lemma MissUsed(faces: seq<Surface>, n: nat, count: nat, m: map<Half, nat>, cache: map<nat, nat>, x: Half)
    requires In(faces, x) && x !in m && NewUsed(faces, n, count, m) && MidsCached(faces, n, cache, count, m)
    ensures NewUsed(faces, n, count + 1, m[x := count])
  {
    hide KeyOf;
    var m' := m[x := count];
    ReachedLarger(faces, n, count, m, m');
    assert Reached(m', count) by { assert m'[x] == count; }
    forall u, w | u in m' && w in m' && In(faces, u) && In(faces, w)
      && m'[u] == m'[w] ensures KeyOf(faces, u) == KeyOf(faces, w) {
      if u != x { assert m'[u] == m[u] < count; }
      if w != x { assert m'[w] == m[w] < count; }
    }
  }

  /** A side met before its twin stays open. */
  lemma MissOpen(faces: seq<Surface>, n: nat, m: map<Half, nat>, open: set<Half>, x: Half, y: Half, v: nat)
    requires x !in m && Twins(faces, x, y) && y !in m && OpenExact(faces, m, open) && ClosedSurface(faces, n)
    ensures OpenExact(faces, m[x := v], open + {x})
  {
    var m' := m[x := v];
    assert x != y by { SideEnds(faces, n, x); }
    forall u, w | Twins(faces, u, w) && u in m' ensures u in open + {x} <==> w !in m' {
      hide ClosedSurface, Twins;
      TwinsSwap(faces, u, w);
      if u == x { OneTwin(faces, n, x, y, w); }
      if w == x { OneTwin(faces, n, x, y, u); }
    }
  }

  // ----- the end of a level -----

  /** All sides of the faces have got their middles. */
  ghost predicate AllMet(faces: seq<Surface>, mids: seq<Surface>, m: map<Half, nat>) {
    |mids| == |faces| && forall x :: In(faces, x) ==> x in m && m[x] == Mid(mids, x)
  }

  /** When all sides have been met the middles are right, and half as many vertices as sides were added. */
  lemma LevelEnds(faces: seq<Surface>, n: nat, base: map<nat, nat>, cache: map<nat, nat>, count: nat,
                  m: map<Half, nat>, open: set<Half>, steps: nat, mids: seq<Surface>)
    requires n <= LIMIT && AllMet(faces, mids, m)
    requires LevelOk(faces, n, base, cache, count, m, open, steps) && ClosedSurface(faces, n)
    ensures MidsOk(faces, n, mids, count) && 2 * (count - n) == steps
  {
    hide ClosedSurface, Key, KeyOf, Pow2, From, To, Twins, Mid, CacheExact;
    forall x, y | SameMid(mids, x, y) ensures x == y || Twins(faces, x, y) {
      assert m[x] == m[y];
      SameKey(faces, n, x, y);
    }
    forall x, y | Twins(faces, x, y) ensures SameMid(mids, x, y) {
      TwinsIn(faces, x, y);
      SameKey(faces, n, x, y);
    }
    forall v: nat | n <= v < count ensures HasMid(mids, v) {
      assert Reached(m, v);
      var x :| x in m && m[x] == v;
      assert In(mids, x) && Mid(mids, x) == v;
    }
    if x :| x in open {
      var y := TwinOf(faces, n, x);
      assert false;
    }
    assert open == {};
  }

  lemma TwinsIn(faces: seq<Surface>, x: Half, y: Half)
    requires Twins(faces, x, y)
    ensures In(faces, x) && In(faces, y)
  {
  }

  // ----- from level to level -----

  /** Every key in the cache belongs to vertices below `n`. */
  ghost predicate KeysBelow(cache: map<nat, nat>, n: nat) {
    forall k :: k in cache ==> IsKey(k, n)
  }

  ghost predicate IsKey(k: nat, n: nat) {
    exists a: nat, b: nat :: a < n && b < n && Key(a, b) == k
  }

  /** Every side has an end that is not below `n`. */
  ghost predicate EndsAbove(faces: seq<Surface>, n: nat) {
    forall x :: In(faces, x) ==> From(faces, x) >= n || To(faces, x) >= n
  }

  /** Sides with a new end cannot be in a cache made of old vertices. */
  lemma StartFresh(faces: seq<Surface>, l: nat, n: nat, cache: map<nat, nat>)
    requires KeysBelow(cache, l) && EndsAbove(faces, l) && l <= n <= LIMIT && ClosedSurface(faces, n)
    ensures Fresh(faces, cache)
  {
    hide ClosedSurface, Key, Pow2, From, To;
    forall x | In(faces, x) ensures KeyOf(faces, x) !in cache {
      if KeyOf(faces, x) in cache {
        assert IsKey(KeyOf(faces, x), l);
        var a: nat, b: nat :| a < l && b < l && Key(a, b) == KeyOf(faces, x);
        SideEnds(faces, n, x);
        KeyInjective(a, b, From(faces, x), To(faces, x));
        assert false;
      }
    }
  }

  lemma EndsAboveNext(faces: seq<Surface>, n: nat, mids: seq<Surface>, m: nat)
    requires |mids| == |faces| && ClosedSurface(faces, n) && MidsOk(faces, n, mids, m)
    ensures EndsAbove(Subdivide(faces, mids), n)
  {
    hide ClosedSurface, MidsOk, Subdivide, From, To;
    forall g | In(Subdivide(faces, mids), g)
      ensures From(Subdivide(faces, mids), g) >= n || To(Subdivide(faces, mids), g) >= n
    {
      NewEnds(faces, n, mids, m, g);
    }
  }

  lemma KeysBelowNext(faces: seq<Surface>, l: nat, n: nat, base: map<nat, nat>, cache: map<nat, nat>, m: map<Half, nat>)
    requires KeysBelow(base, l) && l <= n && CacheExact(faces, base, cache, m) && ClosedSurface(faces, n)
    ensures KeysBelow(cache, n)
  {
    hide ClosedSurface, Key, From, To;
    forall k | k in cache ensures IsKey(k, n) {
      if k in base {
        assert IsKey(k, l);
      } else {
        assert HasKey(faces, m, k);
        var x :| x in m && In(faces, x) && KeyOf(faces, x) == k;
        SideEnds(faces, n, x);
      }
    }
  }
}
