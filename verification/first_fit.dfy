/** The first-fit allocator of memallocator/first_fit_memalloc.c over memory
    addressed in header units. */
module FirstFit {
  import opened FiniteSets

  const NULL := 0
  const HEADER_SZ := 16
  const MINALLOC := 1024

  // ---------- the ring ----------

  /** b follows a in the circular address order of the set F. */
  ghost predicate IsNext(F: set<int>, a: int, b: int) {
    && a in F && b in F
    && (if a < b then forall c :: c in F ==> c <= a || c >= b
        else forall c :: c in F ==> b <= c <= a)
  }

  ghost predicate Ring(F: set<int>, nfp: map<int, int>) {
    forall a :: a in F ==> a in nfp && IsNext(F, a, nfp[a])
  }

  lemma RingStep(F: set<int>, nfp: map<int, int>, a: int)
    requires Ring(F, nfp) && a in F
    ensures a in nfp && nfp[a] in F && IsNext(F, a, nfp[a])
  {
  }

  /** How far x lies round the ring of F from s; s itself is a whole lap away. */
  ghost function Lap(F: set<int>, s: int, x: int): set<int> {
    if x > s then set f | f in F && s < f <= x else set f | f in F && (f > s || f <= x)
  }

  lemma LapGrows(F: set<int>, s: int, a: int, b: int)
    requires s in F && IsNext(F, a, b) && a != s
    ensures Lap(F, s, b) == Lap(F, s, a) + {b} && b !in Lap(F, s, a)
    ensures |Lap(F, s, b)| == |Lap(F, s, a)| + 1 <= |F|
  {
    assert Lap(F, s, b) == Lap(F, s, a) + {b};
    SubsetSize(Lap(F, s, b), F);
  }

  lemma LapWhole(F: set<int>, s: int)
    requires s in F
    ensures Lap(F, s, s) == F
  {
  }

  lemma LapFirst(F: set<int>, s: int, b: int)
    requires IsNext(F, s, b)
    ensures Lap(F, s, b) == {b} || (b == s && F == {s})
    ensures Lap(F, s, b) == {b}
  {
  }

  /** The ring position at which an address outside F belongs. */
  ghost predicate Slot(F: set<int>, p: int, n: int, b: int) {
    IsNext(F, p, n) && ((p < b < n) || (p >= n && (b > p || b < n)))
  }

  /** Different places on the ring have different successors. */
  lemma NextDistinct(F: set<int>, a: int, p: int, b: int)
    requires IsNext(F, a, b) && p in F && a != p
    ensures !IsNext(F, p, b)
  {
  }

  /** An address put into its slot leaves all other steps of the ring alone. */
  lemma SlotKeeps(F: set<int>, p: int, n: int, b: int, a: int, c: int)
    requires IsNext(F, a, c) && a != p && b !in F && Slot(F, p, n, b)
    ensures IsNext(F + {b}, a, c)
  {
    NextDistinct(F, a, p, c);
    assert a in F && p in F && n in F && c in F;
  }

  lemma SlotSplits(F: set<int>, p: int, n: int, b: int)
    requires b !in F && Slot(F, p, n, b)
    ensures IsNext(F + {b}, p, b) && IsNext(F + {b}, b, n)
  {
  }

  lemma SlotInsert(F: set<int>, nfp: map<int, int>, p: int, b: int)
    requires Ring(F, nfp) && p in F && b !in F && Slot(F, p, nfp[p], b)
    ensures Ring(F + {b}, nfp[b := nfp[p]][p := b])
  {
    hide IsNext, Slot;
    var G, next := F + {b}, nfp[b := nfp[p]][p := b];
    SlotSplits(F, p, nfp[p], b);
    forall a | a in G
      ensures a in next && IsNext(G, a, next[a])
    {
      if a != b && a != p {
        SlotKeeps(F, p, nfp[p], b, a, nfp[a]);
      }
    }
  }

  lemma RemoveKeeps(F: set<int>, pre: int, p: int, a: int, c: int)
    requires IsNext(F, pre, p) && p != pre && IsNext(F, a, c) && a != pre && a != p
    ensures IsNext(F - {p}, a, c)
  {
    NextDistinct(F, pre, a, p);
  }

  lemma RemoveJoins(F: set<int>, pre: int, p: int, n: int)
    requires IsNext(F, pre, p) && p != pre && IsNext(F, p, n)
    ensures n != p && IsNext(F - {p}, pre, n)
  {
    NextDistinct(F, pre, p, p);
  }

  lemma RemoveNext(F: set<int>, nfp: map<int, int>, pre: int, p: int)
    requires Ring(F, nfp) && pre in F && p == nfp[pre] && p != pre
    ensures Ring(F - {p}, nfp[pre := nfp[p]])
  {
    hide IsNext;
    RingStep(F, nfp, pre);
    RingStep(F, nfp, p);
    var G, next := F - {p}, nfp[pre := nfp[p]];
    RemoveJoins(F, pre, p, nfp[p]);
    forall a | a in G
      ensures a in next && IsNext(G, a, next[a])
    {
      if a != pre {
        RemoveKeeps(F, pre, p, a, nfp[a]);
      }
    }
  }

  /** k steps along the ring. */
  ghost function Step(F: set<int>, nfp: map<int, int>, s: int, k: nat): (x: int)
    requires Ring(F, nfp) && s in F
    ensures x in F
  {
    if k == 0 then s else
      var y := Step(F, nfp, s, k - 1);
      assert IsNext(F, y, nfp[y]);
      nfp[y]
  }

  /** One lap from any block of the ring meets every block of the ring. */
  lemma OneRing(F: set<int>, nfp: map<int, int>, s: int, x: int)
    requires Ring(F, nfp) && s in F && x in F
    ensures Met(F, nfp, s, |F|, x)
    ensures Step(F, nfp, s, |F|) == s
  {
    assert F == {s} + (F - {s});
    LapVisits(F, nfp, s, |F|);
    var a := Step(F, nfp, s, |F|);
    SameSize(Lap(F, s, a), F);
    LapOnlyWhole(F, s, a);
  }

  lemma LapOnlyWhole(F: set<int>, s: int, a: int)
    requires s in Lap(F, s, a)
    ensures a == s
  {
  }

  /** x is met within k steps along the ring. */
  ghost predicate Met(F: set<int>, nfp: map<int, int>, s: int, k: nat, x: int)
    requires Ring(F, nfp) && s in F
  {
    exists j: nat :: 1 <= j <= k && Step(F, nfp, s, j) == x
  }

  lemma LapNext(F: set<int>, s: int, a: int, b: int, k: nat)
    requires IsNext(F, a, b) && s in F && k < |F| && (if k == 0 then a == s else |Lap(F, s, a)| == k)
    ensures Lap(F, s, b) == (if k == 0 then {b} else Lap(F, s, a) + {b}) && |Lap(F, s, b)| == k + 1
  {
    hide Lap, IsNext;
    if k == 0 {
      LapFirst(F, s, b);
      assert |{b}| == 1;
    } else {
      LapWhole(F, s);
      LapGrows(F, s, a, b);
    }
  }

  lemma {:induction false} LapVisits(F: set<int>, nfp: map<int, int>, s: int, k: nat)
    requires Ring(F, nfp) && s in F && 1 <= k <= |F|
    ensures |Lap(F, s, Step(F, nfp, s, k))| == k
    ensures forall x :: x in Lap(F, s, Step(F, nfp, s, k)) ==> Met(F, nfp, s, k, x)
  {
    hide Lap, IsNext, Ring;
    var a, b := Step(F, nfp, s, k - 1), Step(F, nfp, s, k);
    RingStep(F, nfp, a);
    if k > 1 {
      LapVisits(F, nfp, s, k - 1);
    }
    LapNext(F, s, a, b, k - 1);
    forall x | x in Lap(F, s, b)
      ensures Met(F, nfp, s, k, x)
    {
      if x == b {
        assert Step(F, nfp, s, k) == x;
      } else {
        assert Met(F, nfp, s, k - 1, x);
      }
    }
  }

  // ---------- the blocks ----------

  /** The block at a, a header unit and size[a] more, holds the unit u. */
  ghost predicate Holds(size: map<int, int>, a: int, u: int) {
    a in size && a <= u <= a + size[a]
  }

  /** The blocks B are disjoint and fill exactly the units U. */
  ghost predicate Tiles(B: set<int>, size: map<int, int>, U: set<int>) {
    && (forall a :: a in B ==> a in size && size[a] >= 0)
    && (forall a, b :: a in B && b in B && a < b ==> a + size[a] < b)
    && (forall a, u :: a in B && Holds(size, a, u) ==> u in U)
    && (forall u :: u in U ==> exists a :: a in B && Holds(size, a, u))
  }

  lemma TilesSplit(B: set<int>, size: map<int, int>, U: set<int>, q: int, n: int)
    requires Tiles(B, size, U) && q in B && 0 <= n < size[q]
    ensures var p := q + size[q] - n;
      p !in B && Tiles(B + {p}, size[q := size[q] - (n + 1)][p := n], U)
  {
    var p := q + size[q] - n;
    var size' := size[q := size[q] - (n + 1)][p := n];
    assert p !in B;
    forall u | u in U
      ensures exists a :: a in B + {p} && Holds(size', a, u)
    {
      var a :| a in B && Holds(size, a, u);
      assert Holds(size', if a == q && u >= p then p else a, u);
    }
    forall a, u | a in B + {p} && Holds(size', a, u)
      ensures u in U
    {
      assert Holds(size, if a == p then q else a, u);
    }
  }

  ghost predicate Within(a: int, n: nat, u: int) {
    a <= u <= a + n
  }

  ghost function Units(a: int, n: nat): set<int> {
    set u | a <= u <= a + n && Within(a, n, u)
  }

  lemma Apart(B: set<int>, size: map<int, int>, U: set<int>, up: int, n: nat, a: int)
    requires Tiles(B, size, U) && U !! Units(up, n) && a in B
    ensures a != up && (a < up ==> a + size[a] < up) && (up < a ==> up + n < a)
  {
    assert Holds(size, a, a) && Within(up, n, up);
    assert a <= up <= a + size[a] ==> Holds(size, a, up);
    assert up <= a <= up + n ==> Within(up, n, a);
  }

  lemma TilesGrow(B: set<int>, size: map<int, int>, U: set<int>, up: int, n: nat)
    requires Tiles(B, size, U) && U !! Units(up, n)
    ensures up !in B && Tiles(B + {up}, size[up := n], U + Units(up, n))
  {
    var U', size' := U + Units(up, n), size[up := n];
    forall a | a in B
      ensures a != up && (a < up ==> a + size[a] < up) && (up < a ==> up + n < a)
    {
      Apart(B, size, U, up, n, a);
    }
    forall u | u in U'
      ensures exists a :: a in B + {up} && Holds(size', a, u)
    {
      if u in U {
        var a :| a in B && Holds(size, a, u);
        assert Holds(size', a, u);
      } else {
        assert Holds(size', up, u);
      }
    }
    forall a, u | a in B + {up} && Holds(size', a, u)
      ensures u in U'
    {
      if a != up {
        assert Holds(size, a, u);
      }
    }
  }

  /** The units of the blocks B, headers included. */
  ghost function Total(B: set<int>, size: map<int, int>): int
    requires forall a :: a in B ==> a in size
  {
    if B == {} then 0 else
      NonEmpty(B);
      var a :| a in B;
      size[a] + 1 + Total(B - {a}, size)
  }

  lemma {:induction false} UnitsCount(a: int, n: nat)
    ensures |Units(a, n)| == n + 1
  {
    if n == 0 {
      assert Within(a, n, a) && Units(a, n) == {a};
    } else {
      UnitsCount(a, n - 1);
      assert forall u :: Within(a, n, u) <==> Within(a, n - 1, u) || u == a + n;
      assert Units(a, n) == Units(a, n - 1) + {a + n};
    }
  }

  lemma TilesRest(B: set<int>, size: map<int, int>, U: set<int>, a: int)
    requires Tiles(B, size, U) && a in B
    ensures Units(a, size[a]) <= U && Tiles(B - {a}, size, U - Units(a, size[a]))
  {
    var H := Units(a, size[a]);
    assert forall u :: Within(a, size[a], u) <==> Holds(size, a, u);
    forall b, u | b in B - {a} && Holds(size, b, u)
      ensures u in U - H
    {
      assert b < a || a < b;
    }
    forall u | u in U - H
      ensures exists b :: b in B - {a} && Holds(size, b, u)
    {
      var b :| b in B && Holds(size, b, u);
      assert b != a;
    }
  }

  /** Conservation: the blocks add up to the memory they tile. */
  lemma {:induction false} TilesTotal(B: set<int>, size: map<int, int>, U: set<int>)
    requires Tiles(B, size, U)
    ensures Total(B, size) == |U|
    decreases B
  {
    hide Holds, Units;
    if B == {} {
      assert forall u :: u !in U;
    } else {
      NonEmpty(B);
      var a :| a in B && Total(B, size) == size[a] + 1 + Total(B - {a}, size);
      var H := Units(a, size[a]);
      TilesRest(B, size, U, a);
      TilesTotal(B - {a}, size, U - H);
      UnitsCount(a, size[a]);
      assert U == H + (U - H);
    }
  }

  // ---------- what a request asks for and gets ----------

  function UnitsFor(nbytes: nat): nat {
    nbytes / HEADER_SZ + if nbytes % HEADER_SZ == 0 then 0 else 1
  }

  lemma EnoughUnits(nbytes: nat)
    ensures nbytes <= UnitsFor(nbytes) * HEADER_SZ < nbytes + HEADER_SZ
  {
  }

  /** The units, header included, that morecore asks the system for. */
  function CoreUnits(nunits: nat): (c: nat)
    ensures c >= MINALLOC && c >= nunits + 1 && (c == MINALLOC || c == nunits + 1)
  {
    if nunits + 1 < MINALLOC then MINALLOC else nunits + 1
  }

  /** q is the first block round the ring after s that holds n units. */
  ghost predicate FirstFit(F: set<int>, s: int, size: map<int, int>, n: int, q: int) {
    && q in F && q in size && size[q] >= n
    && forall f :: f in Lap(F, s, q) && f != q ==> f in size && size[f] < n
  }

  ghost predicate NoneFits(F: set<int>, size: map<int, int>, n: int) {
    forall f :: f in F ==> f in size && size[f] < n
  }

  /** The only free block is asked for exactly: the one request that goes wrong. */
  ghost predicate LoneFit(F: set<int>, size: map<int, int>, n: int) {
    exists q :: F == {q} && q in size && size[q] == n
  }

  /** While the permanent empty block is on the ring, a nonempty request is never
      a lone fit. */
  lemma BasePreventsLoneFit(F: set<int>, size: map<int, int>, base: int, nbytes: nat)
    requires base in F && base in size && size[base] == 0 && nbytes > 0
    ensures !LoneFit(F, size, UnitsFor(nbytes))
  {
    EnoughUnits(nbytes);
  }

  /** How far the walk of zz_free still has to go from p to the slot of b. */
  ghost function WalkLeft(F: set<int>, p: int, b: int): nat {
    if p > b then |F| + 1 + |set f | f in F && f > p| else |set f | f in F && p < f < b|
  }

  lemma WalkShrinks(F: set<int>, p: int, n: int, b: int)
    requires IsNext(F, p, n) && b !in F && !Slot(F, p, n, b)
    ensures WalkLeft(F, n, b) < WalkLeft(F, p, b)
  {
    if p > b {
      if n > p {
        Shrinks((set f | f in F && f > n), (set f | f in F && f > p), n);
      } else {
        SubsetSize((set f | f in F && n < f < b), F);
      }
    } else {
      Shrinks((set f | f in F && n < f < b), (set f | f in F && p < f < b), n);
    }
  }

  lemma Shrinks(A: set<int>, B: set<int>, x: int)
    requires A <= B && x in B && x !in A
    ensures |A| < |B|
  {
    SubsetSize(A, B - {x});
  }

  /** What taking n units from the block q does to the free and live blocks: all
      of q if it fits exactly, else its last n units and a new header. */
  ghost predicate Carved(F: set<int>, L: set<int>, size: map<int, int>, q: int, n: nat,
                         F': set<int>, L': set<int>, size': map<int, int>, ap: int) {
    && q in F && q in size
    && (if size[q] == n then F' == F - {q} && L' == L + {q} && size' == size && ap == q + 1
        else var p := q + size[q] - n;
          F' == F && L' == L + {p} && size' == size[q := size[q] - (n + 1)][p := n] && ap == p + 1)
  }

  lemma NoJoinSelf(B: set<int>, size: map<int, int>, U: set<int>, a: int)
    requires Tiles(B, size, U) && a in B
    ensures a in size && size[a] >= 0 && a in U
  {
    assert Holds(size, a, a);
  }

  lemma LoneRing(F: set<int>, p: int)
    requires IsNext(F, p, p)
    ensures F == {p}
  {
    forall c | c in F
      ensures c in {p}
    {
    }
  }

  lemma LapStart(F: set<int>, nfp: map<int, int>, s: int, pre: int, V: set<int>)
    requires Ring(F, nfp) && s in F && pre in F
    requires if pre == s then V == {} else V == Lap(F, s, pre)
    ensures pre in nfp && Lap(F, s, nfp[pre]) == V + {nfp[pre]} && nfp[pre] !in V
    ensures V + {nfp[pre]} <= F && (nfp[pre] == s ==> V + {nfp[pre]} == F)
  {
    assert IsNext(F, pre, nfp[pre]);
    if pre == s {
      LapFirst(F, s, nfp[pre]);
      SubsetSize({nfp[pre]}, F);
    } else {
      LapGrows(F, s, pre, nfp[pre]);
    }
    LapWhole(F, s);
  }

  /** Looking for n units: V, the blocks after s up to pre, have been passed over. */
  ghost predicate Scanned(F: set<int>, s: int, sz: map<int, int>, n: int, pre: int, V: set<int>) {
    && s in F && pre in F && V <= F && NoneFits(V, sz, n)
    && (if pre == s then V == {} else V == Lap(F, s, pre))
  }

  lemma ScanStep(F: set<int>, nfp: map<int, int>, s: int, sz: map<int, int>, n: int, pre: int, V: set<int>)
    requires Ring(F, nfp) && Scanned(F, s, sz, n, pre, V) && pre in nfp && nfp[pre] in sz
    ensures var p := nfp[pre];
      && p in F && V <= F && Lap(F, s, p) == V + {p} && |F - (V + {p})| < |F - V| && NoneFits(V, sz, n)
      && (sz[p] < n && p != s ==> Scanned(F, s, sz, n, p, V + {p}))
      && (sz[p] < n && p == s ==> NoneFits(F, sz, n))
  {
    hide Lap, IsNext, Ring;
    RingStep(F, nfp, pre);
    LapStart(F, nfp, s, pre, V);
    Shrinks(F - (V + {nfp[pre]}), F - V, nfp[pre]);
  }

  lemma StartRing(base: int, size: map<int, int>, nfp: map<int, int>)
    ensures Ring({base}, nfp[base := base]) && Tiles({base}, size[base := 0], {base})
  {
    assert Holds(size[base := 0], base, base);
  }

  /** The state right after new memory went on the ring. */
  ghost predicate Grown(F: set<int>, L: set<int>, sz: map<int, int>, O: set<int>, n: nat, sbrk: int,
                        F': set<int>, sz': map<int, int>, O': set<int>) {
    && NoneFits(F, sz, n) && sbrk != -1 && sbrk !in F + L && F != {}
    && F' == F + {sbrk} && sz' == sz[sbrk := CoreUnits(n) - 1] && O' == O + Units(sbrk, CoreUnits(n) - 1)
  }

  /** The outcome of a request for n units that starts at s on the ring F with
      live blocks L: the first block round the ring that fits, else a block of
      new memory, else failure; nothing else changes.  A lone fit is handed out
      without leaving the ring. */
  ghost predicate Outcome(F: set<int>, L: set<int>, sz: map<int, int>, O: set<int>, s: int, n: nat, sbrk: int,
                          F': set<int>, L': set<int>, sz': map<int, int>, O': set<int>, ap: int, q: int) {
    if NoneFits(F, sz, n) && sbrk == -1 then
      ap == NULL && F' == F && L' == L && sz' == sz && O' == O
    else if NoneFits(F, sz, n) then
      var core := CoreUnits(n) - 1;
      q == sbrk && sbrk !in F + L && O' == O + Units(sbrk, core)
      && Carved(F + {sbrk}, L, sz[sbrk := core], q, n, F', L', sz', ap)
    else
      O' == O && FirstFit(F, s, sz, n, q)
      && if LoneFit(F, sz, n) then ap - 1 == q && F' == F && L' == L && sz' == sz
         else Carved(F, L, sz, q, n, F', L', sz', ap)
  }

  /** The ring that a block for n units is found on. */
  ghost function FoundOn(F: set<int>, sz: map<int, int>, n: nat, sbrk: int): set<int> {
    if NoneFits(F, sz, n) then F + {sbrk} else F
  }

  /** Where the next request starts: at the block before q on the ring q was found
      on, and where this one started if none was found. */
  ghost predicate NextStart(F: set<int>, sz: map<int, int>, s: int, n: nat, sbrk: int, q: int, s': int) {
    if NoneFits(F, sz, n) && sbrk == -1 then s' == s else IsNext(FoundOn(F, sz, n, sbrk), s', q)
  }

  lemma OutcomeFit(F: set<int>, L: set<int>, sz: map<int, int>, O: set<int>, s: int, n: nat, sbrk: int, V: set<int>, q: int,
                   F': set<int>, L': set<int>, sz': map<int, int>, ap: int, pre: int)
    requires q in F && q in sz && sz[q] >= n && Lap(F, s, q) == V + {q} && NoneFits(V, sz, n) && IsNext(F, pre, q)
    requires if F == {q} && sz[q] == n then ap - 1 == q && F' == F && L' == L && sz' == sz
             else Carved(F, L, sz, q, n, F', L', sz', ap)
    ensures LoneFit(F, sz, n) <==> F == {q} && sz[q] == n
    ensures Outcome(F, L, sz, O, s, n, sbrk, F', L', sz', O, ap, q) && NextStart(F, sz, s, n, sbrk, q, pre)
  {
    hide Lap, IsNext, Carved;
    assert FirstFit(F, s, sz, n, q);
  }

  lemma NotLone(F: set<int>, sz: map<int, int>, n: nat)
    requires NoneFits(F, sz, n)
    ensures !LoneFit(F, sz, n)
  {
    forall q | F == {q} && q in sz
      ensures sz[q] != n
    {
      assert q in F;
    }
  }

  lemma OutcomeGrown(F: set<int>, L: set<int>, sz: map<int, int>, O: set<int>, s: int, n: nat, sbrk: int,
                     F1: set<int>, sz1: map<int, int>, O1: set<int>,
                     F': set<int>, L': set<int>, sz': map<int, int>, ap: int, pre: int)
    requires Grown(F, L, sz, O, n, sbrk, F1, sz1, O1) && IsNext(F1, pre, sbrk)
    requires F1 != {sbrk} ==> Carved(F1, L, sz1, sbrk, n, F', L', sz', ap)
    ensures !LoneFit(F, sz, n) && Outcome(F, L, sz, O, s, n, sbrk, F', L', sz', O1, ap, sbrk)
    ensures NextStart(F, sz, s, n, sbrk, sbrk, pre)
  {
    hide IsNext, Carved;
    assert F == F1 - {sbrk};
    NotLone(F, sz, n);
  }

  lemma OutcomeNone(F: set<int>, L: set<int>, sz: map<int, int>, O: set<int>, s: int, n: nat, q: int)
    requires NoneFits(F, sz, n)
    ensures !LoneFit(F, sz, n) && Outcome(F, L, sz, O, s, n, -1, F, L, sz, O, NULL, q) && NextStart(F, sz, s, n, -1, q, s)
  {
    NotLone(F, sz, n);
  }

  lemma ScanStart(F: set<int>, s: int, sz: map<int, int>, n: int)
    requires s in F
    ensures Scanned(F, s, sz, n, s, {})
  {
  }

  lemma SearchStart(base: int, F: set<int>, L: set<int>, sz: map<int, int>, O: set<int>, s: int, n: nat, sbrk: int, nfp: map<int, int>)
    requires HeapOk(base, s, F, L, sz, O, nfp) && s != NULL
    ensures s in F && s in nfp && Searching(false, F, L, sz, O, s, n, sbrk, {}, s, nfp[s], F, sz, O, s)
  {
    hide IsNext, Tiles;
    ScanStart(F, s, sz, n);
  }

  lemma JustGrown(F: set<int>, L: set<int>, sz: map<int, int>, O: set<int>, s: int, n: nat, sbrk: int, V: set<int>,
                  F': set<int>, sz': map<int, int>, O': set<int>, pre: int, next: int)
    requires NoneFits(F, sz, n) && sbrk != -1 && sbrk !in F + L && s in F
    requires F' == F + {sbrk} && sz' == sz[sbrk := CoreUnits(n) - 1] && O' == O + Units(sbrk, CoreUnits(n) - 1)
    requires next == sbrk
    ensures Searching(true, F, L, sz, O, s, n, sbrk, V, pre, next, F', sz', O', pre)
  {
  }

  lemma GrownFits(F: set<int>, L: set<int>, sz: map<int, int>, O: set<int>, n: nat, sbrk: int,
                  F': set<int>, sz': map<int, int>, O': set<int>)
    requires Grown(F, L, sz, O, n, sbrk, F', sz', O')
    ensures sbrk in F' && sbrk in sz' && sz'[sbrk] >= n
  {
  }

  /** One ring of free blocks; free and live blocks apart, tiling what is owned. */
  ghost predicate HeapOk(base: int, freep: int, free: set<int>, live: set<int>, size: map<int, int>, owned: set<int>, nfp: map<int, int>) {
    && NULL !in owned && base != NULL
    && (if freep == NULL then free == live == owned == {} else
          freep in free && free !! live && Ring(free, nfp) && Tiles(free + live, size, owned))
  }

  /** Where the search stands: on its lap round the blocks F it began with, those in
      V tried, or behind the block of new memory. */
  ghost predicate Searching(grown: bool, F: set<int>, L: set<int>, sz: map<int, int>, O: set<int>, s: int, n: nat, sbrk: int,
                            V: set<int>, pre: int, next: int, free: set<int>, size: map<int, int>, owned: set<int>, freep: int) {
    if grown then next == sbrk && Grown(F, L, sz, O, n, sbrk, free, size, owned)
    else free == F && size == sz && owned == O && freep == s && Scanned(F, s, sz, n, pre, V)
  }

  /** One block further: it fits, or the lap goes on, or the lap is over. */
  lemma Turn(base: int, grown: bool, F: set<int>, L: set<int>, sz: map<int, int>, O: set<int>, s: int, n: nat, sbrk: int,
             V: set<int>, pre: int, free: set<int>, size: map<int, int>, owned: set<int>, freep: int, nfp: map<int, int>)
    requires HeapOk(base, freep, free, L, size, owned, nfp) && freep != NULL && pre in free && pre in nfp
    requires Searching(grown, F, L, sz, O, s, n, sbrk, V, pre, nfp[pre], free, size, owned, freep)
    ensures var p := nfp[pre];
      && pre != NULL && p in free && IsNext(free, pre, p) && p in nfp && p in size && size[p] >= 0
      && (grown ==> size[p] >= n && p == sbrk && Grown(F, L, sz, O, n, sbrk, free, size, owned))
      && (!grown ==> free == F && size == sz && owned == O && freep == s && Lap(F, s, p) == V + {p} && NoneFits(V, sz, n))
      && (size[p] < n ==> |F - (V + {p})| < |F - V|)
      && (size[p] < n && p != freep ==>
            Searching(grown, F, L, sz, O, s, n, sbrk, V + {p}, p, nfp[p], free, size, owned, freep))
      && (size[p] < n && p == freep ==> NoneFits(F, sz, n))
  {
    hide Ring, Tiles, Scanned, Lap, IsNext, NoneFits, Grown;
    RingStep(free, nfp, pre);
    RingStep(free, nfp, nfp[pre]);
    NoJoinSelf(free + L, size, owned, pre);
    NoJoinSelf(free + L, size, owned, nfp[pre]);
    if grown {
      GrownFits(F, L, sz, O, n, sbrk, free, size, owned);
    } else {
      ScanStep(free, nfp, s, sz, n, pre, V);
    }
  }

  /** A block handed out has left the ring exactly if the request was no lone fit. */
  lemma HandedOut(F: set<int>, L: set<int>, sz: map<int, int>, O: set<int>, s: int, n: nat, sbrk: int,
                  F': set<int>, L': set<int>, sz': map<int, int>, O': set<int>, ap: int, q: int)
    requires F !! L && Tiles(F + L, sz, O) && ap != NULL
    requires Outcome(F, L, sz, O, s, n, sbrk, F', L', sz', O', ap, q)
    requires sbrk != -1 ==> O !! Units(sbrk, CoreUnits(n) - 1)
    ensures ap - 1 in sz' && sz'[ap - 1] == n
    ensures ap - 1 !in F' && L' == L + {ap - 1} && ap - 1 !in L <==> !LoneFit(F, sz, n)
  {
    if !LoneFit(F, sz, n) {
      if NoneFits(F, sz, n) {
        TilesGrow(F + L, sz, O, sbrk, CoreUnits(n) - 1);
        assert F + L + {sbrk} == (F + {sbrk}) + L;
        Carving(F + {sbrk}, L, sz[sbrk := CoreUnits(n) - 1], O', n, F', L', sz', ap, q);
      } else {
        Carving(F, L, sz, O, n, F', L', sz', ap, q);
      }
    } else {
      LoneFits(F, sz, n);
    }
  }

  lemma NextUnique(F: set<int>, a: int, b: int, c: int)
    requires IsNext(F, a, b) && IsNext(F, a, c)
    ensures b == c
  {
  }

  /** After a block was found, on whatever ring R, the pointer of the next start
      leads to it as long as it stays free. */
  lemma StartsBefore(F: set<int>, L: set<int>, sz: map<int, int>, O: set<int>, s: int, n: nat, sbrk: int,
                     F': set<int>, L': set<int>, sz': map<int, int>, O': set<int>, ap: int, q: int, s': int, nfp: map<int, int>)
    requires Outcome(F, L, sz, O, s, n, sbrk, F', L', sz', O', ap, q) && NextStart(F, sz, s, n, sbrk, q, s')
    requires !(NoneFits(F, sz, n) && sbrk == -1) && Ring(F', nfp)
    ensures F' == FoundOn(F, sz, n, sbrk) || F' == FoundOn(F, sz, n, sbrk) - {q}
    ensures q in F' ==> IsNext(F', s', q) && s' in nfp && nfp[s'] == q
  {
    hide Tiles, Lap, NoneFits, FirstFit;
    if LoneFit(F, sz, n) {
      LoneFits(F, sz, n);
    }
    if q in F' {
      assert F' == FoundOn(F, sz, n, sbrk);
      RingStep(F', nfp, s');
      NextUnique(F', s', q, nfp[s']);
    }
  }

  lemma LapPast(F: set<int>, s: int, q: int, f: int)
    requires IsNext(F, s, q) && q != s && f in F && f != q
    ensures Lap(F, s, f) == Lap(F, q, f) + {q} && q !in Lap(F, q, f)
  {
    assert Lap(F, s, f) == Lap(F, q, f) + {q};
  }

  lemma LapWithout(F: set<int>, s: int, q: int, f: int)
    requires IsNext(F, s, q) && q != s && f in F && f != q
    ensures Lap(F - {q}, s, f) == Lap(F - {q}, q, f)
  {
  }

  /** Next fit: of two requests in turn, the second cuts the block q the first was
      found in if that is still free and big enough, and lies right below the first
      then; else it gets the first block round the ring after q that fits. */
  lemma TwoRequests(F: set<int>, L: set<int>, sz: map<int, int>, O: set<int>, s: int, n1: nat, sbrk1: int,
                    F1: set<int>, L1: set<int>, sz1: map<int, int>, O1: set<int>, ap1: int, q: int, s1: int,
                    n2: nat, sbrk2: int,
                    F2: set<int>, L2: set<int>, sz2: map<int, int>, O2: set<int>, ap2: int, q2: int)
    requires Outcome(F, L, sz, O, s, n1, sbrk1, F1, L1, sz1, O1, ap1, q) && NextStart(F, sz, s, n1, sbrk1, q, s1)
    requires !(NoneFits(F, sz, n1) && sbrk1 == -1) && !LoneFit(F, sz, n1)
    requires Outcome(F1, L1, sz1, O1, s1, n2, sbrk2, F2, L2, sz2, O2, ap2, q2)
    requires !NoneFits(F1, sz1, n2)
    ensures if q in F1 && q in sz1 && sz1[q] >= n2 then q2 == q && (sz1[q] > n2 ==> ap2 + n2 + 1 == ap1)
            else FirstFit(F1, q, sz1, n2, q2)
  {
    hide Lap, IsNext, NoneFits, FirstFit;
    assert FirstFit(F1, s1, sz1, n2, q2);
    RingAfter(F, L, sz, O, s, n1, sbrk1, F1, L1, sz1, O1, ap1, q, s1);
    NextFit(F1, s1, sz1, n2, q, q2, FoundOn(F, sz, n1, sbrk1));
  }

  lemma RingAfter(F: set<int>, L: set<int>, sz: map<int, int>, O: set<int>, s: int, n: nat, sbrk: int,
                  F': set<int>, L': set<int>, sz': map<int, int>, O': set<int>, ap: int, q: int, s': int)
    requires Outcome(F, L, sz, O, s, n, sbrk, F', L', sz', O', ap, q) && NextStart(F, sz, s, n, sbrk, q, s')
    requires !(NoneFits(F, sz, n) && sbrk == -1) && !LoneFit(F, sz, n)
    ensures var R := FoundOn(F, sz, n, sbrk); IsNext(R, s', q) && F' == if q in F' then R else R - {q}
  {
    hide Lap, IsNext, NoneFits, FirstFit;
  }

  lemma NextFit(F: set<int>, s: int, sz: map<int, int>, n: nat, q: int, q2: int, R: set<int>)
    requires FirstFit(F, s, sz, n, q2) && IsNext(R, s, q) && F == if q in F then R else R - {q}
    ensures q in F && q in sz && sz[q] >= n ==> q2 == q
    ensures !(q in F && q in sz && sz[q] >= n) ==> FirstFit(F, q, sz, n, q2)
  {
    hide Lap, IsNext;
    if s == q {
      LoneRing(R, q);
    } else if q in F {
      if q2 != q {
        LapPast(F, s, q, q2);
      }
    } else {
      LapWithout(R, s, q, q2);
    }
  }

  lemma LoneFits(F: set<int>, sz: map<int, int>, n: nat)
    requires LoneFit(F, sz, n)
    ensures !NoneFits(F, sz, n)
  {
    if NoneFits(F, sz, n) {
      NotLone(F, sz, n);
    }
  }

  lemma Carving(F: set<int>, L: set<int>, sz: map<int, int>, O: set<int>, n: nat,
                F': set<int>, L': set<int>, sz': map<int, int>, ap: int, q: int)
    requires F !! L && Tiles(F + L, sz, O) && Carved(F, L, sz, q, n, F', L', sz', ap) && sz[q] >= n
    ensures ap - 1 in sz' && sz'[ap - 1] == n && ap - 1 !in F' && ap - 1 !in L && L' == L + {ap - 1}
  {
    if sz[q] != n {
      TilesSplit(F + L, sz, O, q, n);
    }
  }

  /** Nonempty requests never take the permanent empty block, so none of a run of
      them is a lone fit. */
  lemma BaseStays(F: set<int>, L: set<int>, sz: map<int, int>, O: set<int>, s: int, nbytes: nat, sbrk: int,
                  F': set<int>, L': set<int>, sz': map<int, int>, O': set<int>, ap: int, q: int, base: int)
    requires sbrk != -1 ==> sbrk != base && base !in Units(sbrk, CoreUnits(UnitsFor(nbytes)) - 1)
    requires base in F && base in sz && sz[base] == 0 && nbytes > 0
    requires F !! L && Tiles(F + L, sz, O)
    requires Outcome(F, L, sz, O, s, UnitsFor(nbytes), sbrk, F', L', sz', O', ap, q)
    ensures base in F' && base in sz' && sz'[base] == 0
    ensures !LoneFit(F, sz, UnitsFor(nbytes))
  {
    EnoughUnits(nbytes);
    BasePreventsLoneFit(F, sz, base, nbytes);
    var n := UnitsFor(nbytes);
    if q in F && n < sz[q] {
      TilesSplit(F + L, sz, O, q, n);
    }
  }

  /** An empty request made first of all is a lone fit: the permanent empty block is
      handed out, and it is still free. */
  lemma EmptyFirstRequest(base: int, L: set<int>, sz: map<int, int>, O: set<int>, sbrk: int,
                          F': set<int>, L': set<int>, sz': map<int, int>, O': set<int>, ap: int, q: int)
    requires base in sz && sz[base] == 0
    requires Outcome({base}, L, sz, O, base, UnitsFor(0), sbrk, F', L', sz', O', ap, q)
    ensures ap - 1 == base && F' == {base} && L' == L && sz' == sz && O' == O
  {
    LoneFits({base}, sz, 0);
    assert base in {base};
  }

  /** Why blocks never join: the tests compare against a unit inside the block. */
  lemma NoJoin(B: set<int>, size: map<int, int>, U: set<int>, a: int, b: int)
    requires Tiles(B, size, U) && a in B && b in B && a != b
    ensures a in size && a in U && a + size[a] != b
  {
    assert Holds(size, a, a);
  }

  class Heap {
    const base: int
    var nfp: map<int, int>
    var size: map<int, int>
    var freep: int
    ghost var free: set<int>
    ghost var live: set<int>
    ghost var owned: set<int>

    ghost predicate Valid()
      reads this
    {
      HeapOk(base, freep, free, live, size, owned, nfp)
    }

    constructor (b: int)
      requires b != NULL
      ensures Valid() && base == b && freep == NULL
    {
      base, freep := b, NULL;
      nfp, size := map[], map[];
      free, live, owned := {}, {}, {};
    }

    /** The block whose payload starts at ap goes back on the ring, unmerged. */
    method Free(ap: int)
      requires Valid() && ap - 1 in live
      modifies this
      ensures Valid()
      ensures free == old(free) + {ap - 1} && live == old(live) - {ap - 1}
      ensures size == old(size) && owned == old(owned)
      ensures freep in old(free) && freep in nfp && nfp[freep] == ap - 1
    {
      hide Tiles, Ring, IsNext, WalkLeft;
      var bp := ap - 1;
      var p := freep;
      RingStep(free, nfp, p);
      while true
        modifies {}
        invariant p in free && p in nfp && nfp[p] in free && IsNext(free, p, nfp[p])
        decreases WalkLeft(free, p, bp)
      {
        if bp > p && bp < nfp[p] {
          break;
        }
        if p >= nfp[p] && (bp > p || bp < nfp[p]) {
          break;
        }
        WalkShrinks(free, p, nfp[p], bp);
        RingStep(free, nfp, p);
        p := nfp[p];
        RingStep(free, nfp, p);
      }
      SlotInsert(free, nfp, p, bp);
      NoJoin(free + live, size, owned, bp, nfp[p]);
      NoJoin(free + live, size, owned, p, bp);
      if bp + size[bp] == nfp[p] {
        assert false;    // the join with the next block
      } else {
        nfp := nfp[bp := nfp[p]];
      }
      if p + size[p] == bp {
        assert false;    // the join with the previous block
      } else {
        nfp := nfp[p := bp];
      }
      freep := p;
      free, live := free + {bp}, live - {bp};
      assert free + live == old(free) + old(live);
    }

    /** New memory from the system, put on the ring; sbrk is the address the
        system returns, -1 for none. */
    method MoreCore(nunits: nat, sbrk: int) returns (p: int)
      requires Valid() && freep != NULL
      requires sbrk != -1 ==> (owned + {NULL}) !! Units(sbrk, CoreUnits(nunits) - 1)
      modifies this
      ensures Valid() && freep != NULL
      ensures sbrk == -1 ==> p == NULL && free == old(free) && live == old(live) && owned == old(owned)
                             && size == old(size) && nfp == old(nfp) && freep == old(freep)
      ensures sbrk != -1 ==>
        && p == freep && p in nfp && nfp[p] == sbrk && p in old(free) && sbrk !in old(free + live)
        && free == old(free) + {sbrk} && live == old(live) && size == old(size)[sbrk := CoreUnits(nunits) - 1]
        && owned == old(owned) + Units(sbrk, CoreUnits(nunits) - 1)
    {
      hide Tiles, Ring;
      var n := nunits + 1;
      if n < MINALLOC {
        n := MINALLOC;
      }
      if sbrk == -1 {
        return NULL;
      }
      TilesGrow(free + live, size, owned, sbrk, n - 1);
      assert free + (live + {sbrk}) == free + live + {sbrk};
      assert Within(sbrk, n - 1, sbrk);
      size := size[sbrk := n - 1];
      live, owned := live + {sbrk}, owned + Units(sbrk, n - 1);
      Free(sbrk + 1);
      p := freep;
    }

    /** The taking of nunits from the fitting block p after pre. */
    method Take(pre: int, p0: int, nunits: nat) returns (ap: int)
      requires Valid() && freep != NULL && pre in free && pre in nfp && p0 == nfp[pre]
      requires p0 in free && p0 in size && size[p0] >= nunits
      modifies this
      ensures Valid() && freep == pre && owned == old(owned)
      ensures if old(free) == {p0} && old(size[p0]) == nunits
              then ap - 1 == p0 && free == old(free) && live == old(live) && size == old(size) && nfp[p0] == p0
              else Carved(old(free), old(live), old(size), p0, nunits, free, live, size, ap)
    {
      hide Tiles, Ring, IsNext;
      var p := p0;
      RingStep(free, nfp, pre);
      RingStep(free, nfp, p);
      NoJoinSelf(free + live, size, owned, pre);
      if size[p] >= nunits {
        if size[p] == nunits {
          if p == pre {
            LoneRing(free, p);
          } else {
            RemoveNext(free, nfp, pre, p);
            free, live := free - {p}, live + {p};
            assert free + live == old(free) + old(live);
          }
          nfp := nfp[pre := nfp[p]];
          assert p == pre ==> nfp == old(nfp);
        } else {
          TilesSplit(free + live, size, owned, p, nunits);
          size := size[p := size[p] - (nunits + 1)];
          p := p + size[p] + 1;
          size := size[p := nunits];
          live := live + {p};
          assert free + live == old(free) + old(live) + {p};
        }
        freep := pre;
      }
      ap := p + 1;
    }

    /** The free blocks, and their sizes, that a request starts from: before the
        first request, the permanent empty block alone. */
    ghost function StartFree(): set<int>
      reads this
    {
      if freep == NULL then {base} else free
    }

    ghost function StartSize(): map<int, int>
      reads this
    {
      if freep == NULL then size[base := 0] else size
    }

    ghost function StartOwned(): set<int>
      reads this
    {
      if freep == NULL then {base} else owned
    }

    ghost function StartAt(): int
      reads this
    {
      if freep == NULL then base else freep
    }

    /** The first request finds no ring and makes one of the permanent empty block. */
    method Start()
      requires Valid()
      modifies this
      ensures Valid() && freep == old(StartAt()) && freep != NULL
      ensures free == old(StartFree()) && size == old(StartSize()) && owned == old(StartOwned()) && live == old(live)
    {
      hide Tiles, Ring;
      if freep == NULL {
        StartRing(base, size, nfp);
        nfp := nfp[base := base];
        freep := base;
        size := size[base := 0];
        free, owned := {base}, {base};
        assert free + live == {base};
      }
    }

    /** The outcome of a request: the first block round the ring that fits, else a
        block of new memory, else failure. */
    method Malloc(nbytes: nat, sbrk: int) returns (ap: int, ghost q: int)
      requires Valid()
      requires sbrk != -1 ==> (owned + {NULL, base}) !! Units(sbrk, CoreUnits(UnitsFor(nbytes)) - 1)
      modifies this
      ensures Valid() && freep != NULL
      ensures Outcome(old(StartFree()), old(live), old(StartSize()), old(StartOwned()), old(StartAt()),
                      UnitsFor(nbytes), sbrk, free, live, size, owned, ap, q)
      ensures NextStart(old(StartFree()), old(StartSize()), old(StartAt()), UnitsFor(nbytes), sbrk, q, freep)
      ensures old(LoneFit(StartFree(), StartSize(), UnitsFor(nbytes))) ==> nfp[q] == q == freep
      ensures old(freep) == NULL && nbytes == 0 ==> ap - 1 == base && base in free && live == old(live)
    {
      hide Tiles, Ring, IsNext, Lap, Outcome, Carved, LoneFit, FirstFit, Scanned, NoneFits, Grown, Searching, HeapOk, NextStart;
      var nunits := nbytes / HEADER_SZ + if nbytes % HEADER_SZ == 0 then 0 else 1;
      Start();
      var pre := freep;
      q := NULL;
      ghost var F, L, sz, O, s, V, grown := free, live, size, owned, freep, {}, false;
      SearchStart(base, F, L, sz, O, s, nunits, sbrk, nfp);
      while true
        invariant Valid() && freep != NULL && pre in free && pre in nfp && live == L
        invariant Searching(grown, F, L, sz, O, s, nunits, sbrk, V, pre, nfp[pre], free, size, owned, freep)
        invariant !grown ==> owned == O
        decreases !grown, |F - V|
      {
        Turn(base, grown, F, L, sz, O, s, nunits, sbrk, V, pre, free, size, owned, freep, nfp);
        var p := nfp[pre];
        if size[p] >= nunits {
          q := p;
          ghost var F1, sz1, O1 := free, size, owned;
          ap := Take(pre, p, nunits);
          if grown {
            OutcomeGrown(F, L, sz, O, s, nunits, sbrk, F1, sz1, O1, free, live, size, ap, pre);
          } else {
            OutcomeFit(F, L, sz, O, s, nunits, sbrk, V, q, free, live, size, ap, pre);
          }
          if old(freep) == NULL && nbytes == 0 {
            EmptyFirstRequest(base, L, sz, O, sbrk, free, live, size, owned, ap, q);
          }
          return;
        }
        V := V + {p};
        if p == freep {
          p := MoreCore(nunits, sbrk);
          if p == NULL {
            OutcomeNone(F, L, sz, O, s, nunits, q);
            if old(freep) == NULL && nbytes == 0 {
              EmptyFirstRequest(base, L, sz, O, sbrk, free, live, size, owned, NULL, q);
            }
            return NULL, q;
          }
          JustGrown(F, L, sz, O, s, nunits, sbrk, V, free, size, owned, p, nfp[p]);
          grown := true;
        }
        pre := p;
      }
    }
  }
}
