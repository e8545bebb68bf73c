/** The parity union-find of algorithm/find_and_catch.c: criminals belong to one
    of two gangs, a statement says two of them belong to different gangs, and a
    question asks what is known of two of them. */
module Parity {

  // ---------- two-colourings ----------

  type Pair = (int, int)

  /** A colouring gives each of the first |c| criminals one of two gangs. */
  ghost predicate Sat(c: seq<bool>, stmts: seq<Pair>) {
    forall i :: 0 <= i < |stmts| ==>
      var s := stmts[i];
      0 <= s.0 < |c| && 0 <= s.1 < |c| && c[s.0] != c[s.1]
  }

  ghost predicate Consistent(n: nat, stmts: seq<Pair>) {
    exists c: seq<bool> :: |c| == n && Sat(c, stmts)
  }

  ghost predicate ForcedSame(n: nat, stmts: seq<Pair>, x: int, y: int)
    requires 0 <= x < n && 0 <= y < n
  {
    forall c: seq<bool> :: |c| == n && Sat(c, stmts) ==> c[x] == c[y]
  }

  ghost predicate ForcedDifferent(n: nat, stmts: seq<Pair>, x: int, y: int)
    requires 0 <= x < n && 0 <= y < n
  {
    forall c: seq<bool> :: |c| == n && Sat(c, stmts) ==> c[x] != c[y]
  }

  // ---------- the forest ----------

  /** father, rank and ndis: ranks rise strictly along father links, roots have
      parity 0. */
  ghost predicate Forest(F: seq<int>, R: seq<int>, N: seq<int>, top: int) {
    && |F| == |R| == |N|
    && (forall x :: 0 <= x < |F| ==> 0 <= F[x] < |F|)
    && (forall x :: 0 <= x < |F| ==> 0 <= R[x] <= top && 0 <= N[x] <= 1)
    && (forall x :: 0 <= x < |F| && F[x] != x ==> R[x] < R[F[x]])
    && (forall x :: 0 <= x < |F| && F[x] == x ==> N[x] == 0)
  }

  ghost function Root(F: seq<int>, R: seq<int>, N: seq<int>, top: int, x: int): (r: int)
    requires Forest(F, R, N, top) && 0 <= x < |F|
    ensures 0 <= r < |F| && F[r] == r && R[x] <= R[r]
    decreases top - R[x]
  {
    if F[x] == x then x else Root(F, R, N, top, F[x])
  }

  /** The parity of the path from x to its root. */
  ghost function Par(F: seq<int>, R: seq<int>, N: seq<int>, top: int, x: int): (p: int)
    requires Forest(F, R, N, top) && 0 <= x < |F|
    ensures 0 <= p <= 1
    decreases top - R[x]
  {
    if F[x] == x then 0 else (N[x] + Par(F, R, N, top, F[x])) % 2
  }

  lemma StepUp(F: seq<int>, R: seq<int>, N: seq<int>, top: int, x: int)
    requires Forest(F, R, N, top) && 0 <= x < |F|
    ensures |F| == |R| == |N| && 0 <= F[x] < |F| && 0 <= R[x] <= top && (F[x] != x ==> R[x] < R[F[x]] <= top) && 0 <= N[x] <= 1
  {
  }

  lemma CompressForest(F: seq<int>, R: seq<int>, N: seq<int>, top: int, x: int)
    requires Forest(F, R, N, top) && 0 <= x < |F| && F[x] != x
    ensures Forest(F[x := Root(F, R, N, top, x)], R, N[x := Par(F, R, N, top, x)], top)
  {
    assert Root(F, R, N, top, x) == Root(F, R, N, top, F[x]);
  }

  lemma Unfold(F: seq<int>, R: seq<int>, N: seq<int>, top: int, x: int)
    requires Forest(F, R, N, top) && 0 <= x < |F|
    ensures if F[x] == x then Root(F, R, N, top, x) == x && Par(F, R, N, top, x) == 0 == N[x] else
      && 0 <= F[x] < |F| && Root(F, R, N, top, x) == Root(F, R, N, top, F[x]) != x
      && Par(F, R, N, top, x) == (N[x] + Par(F, R, N, top, F[x])) % 2
  {
    hide Forest;
    StepUp(F, R, N, top, x);
    if F[x] == x {
      RootBit(F, R, N, top, x);
    }
  }

  lemma RootBit(F: seq<int>, R: seq<int>, N: seq<int>, top: int, x: int)
    requires Forest(F, R, N, top) && 0 <= x < |F| && F[x] == x
    ensures N[x] == 0
  {
  }

  /** Pointing x at its root with its whole parity changes nothing. */
  lemma {:induction false} Compress(F: seq<int>, R: seq<int>, N: seq<int>, top: int, x: int, y: int)
    requires Forest(F, R, N, top) && 0 <= x < |F| && 0 <= y < |F| && F[x] != x
    ensures var F', N' := F[x := Root(F, R, N, top, x)], N[x := Par(F, R, N, top, x)];
      && Forest(F', R, N', top)
      && Root(F', R, N', top, y) == Root(F, R, N, top, y)
      && Par(F', R, N', top, y) == Par(F, R, N, top, y)
    decreases top - R[y]
  {
    hide Forest;
    StepUp(F, R, N, top, y);
    var r := Root(F, R, N, top, x);
    var F', N' := F[x := r], N[x := Par(F, R, N, top, x)];
    CompressForest(F, R, N, top, x);
    if y == x {
      assert Root(F', R, N', top, r) == r && Par(F', R, N', top, r) == 0;
    } else if F[y] != y {
      Compress(F, R, N, top, x, F[y]);
    }
  }

  lemma LinkForest(F: seq<int>, R: seq<int>, N: seq<int>, top: int, R': seq<int>, top': int, a: int, b: int, d: int)
    requires Forest(F, R, N, top) && 0 <= d <= 1
    requires 0 <= a < |F| && 0 <= b < |F| && a != b && F[a] == a && F[b] == b
    requires |R'| == |R| && R' == R[a := R'[a]] && R[a] <= R'[a] <= top' && R[b] < R'[a] && top <= top'
    ensures Forest(F[b := a], R', N[b := d], top')
  {
  }

  /** Hanging the root b below the root a with parity d. */
  lemma {:induction false} Link(F: seq<int>, R: seq<int>, N: seq<int>, top: int,
                                R': seq<int>, top': int, a: int, b: int, d: int, z: int)
    requires Forest(F, R, N, top) && 0 <= z < |F| && 0 <= d <= 1
    requires 0 <= a < |F| && 0 <= b < |F| && a != b && F[a] == a && F[b] == b
    requires |R'| == |R| && R' == R[a := R'[a]] && R[a] <= R'[a] <= top' && R[b] < R'[a] && top <= top'
    ensures var F', N' := F[b := a], N[b := d];
      && Forest(F', R', N', top')
      && Root(F', R', N', top', z) == (if Root(F, R, N, top, z) == b then a else Root(F, R, N, top, z))
      && Par(F', R', N', top', z) == (if Root(F, R, N, top, z) == b then (Par(F, R, N, top, z) + d) % 2 else Par(F, R, N, top, z))
    decreases top - R[z]
  {
    hide Forest;
    StepUp(F, R, N, top, z);
    var F', N' := F[b := a], N[b := d];
    LinkForest(F, R, N, top, R', top', a, b, d);
    if F[z] != z {
      Link(F, R, N, top, R', top', a, b, d, F[z]);
    } else if z == b {
      assert Root(F', R', N', top', a) == a && Par(F', R', N', top', a) == 0;
    }
  }

  // ---------- what the forest knows ----------

  /** Every statement kept lies inside one tree, its ends at different parities. */
  ghost predicate Holds(F: seq<int>, R: seq<int>, N: seq<int>, top: int, kept: seq<Pair>)
    requires Forest(F, R, N, top)
  {
    forall i :: 0 <= i < |kept| ==>
      var s := kept[i];
      && 0 <= s.0 < |F| && 0 <= s.1 < |F|
      && Root(F, R, N, top, s.0) == Root(F, R, N, top, s.1)
      && Par(F, R, N, top, s.0) != Par(F, R, N, top, s.1)
  }

  /** Every colouring of the statements kept obeys every parity in the forest. */
  ghost predicate Obeyed(F: seq<int>, R: seq<int>, N: seq<int>, top: int, kept: seq<Pair>)
    requires Forest(F, R, N, top)
  {
    forall c: seq<bool>, x :: |c| == |F| && Sat(c, kept) && 0 <= x < |F| ==>
      (c[x] != c[Root(F, R, N, top, x)] <==> Par(F, R, N, top, x) == 1)
  }

  /** The colouring that gives every tree the gang of its root. */
  ghost function Colouring(F: seq<int>, R: seq<int>, N: seq<int>, top: int, g: seq<bool>): (c: seq<bool>)
    requires Forest(F, R, N, top) && |g| == |F|
  {
    seq(|F|, x requires 0 <= x < |F| => if Par(F, R, N, top, x) == 1 then !g[Root(F, R, N, top, x)] else g[Root(F, R, N, top, x)])
  }

  lemma ColouringSat(F: seq<int>, R: seq<int>, N: seq<int>, top: int, g: seq<bool>, kept: seq<Pair>)
    requires Forest(F, R, N, top) && |g| == |F| && Holds(F, R, N, top, kept)
    ensures Sat(Colouring(F, R, N, top, g), kept)
  {
  }

  /** The answer the forest gives is the answer the colourings give. */
  lemma Verdict(F: seq<int>, R: seq<int>, N: seq<int>, top: int, kept: seq<Pair>, x: int, y: int)
    requires Forest(F, R, N, top) && Holds(F, R, N, top, kept) && Obeyed(F, R, N, top, kept)
    requires 0 <= x < |F| && 0 <= y < |F|
    ensures var same, par := Root(F, R, N, top, x) == Root(F, R, N, top, y), Par(F, R, N, top, x) == Par(F, R, N, top, y);
      && (ForcedSame(|F|, kept, x, y) <==> same && par)
      && (ForcedDifferent(|F|, kept, x, y) <==> same && !par)
  {
    var rx, ry := Root(F, R, N, top, x), Root(F, R, N, top, y);
    var g := seq(|F|, i => false);
    var c0, c1 := Colouring(F, R, N, top, g), Colouring(F, R, N, top, g[rx := true]);
    ColouringSat(F, R, N, top, g, kept);
    ColouringSat(F, R, N, top, g[rx := true], kept);
    assert rx != ry ==> c0[y] == c1[y] && c0[x] != c1[x];
  }

  /** Two forests that agree on every root and parity know the same. */
  ghost predicate SameView(F: seq<int>, R: seq<int>, N: seq<int>, top: int, F': seq<int>, R': seq<int>, N': seq<int>, top': int) {
    && Forest(F, R, N, top) && Forest(F', R', N', top') && |F| == |F'|
    && forall y :: 0 <= y < |F| ==>
         Root(F', R', N', top', y) == Root(F, R, N, top, y) && Par(F', R', N', top', y) == Par(F, R, N, top, y)
  }

  lemma SameViewKnows(F: seq<int>, R: seq<int>, N: seq<int>, top: int, F': seq<int>, R': seq<int>, N': seq<int>, top': int,
                      kept: seq<Pair>)
    requires SameView(F, R, N, top, F', R', N', top') && Holds(F, R, N, top, kept) && Obeyed(F, R, N, top, kept)
    ensures Holds(F', R', N', top', kept) && Obeyed(F', R', N', top', kept)
  {
  }

  predicate Between(a: int, b: int, rx: int, ry: int) {
    a != b && ((rx == a && ry == b) || (rx == b && ry == a))
  }

  /** Merging two trees by the statement (x, y). */
  lemma LinkKnows(F: seq<int>, R: seq<int>, N: seq<int>, top: int, R': seq<int>, top': int, a: int, b: int, d: int,
                  kept: seq<Pair>, x: int, y: int)
    requires Forest(F, R, N, top) && Holds(F, R, N, top, kept) && Obeyed(F, R, N, top, kept)
    requires 0 <= a < |F| && 0 <= b < |F| && a != b && F[a] == a && F[b] == b
    requires |R'| == |R| && R' == R[a := R'[a]] && R[a] <= R'[a] <= top' && R[b] < R'[a] && top <= top'
    requires 0 <= x < |F| && 0 <= y < |F| && Between(a, b, Root(F, R, N, top, x), Root(F, R, N, top, y))
    requires d == (Par(F, R, N, top, x) + Par(F, R, N, top, y) + 1) % 2
    ensures var F', N' := F[b := a], N[b := d];
      Forest(F', R', N', top') && Holds(F', R', N', top', kept + [(x, y)]) && Obeyed(F', R', N', top', kept + [(x, y)])
  {
    hide Forest, Root, Par, Obeyed;
    StepUp(F, R, N, top, b);
    var F', N', kept' := F[b := a], N[b := d], kept + [(x, y)];
    LinkForest(F, R, N, top, R', top', a, b, d);
    forall z | 0 <= z < |F|
      ensures Root(F', R', N', top', z) == (if Root(F, R, N, top, z) == b then a else Root(F, R, N, top, z))
      ensures Par(F', R', N', top', z) == (if Root(F, R, N, top, z) == b then (Par(F, R, N, top, z) + d) % 2 else Par(F, R, N, top, z))
    {
      Link(F, R, N, top, R', top', a, b, d, z);
    }
    LinkObeyed(F, R, N, top, F', R', N', top', a, b, d, kept, x, y);
  }

  lemma LinkObeyed(F: seq<int>, R: seq<int>, N: seq<int>, top: int, F': seq<int>, R': seq<int>, N': seq<int>, top': int,
                   a: int, b: int, d: int, kept: seq<Pair>, x: int, y: int)
    requires Forest(F, R, N, top) && Forest(F', R', N', top') && |F'| == |F| && Obeyed(F, R, N, top, kept)
    requires 0 <= x < |F| && 0 <= y < |F| && Between(a, b, Root(F, R, N, top, x), Root(F, R, N, top, y))
    requires d == (Par(F, R, N, top, x) + Par(F, R, N, top, y) + 1) % 2
    requires forall z :: 0 <= z < |F| ==>
      Root(F', R', N', top', z) == (if Root(F, R, N, top, z) == b then a else Root(F, R, N, top, z))
    requires forall z :: 0 <= z < |F| ==>
      Par(F', R', N', top', z) == (if Root(F, R, N, top, z) == b then (Par(F, R, N, top, z) + d) % 2 else Par(F, R, N, top, z))
    ensures Obeyed(F', R', N', top', kept + [(x, y)])
  {
    hide Forest, Root, Par;
    var kept' := kept + [(x, y)];
    forall c: seq<bool>, z | |c| == |F| && Sat(c, kept') && 0 <= z < |F|
      ensures c[z] != c[Root(F', R', N', top', z)] <==> Par(F', R', N', top', z) == 1
    {
      hide Sat;
      SatPrefix(c, kept, (x, y));
      LinkColour(F, R, N, top, a, b, d, kept, x, y, c);
      assert c[z] != c[Root(F, R, N, top, z)] <==> Par(F, R, N, top, z) == 1;
      if Root(F, R, N, top, z) == b {
        AddParity(c[z], c[a], c[b], Par(F, R, N, top, z), d);
      }
    }
  }

  lemma AddParity(z: bool, a: bool, b: bool, p: int, d: int)
    requires 0 <= p <= 1 && 0 <= d <= 1 && (z != b <==> p == 1) && (a != b <==> d == 1)
    ensures z != a <==> (p + d) % 2 == 1
  {
  }

  /** The parity put on the new link is the one every colouring forces. */
  lemma LinkColour(F: seq<int>, R: seq<int>, N: seq<int>, top: int, a: int, b: int, d: int,
                   kept: seq<Pair>, x: int, y: int, c: seq<bool>)
    requires Forest(F, R, N, top) && Obeyed(F, R, N, top, kept) && |c| == |F| && Sat(c, kept)
    requires 0 <= x < |F| && 0 <= y < |F| && Between(a, b, Root(F, R, N, top, x), Root(F, R, N, top, y))
    requires d == (Par(F, R, N, top, x) + Par(F, R, N, top, y) + 1) % 2 && c[x] != c[y]
    ensures 0 <= a < |F| && 0 <= b < |F| && (c[a] != c[b] <==> d == 1)
  {
    hide Forest, Sat, Obeyed;
    ObeyedAt(F, R, N, top, kept, c, x);
    ObeyedAt(F, R, N, top, kept, c, y);
  }

  lemma ObeyedAt(F: seq<int>, R: seq<int>, N: seq<int>, top: int, kept: seq<Pair>, c: seq<bool>, x: int)
    requires Forest(F, R, N, top) && Obeyed(F, R, N, top, kept) && |c| == |F| && Sat(c, kept) && 0 <= x < |F|
    ensures c[x] != c[Root(F, R, N, top, x)] <==> Par(F, R, N, top, x) == 1
  {
    hide Forest, Sat;
  }

  lemma SatPrefix(c: seq<bool>, kept: seq<Pair>, s: Pair)
    ensures Sat(c, kept + [s]) <==>
      Sat(c, kept) && 0 <= s.0 < |c| && 0 <= s.1 < |c| && c[s.0] != c[s.1]
  {
    var kept' := kept + [s];
    if Sat(c, kept') {
      assert kept'[|kept|] == s;
      assert forall i :: 0 <= i < |kept| ==> kept'[i] == kept[i];
    }
  }

  lemma CompressAll(F: seq<int>, R: seq<int>, N: seq<int>, top: int, F1: seq<int>, N1: seq<int>, x: int)
    requires SameView(F, R, N, top, F1, R, N1, top) && 0 <= x < |F| && F[x] != x
    ensures |F1| == |N1| && Root(F, R, N, top, x) == Root(F, R, N, top, F[x])
    ensures Par(F, R, N, top, x) == (N[x] + Par(F, R, N, top, F[x])) % 2
    ensures SameView(F, R, N, top, F1[x := Root(F, R, N, top, x)], R, N1[x := Par(F, R, N, top, x)], top)
  {
    hide Forest, Root, Par;
    Unfold(F, R, N, top, x);
    StepUp(F, R, N, top, x);
    StepUp(F1, R, N1, top, x);
    forall y | 0 <= y < |F|
      ensures var F', N' := F1[x := Root(F, R, N, top, x)], N1[x := Par(F, R, N, top, x)];
        && Forest(F', R, N', top)
        && Root(F', R, N', top, y) == Root(F, R, N, top, y) && Par(F', R, N', top, y) == Par(F, R, N, top, y)
    {
      Unfold(F1, R, N1, top, x);
      Compress(F1, R, N1, top, x, y);
    }
  }

  datatype Answer = SameGang | DifferentGangs | NotSure

  class Gangs {
    const rank: array<int>
    const father: array<int>
    const ndis: array<int>
    ghost var top: int
    ghost var kept: seq<Pair>

    ghost predicate Shape()
      reads this, rank, father, ndis
    {
      && rank != father && rank != ndis && father != ndis
      && rank.Length == father.Length == ndis.Length
      && Forest(father[..], rank[..], ndis[..], top)
    }

    ghost predicate Valid()
      reads this, rank, father, ndis
    {
      && Shape() && Holds(father[..], rank[..], ndis[..], top, kept)
      && Obeyed(father[..], rank[..], ndis[..], top, kept)
    }

    ghost function RootOf(x: int): int
      requires Shape() && 0 <= x < father.Length
      reads this, rank, father, ndis
    {
      Root(father[..], rank[..], ndis[..], top, x)
    }

    ghost function ParOf(x: int): int
      requires Shape() && 0 <= x < father.Length
      reads this, rank, father, ndis
    {
      Par(father[..], rank[..], ndis[..], top, x)
    }

    method GetFather(x: int) returns (r: int)
      requires Shape() && 0 <= x < father.Length
      modifies father, ndis
      ensures SameView(old(father[..]), old(rank[..]), old(ndis[..]), top, father[..], rank[..], ndis[..], top)
      ensures Shape() && r == father[x] == old(RootOf(x)) && ndis[x] == old(ParOf(x))
      ensures forall z :: 0 <= z < father.Length && old(father[z]) == old(RootOf(z)) ==> father[z] == old(RootOf(z))
      decreases top - rank[x]
    {
      hide Forest, Root, Par;
      ghost var F, R, N := father[..], rank[..], ndis[..];
      StepUp(F, R, N, top, x);
      Unfold(F, R, N, top, x);
      var ndisx := ndis[x];
      if father[x] != x {
        var prev := father[x];
        var f := GetFather(father[x]);
        ghost var F1, N1 := father[..], ndis[..];
        father[x] := f;
        ndis[x] := (ndisx + ndis[prev]) % 2;
        CompressAll(F, R, N, top, F1, N1, x);
        assert father[..] == F1[x := f] && ndis[..] == N1[x := ndis[x]];
      }
      r := father[x];
    }

    /** make_set for each of n criminals. */
    constructor (n: nat)
      ensures Valid() && father.Length == n && kept == []
      ensures fresh(father) && fresh(rank) && fresh(ndis)
    {
      rank, father, ndis := new int[n], new int[n], new int[n];
      top, kept := 0, [];
      new;
      var i := 0;
      while i < n
        invariant 0 <= i <= n == rank.Length == father.Length == ndis.Length
        invariant forall x :: 0 <= x < i ==> rank[x] == 0 && father[x] == x && ndis[x] == 0
        invariant top == 0 && kept == [] && fresh(father) && fresh(rank) && fresh(ndis)
      {
        rank[i], father[i], ndis[i] := 0, i, 0;
        i := i + 1;
      }
    }

    /** The tree of lower rank goes below the root of the other. */
    method Merge(fx: int, fy: int, d: int, ghost x: int, ghost y: int)
      requires Valid() && 0 <= x < father.Length && 0 <= y < father.Length
      requires fx == RootOf(x) && fy == RootOf(y) && fx != fy
      requires d == (ParOf(x) + ParOf(y) + 1) % 2
      modifies this, rank, father, ndis
      ensures Valid() && kept == old(kept) + [(x, y)]
    {
      hide Forest, Root, Par, Holds, Obeyed, Sat;
      ghost var F, R, N := father[..], rank[..], ndis[..];
      StepUp(F, R, N, top, fx);
      StepUp(F, R, N, top, fy);
      if rank[fx] > rank[fy] {
        LinkKnows(F, R, N, top, R, top, fx, fy, d, kept, x, y);
        father[fy] := fx;
        ndis[fy] := d;
      } else {
        ghost var R' := if R[fx] == R[fy] then R[fy := R[fy] + 1] else R;
        LinkKnows(F, R, N, top, R', top + 1, fy, fx, d, kept, x, y);
        father[fx] := fy;
        if rank[fx] == rank[fy] {
          rank[fy] := rank[fy] + 1;
        }
        ndis[fx] := d;
        assert rank[..] == R';
        top := top + 1;
      }
      kept := kept + [(x, y)];
    }

    /** The statement that x and y belong to different gangs: kept unless what is
        kept already forces them into the same one. */
    method Union(x: int, y: int)
      requires Valid() && 0 <= x < father.Length && 0 <= y < father.Length
      modifies this, rank, father, ndis
      ensures Valid()
      ensures kept == Add(father.Length, old(kept), (x, y))
    {
      hide Forest, Root, Par, Holds, Obeyed, ForcedSame, ForcedDifferent, Sat, SameView;
      ghost var n := father.Length;
      Verdict(father[..], rank[..], ndis[..], top, kept, x, y);
      var fx, fy, ndisx, ndisy := Roots(x, y);
      if fx == fy {
        if ndisx != ndisy {
          ExtendKnows(father[..], rank[..], ndis[..], top, kept, x, y);
          kept := kept + [(x, y)];
        }
        return;
      }
      Merge(fx, fy, (ndisx + ndisy + 1) % 2, x, y);
    }

    /** The two searches that begin a statement, and the parities read after them. */
    method Roots(x: int, y: int) returns (fx: int, fy: int, ndisx: int, ndisy: int)
      requires Valid() && 0 <= x < father.Length && 0 <= y < father.Length
      modifies father, ndis
      ensures Valid() && fx == RootOf(x) == old(RootOf(x)) && fy == RootOf(y) == old(RootOf(y))
      ensures ndisx == ParOf(x) == old(ParOf(x)) && ndisy == ParOf(y) == old(ParOf(y))
    {
      hide Forest, Root, Par, Holds, Obeyed;
      fx := GetFather(x);
      ghost var F1, R1, N1 := father[..], rank[..], ndis[..];
      fy := GetFather(y);
      TwoViews(old(father[..]), old(rank[..]), old(ndis[..]), top, F1, R1, N1, father[..], rank[..], ndis[..], kept, x, y);
      ndisx := ndis[x];
      ndisy := ndis[y];
    }

    /** The question about x and y, answered exactly. */
    method Ask(x: int, y: int) returns (a: Answer)
      requires Valid() && 0 <= x < father.Length && 0 <= y < father.Length
      modifies father, ndis
      ensures Valid()
      ensures a == SameGang <==> ForcedSame(father.Length, kept, x, y)
      ensures a == DifferentGangs <==> ForcedDifferent(father.Length, kept, x, y)
    {
      hide Forest, Root, Par, Holds, Obeyed;
      Verdict(father[..], rank[..], ndis[..], top, kept, x, y);
      var fj := GetFather(x);
      ghost var F1, R1, N1 := father[..], rank[..], ndis[..];
      var fk := GetFather(y);
      TwoViews(old(father[..]), old(rank[..]), old(ndis[..]), top, F1, R1, N1, father[..], rank[..], ndis[..], kept, x, y);
      if fj == fk {
        if ndis[x] == ndis[y] {
          a := SameGang;
        } else {
          a := DifferentGangs;
        }
      } else {
        a := NotSure;
      }
    }
  }

  /** The parity stored at a vertex that points at its root is its whole parity. */
  lemma Direct(F: seq<int>, R: seq<int>, N: seq<int>, top: int, x: int)
    requires Forest(F, R, N, top) && 0 <= x < |F| && F[x] == Root(F, R, N, top, x)
    ensures |N| == |F| && N[x] == Par(F, R, N, top, x)
  {
    Unfold(F, R, N, top, x);
    Unfold(F, R, N, top, F[x]);
    StepUp(F, R, N, top, x);
  }

  /** After two lookups the forest still knows the same, and the parity stored
      at the first vertex is still its whole parity. */
  lemma TwoViews(F0: seq<int>, R0: seq<int>, N0: seq<int>, top: int, F1: seq<int>, R1: seq<int>, N1: seq<int>,
                 F: seq<int>, R: seq<int>, N: seq<int>, kept: seq<Pair>, x: int, y: int)
    requires SameView(F0, R0, N0, top, F1, R1, N1, top) && SameView(F1, R1, N1, top, F, R, N, top)
    requires Holds(F0, R0, N0, top, kept) && Obeyed(F0, R0, N0, top, kept)
    requires 0 <= x < |F0| && 0 <= y < |F0| && F[x] == Root(F0, R0, N0, top, x)
    requires |N| == |F|
    ensures SameView(F0, R0, N0, top, F, R, N, top)
    ensures Holds(F, R, N, top, kept) && Obeyed(F, R, N, top, kept)
    ensures N[x] == Par(F0, R0, N0, top, x)
    ensures Between(Root(F, R, N, top, x), Root(F, R, N, top, y), Root(F, R, N, top, x), Root(F, R, N, top, y))
            || Root(F, R, N, top, x) == Root(F, R, N, top, y)
  {
    hide Forest, Root, Par, Holds, Obeyed;
    Direct(F, R, N, top, x);
    SameViewKnows(F0, R0, N0, top, F, R, N, top, kept);
  }

  lemma ExtendKnows(F: seq<int>, R: seq<int>, N: seq<int>, top: int, kept: seq<Pair>, x: int, y: int)
    requires Forest(F, R, N, top) && Holds(F, R, N, top, kept) && Obeyed(F, R, N, top, kept)
    requires 0 <= x < |F| && 0 <= y < |F| && Root(F, R, N, top, x) == Root(F, R, N, top, y)
    requires Par(F, R, N, top, x) != Par(F, R, N, top, y)
    ensures Holds(F, R, N, top, kept + [(x, y)]) && Obeyed(F, R, N, top, kept + [(x, y)])
  {
    hide Forest, Root, Par;
    forall c: seq<bool>, z | |c| == |F| && Sat(c, kept + [(x, y)]) && 0 <= z < |F|
      ensures c[z] != c[Root(F, R, N, top, z)] <==> Par(F, R, N, top, z) == 1
    {
      SatPrefix(c, kept, (x, y));
    }
  }

  // ---------- whole inputs ----------

  ghost function Add(n: nat, kept: seq<Pair>, s: Pair): seq<Pair>
    requires 0 <= s.0 < n && 0 <= s.1 < n
  {
    if ForcedSame(n, kept, s.0, s.1) then kept else kept + [s]
  }

  /** The statements a run keeps: each is dropped that contradicts those kept before it. */
  ghost function Keep(n: nat, stmts: seq<Pair>): seq<Pair>
    requires forall s <- stmts :: 0 <= s.0 < n && 0 <= s.1 < n
  {
    if stmts == [] then [] else Add(n, Keep(n, stmts[..|stmts| - 1]), stmts[|stmts| - 1])
  }

  /** Nothing is dropped exactly when the statements have a colouring at all. */
  lemma {:induction false} ConsistentKeepsAll(n: nat, stmts: seq<Pair>)
    requires forall s <- stmts :: 0 <= s.0 < n && 0 <= s.1 < n
    ensures Consistent(n, stmts) <==> Keep(n, stmts) == stmts
    ensures Consistent(n, Keep(n, stmts)) && |Keep(n, stmts)| <= |stmts|
  {
    if stmts == [] {
      var c := seq(n, i => false);
      assert Sat(c, stmts);
    } else {
      var rest, s := stmts[..|stmts| - 1], stmts[|stmts| - 1];
      assert stmts == rest + [s];
      ConsistentKeepsAll(n, rest);
      var kept := Keep(n, rest);
      if ForcedSame(n, kept, s.0, s.1) {
        forall c: seq<bool> | |c| == n
          ensures !Sat(c, stmts)
        {
          SatPrefix(c, rest, s);
          assert Sat(c, rest) ==> Consistent(n, rest);
        }
      } else {
        var c: seq<bool> :| |c| == n && Sat(c, kept) && c[s.0] != c[s.1];
        SatPrefix(c, kept, s);
        assert Consistent(n, kept + [s]);
        if Consistent(n, stmts) {
          var e: seq<bool> :| |e| == n && Sat(e, stmts);
          SatPrefix(e, rest, s);
        }
      }
    }
  }

  /** An input line: 'A' asks about two criminals, 'D' states that they belong to
      different gangs.  Criminals are numbered from 1. */
  datatype Line = A(j: int, k: int) | D(j: int, k: int)

  ghost predicate InRange(n: nat, lines: seq<Line>) {
    forall l <- lines :: 1 <= l.j <= n && 1 <= l.k <= n
  }

  ghost function Statements(n: nat, lines: seq<Line>): (stmts: seq<Pair>)
    requires InRange(n, lines)
    ensures forall s <- stmts :: 0 <= s.0 < n && 0 <= s.1 < n
  {
    if lines == [] then [] else
      var l := lines[|lines| - 1];
      var before := Statements(n, lines[..|lines| - 1]);
      if l.D? then before + [(l.j - 1, l.k - 1)] else before
  }

  /** a is what the colourings of stmts say about x and y. */
  ghost predicate Exact(n: nat, stmts: seq<Pair>, x: int, y: int, a: Answer)
    requires 0 <= x < n && 0 <= y < n
  {
    && (a == SameGang <==> ForcedSame(n, stmts, x, y))
    && (a == DifferentGangs <==> ForcedDifferent(n, stmts, x, y))
  }

  /** out holds, in order, the exact answer to every question, given the
      statements kept of those made before it. */
  ghost predicate Judged(n: nat, lines: seq<Line>, out: seq<Answer>)
    requires InRange(n, lines)
  {
    if lines == [] then out == [] else
      var l, before := lines[|lines| - 1], lines[..|lines| - 1];
      if l.D? then Judged(n, before, out) else
        && |out| > 0 && Judged(n, before, out[..|out| - 1])
        && Exact(n, Keep(n, Statements(n, before)), l.j - 1, l.k - 1, out[|out| - 1])
  }

  /** The loop of main over one test case; it ends at the first line that names a
      criminal beyond n, after done lines. */
  method Judge(n: nat, lines: seq<Line>) returns (out: seq<Answer>, done: nat)
    requires forall l <- lines :: l.j >= 1 && l.k >= 1
    ensures done <= |lines| && InRange(n, lines[..done]) && Judged(n, lines[..done], out)
    ensures done < |lines| ==> lines[done].j > n || lines[done].k > n
  {
    hide Exact, Forest, Holds, Obeyed, ForcedSame, ForcedDifferent, Sat, Add, Judged, Statements, Keep;
    var gangs := new Gangs(n);
    out, done := [], 0;
    NothingYet(n);
    assert lines[..0] == [];
    while done < |lines|
      invariant done <= |lines| && InRange(n, lines[..done]) && Judged(n, lines[..done], out)
      invariant gangs.Valid() && gangs.father.Length == n && fresh(gangs) && gangs.kept == Keep(n, Statements(n, lines[..done]))
      invariant fresh(gangs.father) && fresh(gangs.rank) && fresh(gangs.ndis)
    {
      var l := lines[done];
      if l.j > n || l.k > n {
        return;
      }
      assert lines[..done + 1] == lines[..done] + [l];
      if l.A? {
        var a := gangs.Ask(l.j - 1, l.k - 1);
        MakeExact(n, gangs.kept, l.j - 1, l.k - 1, a);
        Asked(n, lines[..done], l, out, a);
        out := out + [a];
      } else {
        gangs.Union(l.j - 1, l.k - 1);
        Stated(n, lines[..done], l, out);
      }
      done := done + 1;
    }
  }

  lemma NothingYet(n: nat)
    ensures Judged(n, [], []) && Keep(n, Statements(n, [])) == []
  {
  }

  lemma Asked(n: nat, before: seq<Line>, l: Line, out: seq<Answer>, a: Answer)
    requires l.A? && InRange(n, before + [l]) && InRange(n, before) && Judged(n, before, out)
    requires Exact(n, Keep(n, Statements(n, before)), l.j - 1, l.k - 1, a)
    ensures Judged(n, before + [l], out + [a]) && Statements(n, before + [l]) == Statements(n, before)
  {
    hide Exact, Add, Keep;
    assert (before + [l])[..|before|] == before && (out + [a])[..|out|] == out;
  }

  lemma Stated(n: nat, before: seq<Line>, l: Line, out: seq<Answer>)
    requires l.D? && InRange(n, before + [l]) && InRange(n, before) && Judged(n, before, out)
    ensures Judged(n, before + [l], out)
    ensures Keep(n, Statements(n, before + [l])) == Add(n, Keep(n, Statements(n, before)), (l.j - 1, l.k - 1))
  {
    hide Exact, Add, Keep;
    assert (before + [l])[..|before|] == before;
    KeepOne(n, Statements(n, before), (l.j - 1, l.k - 1));
  }

  lemma MakeExact(n: nat, stmts: seq<Pair>, x: int, y: int, a: Answer)
    requires 0 <= x < n && 0 <= y < n
    requires a == SameGang <==> ForcedSame(n, stmts, x, y)
    requires a == DifferentGangs <==> ForcedDifferent(n, stmts, x, y)
    ensures Exact(n, stmts, x, y, a)
  {
  }

  lemma KeepOne(n: nat, stmts: seq<Pair>, s: Pair)
    requires forall t <- stmts + [s] :: 0 <= t.0 < n && 0 <= t.1 < n
    ensures Keep(n, stmts + [s]) == Add(n, Keep(n, stmts), s)
  {
    assert (stmts + [s])[..|stmts|] == stmts;
  }

  /** For consistent statements every answer is exact for all statements made
      before it: "same" or "different" exactly when every colouring says so,
      "not sure" exactly when colourings of both kinds exist. */
  lemma ConsistentAnswers(n: nat, stmts: seq<Pair>, x: int, y: int, a: Answer)
    requires forall s <- stmts :: 0 <= s.0 < n && 0 <= s.1 < n
    requires 0 <= x < n && 0 <= y < n && Exact(n, Keep(n, stmts), x, y, a)
    ensures Consistent(n, stmts) ==> Exact(n, stmts, x, y, a)
    ensures Consistent(n, stmts) ==> (a == NotSure <==>
      (exists c: seq<bool> :: |c| == n && Sat(c, stmts) && c[x] == c[y]) &&
      (exists c: seq<bool> :: |c| == n && Sat(c, stmts) && c[x] != c[y]))
    ensures !Consistent(n, stmts) ==> !Exact(n, stmts, x, y, a)
  {
    ConsistentKeepsAll(n, stmts);
    if !Consistent(n, stmts) {
      assert forall c: seq<bool> :: |c| == n ==> !Sat(c, stmts);
    }
  }
}
