/** The bitmap graph of graph/matrix_graph.c. */
module MatrixGraphs {
  import opened Graphs
  import opened BreadthFirst
  import opened ChildLinks
  import Ord = BreadthFirstOrder

  const BITS_ONE_BYTE := 8

  function Mask(k: nat): bv8
    requires k < BITS_ONE_BYTE
  {
    1 << k
  }

  /** Bit k of byte b. */
  ghost predicate BitOf(b: bv8, k: nat)
    requires k < BITS_ONE_BYTE
  {
    b & Mask(k) != 0
  }

  ghost predicate Bit(bits: seq<bv8>, index: nat) {
    index / BITS_ONE_BYTE < |bits| && BitOf(bits[index / BITS_ONE_BYTE], index % BITS_ONE_BYTE)
  }

  lemma MaskBits(b: bv8, i: nat, j: nat)
    requires i < BITS_ONE_BYTE && j < BITS_ONE_BYTE
    ensures BitOf(b | Mask(i), j) <==> i == j || BitOf(b, j)
  {
    assert Mask(i) in {1, 2, 4, 8, 16, 32, 64, 128} && Mask(j) in {1, 2, 4, 8, 16, 32, 64, 128};
  }

  /** The length of the bitmap. */
  function MapBytes(n: nat): nat {
    n * n / BITS_ONE_BYTE + 1
  }

  /** The bit of the edge from x to y, both counted from 0. */
  function Index(n: nat, x: int, y: int): int {
    n * x + y
  }

  lemma IndexInMap(n: nat, x: int, y: int)
    requires 0 <= x < n && 0 <= y < n
    ensures 0 <= Index(n, x, y) < n * n && Index(n, x, y) / BITS_ONE_BYTE < MapBytes(n)
  {
    MulMono(n, 0, x);
    MulMono(n, x + 1, n);
    assert n * (x + 1) == n * x + n;
  }

  lemma {:induction false} MulMono(n: nat, a: int, b: int)
    requires a <= b
    ensures n * a <= n * b
    decreases b - a
  {
    if a < b {
      MulMono(n, a, b - 1);
      assert n * b == n * (b - 1) + n;
    }
  }

  lemma RowsApart(n: nat, x: int, x': int)
    requires x < x'
    ensures n * x + n <= n * x'
  {
    MulMono(n, x + 1, x');
    assert n * (x + 1) == n * x + n;
  }

  lemma IndexDistinct(n: nat, x: int, y: int, x': int, y': int)
    requires 0 <= x < n && 0 <= y < n && 0 <= x' < n && 0 <= y' < n
    requires Index(n, x, y) == Index(n, x', y')
    ensures x == x' && y == y'
  {
    if x < x' {
      RowsApart(n, x, x');
    } else if x' < x {
      RowsApart(n, x', x);
    }
  }

  ghost function EdgesIn(n: nat, bits: seq<bv8>): Edges {
    set x, y | 0 <= x < n && 0 <= y < n && Index(n, x, y) >= 0 && Bit(bits, Index(n, x, y)) :: (x, y)
  }

  function WithBit(bits: seq<bv8>, index: nat): seq<bv8>
    requires index / BITS_ONE_BYTE < |bits|
  {
    bits[index / BITS_ONE_BYTE := bits[index / BITS_ONE_BYTE] | Mask(index % BITS_ONE_BYTE)]
  }

  /** The bit number as it is computed from vertex numbers counted from 1. */
  lemma IndexIs(n: nat, i: int, j: int)
    ensures n * (i - 1) + j - 1 == Index(n, i - 1, j - 1)
  {
  }

  lemma SetOneBit(bits: seq<bv8>, index: nat, other: nat)
    requires index / BITS_ONE_BYTE < |bits|
    ensures Bit(WithBit(bits, index), other) <==> Bit(bits, other) || other == index
  {
    hide Mask, BitOf;
    MaskBits(bits[index / BITS_ONE_BYTE], index % BITS_ONE_BYTE, other % BITS_ONE_BYTE);
    SameBit(index, other);
  }

  lemma SetBit(n: nat, bits: seq<bv8>, i: int, j: int)
    requires 0 <= i < n && 0 <= j < n && |bits| == MapBytes(n)
    ensures var index := Index(n, i, j);
      && 0 <= index && index / BITS_ONE_BYTE < |bits|
      && EdgesIn(n, WithBit(bits, index)) == EdgesIn(n, bits) + {(i, j)}
  {
    hide MapBytes, Index, Bit, WithBit;
    IndexInMap(n, i, j);
    var index := Index(n, i, j);
    var bits' := WithBit(bits, index);
    forall x, y | 0 <= x < n && 0 <= y < n
      ensures (x, y) in EdgesIn(n, bits') <==> (x, y) in EdgesIn(n, bits) || (x, y) == (i, j)
    {
      IndexInMap(n, x, y);
      SetOneBit(bits, index, Index(n, x, y));
      if Index(n, x, y) == index {
        IndexDistinct(n, x, y, i, j);
      }
    }
    assert EdgesIn(n, bits') == EdgesIn(n, bits) + {(i, j)};
  }

  lemma SameBit(a: nat, b: nat)
    ensures a == b <==> a / BITS_ONE_BYTE == b / BITS_ONE_BYTE && a % BITS_ONE_BYTE == b % BITS_ONE_BYTE
  {
  }

  // ---------- the bitmap as lists ----------

  /** The successors of u numbered i or more, in number order. */
  function Numbered(n: nat, E: Edges, u: int, i: nat): (ws: seq<int>)
    ensures forall w <- ws :: i <= w < n && (u, w) in E
    ensures forall w :: i <= w < n && (u, w) in E ==> w in ws
    decreases n - i
  {
    if i >= n then [] else (if (u, i) in E then [i] else []) + Numbered(n, E, u, i + 1)
  }

  /** The graph as the inner loop goes through it. */
  function InNumberOrder(n: nat, E: Edges): (adj: Adjacency)
    ensures |adj| == n && Graph(adj)
  {
    var adj := seq(n, u requires 0 <= u < n => Numbered(n, E, u, 0));
    assert forall x, i :: 0 <= x < n && 0 <= i < |adj[x]| ==> adj[x][i] in adj[x];
    adj
  }

  lemma NumberedStep(n: nat, E: Edges, u: int, i: nat)
    requires i < n
    ensures var ws, rest := Numbered(n, E, u, i), Numbered(n, E, u, i + 1);
      if (u, i) in E then ws != [] && ws[0] == i && ws[1..] == rest else ws == rest
  {
  }

  lemma NumberedEnd(n: nat, E: Edges, u: int)
    ensures Numbered(n, E, u, n) == []
  {
  }

  ghost predicate Ascending(ws: seq<int>) {
    forall a, b :: 0 <= a < b < |ws| ==> ws[a] < ws[b]
  }

  lemma {:induction false} NumberedAscends(n: nat, E: Edges, u: int, i: nat)
    ensures Ascending(Numbered(n, E, u, i))
    decreases n - i
  {
    if i < n {
      var rest := Numbered(n, E, u, i + 1);
      NumberedAscends(n, E, u, i + 1);
      assert forall a :: 0 <= a < |rest| ==> rest[a] in rest;
    }
  }

  lemma NumberedIs(n: nat, E: Edges, u: int)
    requires 0 <= u < n
    ensures InNumberOrder(n, E)[u] == Numbered(n, E, u, 0)
  {
  }

  /** These lists have the edges of the bitmap. */
  lemma InNumberOrderEdges(n: nat, E: Edges)
    requires WellFormed(n, E)
    ensures EdgesOf(InNumberOrder(n, E)) == E
    ensures forall u, a, b :: 0 <= u < n && 0 <= a < b < |InNumberOrder(n, E)[u]| ==>
      InNumberOrder(n, E)[u][a] < InNumberOrder(n, E)[u][b]
  {
    forall u | 0 <= u < n
      ensures Ascending(InNumberOrder(n, E)[u])
    {
      NumberedAscends(n, E, u, 0);
    }
    var adj := InNumberOrder(n, E);
    forall e
      ensures e in EdgesOf(adj) <==> e in E
    {
      if e in E {
        assert e.1 in adj[e.0];
        var i :| 0 <= i < |adj[e.0]| && adj[e.0][i] == e.1;
        assert e == (e.0, adj[e.0][i]);
      }
      if e in EdgesOf(adj) {
        var x, i :| 0 <= x < n && 0 <= i < |adj[x]| && e == (x, adj[x][i]);
        assert adj[x][i] in adj[x];
      }
    }
  }

  class MatrixGraph {
    const bits: array<bv8>
    const v: Vertices
    const tree: Children

    ghost predicate Shape()
      reads this, v, v.queue, tree, tree.first, tree.last, tree.sibling
    {
      && v.Shape() && tree.Valid() && LastOk(tree.last[..], tree.kids) && tree.first.Length == v.n
      && {tree.first, tree.last, tree.sibling} !! {v.d, v.p, v.queue.q}
      && bits as object !in {v.c as object, v.d, v.p, v.queue.q, tree.first, tree.last, tree.sibling}
      && bits.Length == MapBytes(v.n)
    }

    ghost function Edges(): Edges
      reads this, bits
    {
      EdgesIn(v.n, bits[..])
    }

    constructor (n: nat)
      ensures Shape() && Edges() == {} && v.n == n && fresh(v) && fresh(bits) && fresh(tree)
      ensures Untouched(v.c[..], tree.kids)
    {
      bits := new bv8[MapBytes(n)](i => 0);
      v := new Vertices(n);
      tree := new Children(n);
    }

    /** set_e: result 1 for a vertex number out of range. */
    method SetE(i: int, j: int) returns (r: int)
      requires Shape()
      modifies bits
      ensures 1 <= i <= v.n && 1 <= j <= v.n ==> r == 0 && Edges() == old(Edges()) + {(i - 1, j - 1)}
      ensures !(1 <= i <= v.n && 1 <= j <= v.n) ==> r == 1 && Edges() == old(Edges())
    {
      if !(1 <= i <= v.n) || !(1 <= j <= v.n) {
        return 1;
      }
      hide MapBytes, EdgesIn, LinksOk, LastOk, WithBit, Index;
      SetBit(v.n, bits[..], i - 1, j - 1);
      IndexIs(v.n, i, j);
      SetBitAt(v.n * (i - 1) + j - 1);
      return 0;
    }

    method SetBitAt(index: nat)
      requires index / BITS_ONE_BYTE < bits.Length
      modifies bits
      ensures bits[..] == WithBit(old(bits[..]), index)
    {
      hide Mask;
      var byteNo, off := index / BITS_ONE_BYTE, index % BITS_ONE_BYTE;
      bits[byteNo] := bits[byteNo] | Mask(off);
    }

    /** get_e: 1 exactly for an edge of the graph or a vertex number out of range. */
    method GetE(i: int, j: int) returns (b: int)
      requires Shape()
      ensures b == 0 || b == 1
      ensures b == 1 <==> (1 <= i <= v.n && 1 <= j <= v.n ==> (i - 1, j - 1) in Edges())
    {
      if !(1 <= i <= v.n) || !(1 <= j <= v.n) {
        return 1;
      }
      IndexInMap(v.n, i - 1, j - 1);
      var index := v.n * (i - 1) + j - 1;
      assert index == Index(v.n, i - 1, j - 1);
      var byteNo, off := index / BITS_ONE_BYTE, index % BITS_ONE_BYTE;
      b := if bits[byteNo] & Mask(off) == 0 then 0 else 1;
      assert b == 1 <==> Bit(bits[..], index);
    }

    /** The inner loop of breadth_first_search, over all vertex numbers. */
    method Scan(u: int, ghost E: Edges, ghost r: int, ghost P0: seq<Ord.Place>, ghost k: nat)
      returns (ghost D: set<int>, ghost P: seq<Ord.Place>)
      requires Shape() && 0 <= u < v.n && E == Edges() && Examining(v.Now(), v.n, E, r, u, {}, v.lost)
      requires Family(v.Now(), tree.kids, r)
      requires Tracks(v.Now(), InNumberOrder(v.n, E), r, P0, k, Numbered(v.n, E, u, 0), v.lost)
      requires Growing(v.Now().p, tree.kids, P0, false, v.lost, k, u)
      modifies v.c, v.d, v.p, v.queue`t, v.queue.q, v`lost, tree`kids, tree.first, tree.last, tree.sibling
      ensures Shape() && Examining(v.Now(), v.n, E, r, u, D, v.lost) && Blacks(v.Now()) == Blacks(old(v.Now()))
      ensures Family(v.Now(), tree.kids, r) && Tracks(v.Now(), InNumberOrder(v.n, E), r, P, k, [], v.lost)
      ensures Growing(v.Now().p, tree.kids, P, false, v.lost, k, u)
      ensures forall w :: (u, w) in E ==> w in D
    {
      hide Examining, Blacks, EdgesIn, MapBytes, Family, LinksOk, LastOk, Seen, Listed, Met, Tracks, Lost, InNumberOrder, Numbered, Growing;
      D, P := {}, P0;
      var iv := 1;
      MatrixFits(v.n, bits[..]);
      while iv <= v.n
        invariant Shape() && Examining(v.Now(), v.n, E, r, u, D, v.lost) && 1 <= iv <= v.n + 1
        invariant Blacks(v.Now()) == Blacks(old(v.Now())) && E == Edges() && Family(v.Now(), tree.kids, r)
        invariant forall w :: 0 <= w < iv - 1 && (u, w) in E ==> w in D
        invariant Tracks(v.Now(), InNumberOrder(v.n, E), r, P, k, Numbered(v.n, E, u, iv - 1), v.lost)
        invariant Growing(v.Now().p, tree.kids, P, false, v.lost, k, u)
      {
        NumberedStep(v.n, E, u, iv - 1);
        var e := GetE(u + 1, iv);
        if e == 1 {
          ExaminingFacts(v.Now(), v.n, E, r, u, D, v.lost, iv - 1);
          LinkSizes(tree.first[..], tree.sibling[..], tree.kids);
          if v.c[iv - 1] == White {
            ghost var s, kids := v.Now(), tree.kids;
            WhiteIsUnlisted(s, kids, r, iv - 1);
            FamilyMeets(s, kids, r, u, iv - 1, kids[u] + [iv - 1]);
            TracksMet(s, InNumberOrder(v.n, E), r, P, k, Numbered(v.n, E, u, iv - 1), v.lost, u);
            GrowingMet(s, InNumberOrder(v.n, E), r, Numbered(v.n, E, u, iv - 1), kids, P, false, v.lost, k, u);
            P := P + [Ord.Place(iv - 1, k)];
            tree.PutLast(u, iv - 1);
            v.Meet(u, iv - 1, E, r, D);
          } else {
            TracksSeen(v.Now(), InNumberOrder(v.n, E), r, P, k, Numbered(v.n, E, u, iv - 1), v.lost);
          }
          D := D + {iv - 1};
        }
        iv := iv + 1;
      }
      NumberedEnd(v.n, E, u);
    }

    /** breadth_first_search on an untouched graph, with the same outcome. */
    method Search(r: int)
      requires Shape() && 0 <= r < v.n && Untouched(v.c[..], tree.kids)
      modifies v.c, v.d, v.p, v.queue, v.queue.q, v`lost, tree`kids, tree.first, tree.last, tree.sibling
      ensures Shape() && Family(v.Now(), tree.kids, r)
      ensures Searched(v.Now(), v.n, Edges(), r) <==> Ord.Narrow(InNumberOrder(v.n, Edges()), r, Q_LEN)
      ensures Searched(v.Now(), v.n, Edges(), r) <==> v.lost == {}
      ensures v.n <= Q_LEN ==> v.lost == {}
      ensures !Few(Edges(), r) ==> v.lost != {}
      ensures forall x <- v.lost :: 0 <= x < v.n && v.c[x] == Grey
      ensures v.lost == {} ==> Grown(v.p[..], tree.kids, Ord.Order(InNumberOrder(v.n, Edges()), r), false)
    {
      hide Turning, Examining, Searched, EdgesIn, MapBytes, Family, LinksOk, LastOk, Seen, Few, Waits, Tracks, Ord.Narrow, Ord.Order, Popped, Blackened, Grown, InNumberOrder, Numbered;
      ghost var E := Edges();
      MatrixFits(v.n, bits[..]);
      LinkSizes(tree.first[..], tree.sibling[..], tree.kids);
      v.Begin(r, E);
      FamilyStart(v.Now(), tree.kids, r);
      ghost var adj := InNumberOrder(v.n, E);
      WaitsAtFirst(v.Now(), adj, r);
      GrownStart(v.Now().p, tree.kids, r, false);
      ghost var P, k := [Ord.Place(r, -1)], 0;
      var empty := v.queue.IsEmpty();
      while !empty
        invariant Shape() && Turning(v.Now(), v.n, E, r, v.lost) && E == Edges() && Family(v.Now(), tree.kids, r)
        invariant empty == (v.Now().q == []) && Waits(v.Now(), adj, r, P, k, v.lost)
        invariant v.lost == {} ==> Grown(v.Now().p, tree.kids, P, false)
        decreases v.n - |Blacks(v.Now())|
      {
        FamilyPopped(v.Now(), tree.kids, r);
        FirstWaiting(v.Now(), v.n, E, r, v.lost);
        WaitsTracks(v.Now(), adj, r, P, k, v.lost);
        var u := v.Next(E, r);
        NumberedIs(v.n, E, u);
        ghost var D;
        D, P := Scan(u, E, r, P, k);
        FamilyBlackened(v.Now(), v.n, E, tree.kids, r, u, D, v.lost);
        TracksWaits(v.Now(), adj, r, P, k, v.lost, u);
        k := k + 1;
        v.Close(u, E, r, D);
        empty := v.queue.IsEmpty();
      }
      WaitsEnd(v.Now(), adj, r, P, k, v.lost);
      if v.lost == {} {
        OrderMet(v.Now(), adj, r, P, k);
      }
      EndIs(v.Now(), v.n, E, r, v.lost);
    }
  }

  lemma MatrixFits(n: nat, bits: seq<bv8>)
    ensures WellFormed(n, EdgesIn(n, bits))
  {
  }
}
