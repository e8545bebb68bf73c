/** The order in which a breadth-first search meets the vertices of a graph, as the
    graph alone determines it: no queue, no colours. */
module BreadthFirstOrder {
  import opened Graphs
  import opened FiniteSets

  /** A vertex in the order, with the place of the vertex it was met from. */
  datatype Place = Place(v: int, parent: int)

  predicate Placed(P: seq<Place>, w: int) {
    exists i :: 0 <= i < |P| && P[i].v == w
  }

  ghost predicate Apart(adj: Adjacency, P: seq<Place>) {
    && (forall i :: 0 <= i < |P| ==> 0 <= P[i].v < |adj|)
    && (forall i, j :: 0 <= i < j < |P| ==> P[i].v != P[j].v)
  }

  ghost predicate InGraph(adj: Adjacency, ws: seq<int>) {
    forall w <- ws :: 0 <= w < |adj|
  }

  lemma PlacesFit(adj: Adjacency, P: seq<Place>)
    requires Apart(adj, P)
    ensures |P| <= |adj|
  {
    var vs := seq(|P|, i requires 0 <= i < |P| => P[i].v);
    DistinctSize(vs);
    BelowSize(|adj|);
    var S := set v | v in vs;
    SubsetSize(S, Below(|adj|));
  }

  /** w takes the last place, unless it has one. */
  function Met(P: seq<Place>, w: int, k: nat): seq<Place> {
    if Placed(P, w) then P else P + [Place(w, k)]
  }

  lemma MetApart(adj: Adjacency, P: seq<Place>, w: int, k: nat)
    requires Apart(adj, P) && 0 <= w < |adj|
    ensures Apart(adj, Met(P, w, k))
  {
  }

  lemma InGraphTail(adj: Adjacency, ws: seq<int>)
    requires InGraph(adj, ws) && ws != []
    ensures 0 <= ws[0] < |adj| && InGraph(adj, ws[1..]) && forall w :: w in ws <==> w == ws[0] || w in ws[1..]
  {
    assert ws[0] in ws;
    assert forall w <- ws[1..] :: w in ws;
    assert ws == [ws[0]] + ws[1..];
  }

  /** The vertices ws, met from place k one after the other. */
  function MetAll(adj: Adjacency, P: seq<Place>, ws: seq<int>, k: nat): (Q: seq<Place>)
    requires Apart(adj, P) && InGraph(adj, ws)
    ensures Apart(adj, Q) && |P| <= |Q| && Q[..|P|] == P
    decreases |ws|
  {
    if ws == [] then P
    else
      InGraphTail(adj, ws);
      MetApart(adj, P, ws[0], k);
      MetAll(adj, Met(P, ws[0], k), ws[1..], k)
  }

  /** The order, from place k on: the successors of each place in turn. */
  function Continued(adj: Adjacency, P: seq<Place>, k: nat): (Q: seq<Place>)
    requires Graph(adj) && Apart(adj, P) && k <= |P|
    ensures Apart(adj, Q) && |P| <= |Q| && Q[..|P|] == P
    decreases |adj| - k
  {
    PlacesFit(adj, P);
    if k == |P| then P else Continued(adj, MetAll(adj, P, adj[P[k].v], k), k + 1)
  }

  function Order(adj: Adjacency, r: int): (Q: seq<Place>)
    requires Graph(adj) && 0 <= r < |adj|
    ensures Apart(adj, Q) && |Q| > 0 && Q[0] == Place(r, -1)
  {
    assert Continued(adj, [Place(r, -1)], 0)[..1] == [Place(r, -1)];
    Continued(adj, [Place(r, -1)], 0)
  }

  /** No vertex stands len or more places behind the one it is met from. */
  predicate Near(P: seq<Place>, len: nat) {
    forall i :: 0 < i < |P| ==> i - P[i].parent < len
  }

  predicate Narrow(adj: Adjacency, r: int, len: nat)
    requires Graph(adj) && 0 <= r < |adj|
  {
    Near(Order(adj, r), len)
  }

  // ---------- what the order is ----------

  /** P lists what is met from its first k places: each vertex behind the first
      place with an edge to it, those places in order, and all their successors. */
  ghost predicate BreadthFirst(adj: Adjacency, P: seq<Place>, k: nat) {
    BehindParents(adj, P, k) && ParentsInOrder(P) && ParentsFirst(adj, P, k)
  }

  ghost predicate BehindParents(adj: Adjacency, P: seq<Place>, k: nat) {
    forall i :: 0 < i < |P| ==> 0 <= P[i].parent < k && P[i].parent < i && Edge(adj, P[P[i].parent].v, P[i].v)
  }

  ghost predicate ParentsInOrder(P: seq<Place>) {
    forall i, j :: 0 < i < j < |P| ==> P[i].parent <= P[j].parent
  }

  ghost predicate ParentsFirst(adj: Adjacency, P: seq<Place>, k: nat) {
    forall i, j :: 0 < i < |P| && 0 <= j < k && j < |P| && Edge(adj, P[j].v, P[i].v) ==> P[i].parent <= j
  }

  /** Every successor of the first k places has a place. */
  ghost predicate Closed(adj: Adjacency, P: seq<Place>, k: nat) {
    forall j, w :: 0 <= j < k && j < |P| && Edge(adj, P[j].v, w) ==> Placed(P, w)
  }

  lemma MetBreadthFirst(adj: Adjacency, P: seq<Place>, w: int, k: nat)
    requires Apart(adj, P) && k < |P| && BreadthFirst(adj, P, k + 1) && Closed(adj, P, k) && Edge(adj, P[k].v, w)
    ensures BreadthFirst(adj, Met(P, w, k), k + 1) && Closed(adj, Met(P, w, k), k) && Placed(Met(P, w, k), w)
    ensures forall x :: Placed(P, x) ==> Placed(Met(P, w, k), x)
    ensures Met(P, w, k)[k] == P[k]
  {
    hide Edge;
    if !Placed(P, w) {
      var Q := P + [Place(w, k)];
      PlacedMore(P, Place(w, k));
      NewBehind(adj, P, w, k);
      assert Closed(adj, Q, k) by {
        assert forall j :: 0 <= j < |P| ==> Q[j] == P[j];
      }
    }
  }

  lemma PlacedMore(P: seq<Place>, p: Place)
    ensures forall x :: Placed(P + [p], x) <==> Placed(P, x) || x == p.v
  {
    var Q := P + [p];
    assert Q[|P|] == p;
    forall x | Placed(P, x)
      ensures Placed(Q, x)
    {
      var i :| 0 <= i < |P| && P[i].v == x;
      assert Q[i].v == x;
    }
  }

  /** A vertex without a place, met from place k, has no edge from an earlier one. */
  lemma NewBehind(adj: Adjacency, P: seq<Place>, w: int, k: nat)
    requires k < |P| && BreadthFirst(adj, P, k + 1) && Closed(adj, P, k) && Edge(adj, P[k].v, w) && !Placed(P, w)
    ensures BreadthFirst(adj, P + [Place(w, k)], k + 1)
  {
    NewParents(adj, P, w, k);
    NewFirst(adj, P, w, k);
  }

  lemma NewParents(adj: Adjacency, P: seq<Place>, w: int, k: nat)
    requires k < |P| && BehindParents(adj, P, k + 1) && ParentsInOrder(P) && Edge(adj, P[k].v, w)
    ensures BehindParents(adj, P + [Place(w, k)], k + 1) && ParentsInOrder(P + [Place(w, k)])
  {
    hide Edge;
    var Q := P + [Place(w, k)];
    forall i | 0 < i < |Q|
      ensures 0 <= Q[i].parent < k + 1 && Q[i].parent < i && Edge(adj, Q[Q[i].parent].v, Q[i].v)
    {
      if i < |P| {
        assert Q[i] == P[i] && Q[P[i].parent] == P[P[i].parent];
      } else {
        assert Q[k] == P[k];
      }
    }
    forall i, j | 0 < i < j < |Q|
      ensures Q[i].parent <= Q[j].parent
    {
      assert Q[i] == P[i] && (j < |P| ==> Q[j] == P[j]);
    }
  }

  lemma NewFirst(adj: Adjacency, P: seq<Place>, w: int, k: nat)
    requires k < |P| && ParentsFirst(adj, P, k + 1) && Closed(adj, P, k) && !Placed(P, w)
    ensures ParentsFirst(adj, P + [Place(w, k)], k + 1)
  {
    hide Edge, Placed;
    var Q := P + [Place(w, k)];
    forall i, j | 0 < i < |Q| && 0 <= j < k + 1 && Edge(adj, Q[j].v, Q[i].v)
      ensures Q[i].parent <= j
    {
      assert Q[j] == P[j];
      if i < |P| {
        assert Q[i] == P[i];
      } else {
        assert j < k ==> Placed(P, w);
      }
    }
  }

  lemma {:induction false} MetAllBreadthFirst(adj: Adjacency, P: seq<Place>, ws: seq<int>, k: nat)
    requires Apart(adj, P) && InGraph(adj, ws) && k < |P| && BreadthFirst(adj, P, k + 1) && Closed(adj, P, k)
    requires forall w <- ws :: Edge(adj, P[k].v, w)
    ensures BreadthFirst(adj, MetAll(adj, P, ws, k), k + 1) && Closed(adj, MetAll(adj, P, ws, k), k)
    ensures forall w :: w in ws || Placed(P, w) ==> Placed(MetAll(adj, P, ws, k), w)
    decreases |ws|
  {
    hide BreadthFirst, Closed, Placed, Edge, Apart;
    if ws != [] {
      InGraphTail(adj, ws);
      MetApart(adj, P, ws[0], k);
      MetBreadthFirst(adj, P, ws[0], k);
      MetAllBreadthFirst(adj, Met(P, ws[0], k), ws[1..], k);
    }
  }

  lemma {:induction false} ContinuedBreadthFirst(adj: Adjacency, P: seq<Place>, k: nat)
    requires Graph(adj) && Apart(adj, P) && k <= |P| && BreadthFirst(adj, P, k) && Closed(adj, P, k)
    ensures var Q := Continued(adj, P, k); BreadthFirst(adj, Q, |Q|) && Closed(adj, Q, |Q|)
    decreases |adj| - k
  {
    hide BreadthFirst, Closed, Apart, Placed;
    PlacesFit(adj, P);
    if k < |P| {
      OneTurn(adj, P, k);
      ContinuedBreadthFirst(adj, MetAll(adj, P, adj[P[k].v], k), k + 1);
    }
  }

  lemma SuccessorsInGraph(adj: Adjacency, P: seq<Place>, k: nat)
    requires Graph(adj) && Apart(adj, P) && k < |P|
    ensures 0 <= P[k].v < |adj| && InGraph(adj, adj[P[k].v])
    ensures forall w :: w in adj[P[k].v] <==> Edge(adj, P[k].v, w)
  {
  }

  lemma OneTurn(adj: Adjacency, P: seq<Place>, k: nat)
    requires Graph(adj) && Apart(adj, P) && k < |P| && BreadthFirst(adj, P, k) && Closed(adj, P, k)
    ensures 0 <= P[k].v < |adj| && InGraph(adj, adj[P[k].v])
    ensures var Q := MetAll(adj, P, adj[P[k].v], k); BreadthFirst(adj, Q, k + 1) && Closed(adj, Q, k + 1)
  {
    hide BreadthFirst, Closed, Apart, Placed, Edge, Graph;
    SuccessorsInGraph(adj, P, k);
    OneMore(adj, P, k);
    MetAllBreadthFirst(adj, P, adj[P[k].v], k);
    var Q := MetAll(adj, P, adj[P[k].v], k);
    assert Q[k] == Q[..|P|][k] == P[k];
    ClosedMore(adj, Q, k);
  }

  lemma OneMore(adj: Adjacency, P: seq<Place>, k: nat)
    requires k < |P| && BreadthFirst(adj, P, k)
    ensures BreadthFirst(adj, P, k + 1)
  {
  }

  lemma ClosedMore(adj: Adjacency, Q: seq<Place>, k: nat)
    requires k < |Q| && Closed(adj, Q, k) && forall w :: Edge(adj, Q[k].v, w) ==> Placed(Q, w)
    ensures Closed(adj, Q, k + 1)
  {
  }

  /** The order is that of a breadth-first search: it begins with r, lists no vertex
      twice, holds every successor of what it holds, and puts each vertex behind the
      first place that has an edge to it, those places in order. */
  lemma OrderIsBreadthFirst(adj: Adjacency, r: int)
    requires Graph(adj) && 0 <= r < |adj|
    ensures var Q := Order(adj, r); BreadthFirst(adj, Q, |Q|) && Closed(adj, Q, |Q|)
  {
    ContinuedBreadthFirst(adj, [Place(r, -1)], 0);
  }

  // ---------- the order of the successors of one place ----------

  /** Vertices behind the same place stand as that place lists them. */
  ghost predicate InTurn(adj: Adjacency, P: seq<Place>) {
    forall i, j :: 0 < i < j < |P| && P[i].parent == P[j].parent ==> Listed(adj, P, i, j)
  }

  ghost predicate Listed(adj: Adjacency, P: seq<Place>, i: int, j: int)
    requires 0 <= i < |P| && 0 <= j < |P|
  {
    var k := P[j].parent;
    0 <= k < |P| && 0 <= P[k].v < |adj| && Before(adj[P[k].v], P[i].v, P[j].v)
  }

  /** During the turn of place k: front is done, and what stands behind k is from it. */
  ghost predicate FrontDone(P: seq<Place>, k: nat, front: seq<int>) {
    && (forall x :: x in front ==> Placed(P, x))
    && (forall i :: 0 < i < |P| && P[i].parent == k ==> P[i].v in front)
  }

  lemma BeforeRest(front: seq<int>, rest: seq<int>, x: int, y: int)
    requires x in front && y !in front
    ensures Before(front + rest, x, y)
  {
    var a :| 0 <= a < |front| && front[a] == x;
    assert (front + rest)[..a + 1] == front[..a + 1];
  }

  lemma MetInTurn(adj: Adjacency, P: seq<Place>, k: nat, front: seq<int>, ws: seq<int>)
    requires Apart(adj, P) && k < |P| && InTurn(adj, P) && FrontDone(P, k, front) && ws != [] && adj[P[k].v] == front + ws
    ensures InTurn(adj, Met(P, ws[0], k)) && FrontDone(Met(P, ws[0], k), k, front + [ws[0]])
  {
    hide Before;
    var w, Q := ws[0], Met(P, ws[0], k);
    if !Placed(P, w) {
      PlacedMore(P, Place(w, k));
      forall i, j | 0 < i < j < |Q| && Q[i].parent == Q[j].parent
        ensures Listed(adj, Q, i, j)
      {
        if j < |P| {
          assert Listed(adj, P, i, j) && Q[P[j].parent] == P[P[j].parent];
        } else {
          assert Q[k] == P[k] && Q[i] == P[i];
          BeforeRest(front, ws, P[i].v, w);
        }
      }
    }
  }

  lemma {:induction false} MetAllInTurn(adj: Adjacency, P: seq<Place>, k: nat, front: seq<int>, ws: seq<int>)
    requires Apart(adj, P) && InGraph(adj, ws) && k < |P| && InTurn(adj, P) && FrontDone(P, k, front)
    requires adj[P[k].v] == front + ws
    ensures InTurn(adj, MetAll(adj, P, ws, k))
    decreases |ws|
  {
    hide InTurn, FrontDone, Apart, Placed;
    if ws != [] {
      InGraphTail(adj, ws);
      MetApart(adj, P, ws[0], k);
      PlaceIs(adj, P, k);
      MetInTurn(adj, P, k, front, ws);
      var Q := Met(P, ws[0], k);
      assert Q[k] == P[k];
      assert front + ws == front + [ws[0]] + ws[1..];
      MetAllInTurn(adj, Q, k, front + [ws[0]], ws[1..]);
    }
  }

  lemma PlaceIs(adj: Adjacency, P: seq<Place>, k: nat)
    requires Apart(adj, P) && k < |P|
    ensures 0 <= P[k].v < |adj|
  {
  }

  lemma NoneBehind(adj: Adjacency, P: seq<Place>, k: nat)
    requires BreadthFirst(adj, P, k)
    ensures FrontDone(P, k, [])
  {
  }

  lemma {:induction false} ContinuedInTurn(adj: Adjacency, P: seq<Place>, k: nat)
    requires Graph(adj) && Apart(adj, P) && k <= |P| && BreadthFirst(adj, P, k) && Closed(adj, P, k) && InTurn(adj, P)
    ensures InTurn(adj, Continued(adj, P, k))
    decreases |adj| - k
  {
    hide BreadthFirst, Closed, Apart, Placed, InTurn, FrontDone;
    PlacesFit(adj, P);
    if k < |P| {
      OneTurn(adj, P, k);
      NoneBehind(adj, P, k);
      MetAllInTurn(adj, P, k, [], adj[P[k].v]);
      ContinuedInTurn(adj, MetAll(adj, P, adj[P[k].v], k), k + 1);
    }
  }

  // ---------- there is one such order ----------

  /** P is a breadth-first order of what can be reached from r, successors as listed. */
  ghost predicate Proper(adj: Adjacency, r: int, P: seq<Place>) {
    && Apart(adj, P) && P != [] && P[0] == Place(r, -1)
    && BreadthFirst(adj, P, |P|) && Closed(adj, P, |P|) && InTurn(adj, P)
  }

  lemma OrderIsProper(adj: Adjacency, r: int)
    requires Graph(adj) && 0 <= r < |adj|
    ensures Proper(adj, r, Order(adj, r))
  {
    hide BreadthFirst, Closed, InTurn;
    var P := [Place(r, -1)];
    assert InTurn(adj, P) by { OneInTurn(adj, P); }
    assert BreadthFirst(adj, P, 0) && Closed(adj, P, 0) by { OneBreadthFirst(adj, P); }
    ContinuedInTurn(adj, P, 0);
    OrderIsBreadthFirst(adj, r);
  }

  lemma OneInTurn(adj: Adjacency, P: seq<Place>)
    requires |P| == 1
    ensures InTurn(adj, P)
  {
  }

  lemma OneBreadthFirst(adj: Adjacency, P: seq<Place>)
    requires |P| == 1
    ensures BreadthFirst(adj, P, 0) && Closed(adj, P, 0)
  {
  }

  lemma NotBoth(list: seq<int>, x: int, y: int)
    requires Before(list, x, y)
    ensures !Before(list, y, x)
  {
    var a :| 0 <= a < |list| && list[a] == x && y !in list[..a + 1];
    forall b | 0 <= b < |list| && list[b] == y
      ensures x in list[..b + 1]
    {
      var front := list[..a + 1];
      assert forall i :: 0 <= i < |front| ==> front[i] in front && front[i] == list[i];
      assert a < b && list[..b + 1][a] == x;
    }
  }

  lemma ParentIs(adj: Adjacency, r: int, P: seq<Place>, m: nat)
    requires Proper(adj, r, P) && 0 < m < |P|
    ensures 0 <= P[m].parent < m && Edge(adj, P[P[m].parent].v, P[m].v)
    ensures forall i :: 0 <= i < m ==> P[i].v != P[m].v
  {
    hide Closed, InTurn, ParentsInOrder, ParentsFirst, Edge;
  }

  lemma SuccessorStands(adj: Adjacency, r: int, Q: seq<Place>, k: nat, v: int) returns (j: nat)
    requires Proper(adj, r, Q) && k < |Q| && Edge(adj, Q[k].v, v)
    ensures j < |Q| && Q[j].v == v && (j > 0 ==> Q[j].parent <= k)
  {
    hide InTurn, ParentsInOrder, BehindParents, Apart, Edge;
    assert Placed(Q, v);
    j :| 0 <= j < |Q| && Q[j].v == v;
  }

  /** What stands at place m of one order stands at m or later in the other, behind
      the same place or an earlier one. */
  lemma StandsIn(adj: Adjacency, r: int, P: seq<Place>, Q: seq<Place>, m: nat) returns (j: nat)
    requires Proper(adj, r, P) && Proper(adj, r, Q) && 0 < m < |P| && m <= |Q| && P[..m] == Q[..m]
    ensures m <= j < |Q| && Q[j].v == P[m].v && Q[j].parent <= P[m].parent && 0 <= P[m].parent < m
  {
    hide Proper, Edge;
    ParentIs(adj, r, P, m);
    var k := P[m].parent;
    assert P[k] == P[..m][k] == Q[k];
    j := SuccessorStands(adj, r, Q, k, P[m].v);
    assert forall i :: 0 <= i < m ==> Q[i] == Q[..m][i] && P[i] == P[..m][i];
    assert j >= m;
  }

  lemma SamePlace(adj: Adjacency, r: int, P: seq<Place>, Q: seq<Place>, m: nat)
    requires Proper(adj, r, P) && Proper(adj, r, Q) && 0 < m < |P| && m <= |Q| && P[..m] == Q[..m]
    ensures m < |Q| && P[m] == Q[m]
  {
    hide Closed, BehindParents, ParentsFirst, Before;
    var j := StandsIn(adj, r, P, Q, m);
    var i := StandsIn(adj, r, Q, P, m);
    var k := P[m].parent;
    assert P[k] == P[..m][k] == Q[k];
    assert Q[m].parent <= Q[j].parent && P[m].parent <= P[i].parent;
    if j > m {
      assert Listed(adj, Q, m, j);
      assert i > m ==> Listed(adj, P, m, i);
      NotBoth(adj[Q[k].v], Q[m].v, P[m].v);
    }
  }

  lemma {:induction false} SamePrefix(adj: Adjacency, r: int, P: seq<Place>, Q: seq<Place>, m: nat)
    requires Proper(adj, r, P) && Proper(adj, r, Q) && 0 < m <= |P|
    ensures m <= |Q| && P[..m] == Q[..m]
  {
    hide Proper;
    if m == 1 {
      Begins(adj, r, P);
      Begins(adj, r, Q);
    } else {
      SamePrefix(adj, r, P, Q, m - 1);
      SamePlace(adj, r, P, Q, m - 1);
      assert P[..m] == P[..m - 1] + [P[m - 1]];
      assert Q[..m] == Q[..m - 1] + [Q[m - 1]];
    }
  }

  lemma Begins(adj: Adjacency, r: int, P: seq<Place>)
    requires Proper(adj, r, P)
    ensures |P| > 0 && P[0] == Place(r, -1)
  {
  }

  /** The graph and the start leave one breadth-first order. */
  lemma OneOrder(adj: Adjacency, r: int, P: seq<Place>)
    requires Graph(adj) && 0 <= r < |adj|
    ensures Proper(adj, r, P) <==> P == Order(adj, r)
  {
    hide Proper;
    OrderIsProper(adj, r);
    if Proper(adj, r, P) {
      var Q := Order(adj, r);
      Begins(adj, r, P);
      SamePrefix(adj, r, P, Q, |P|);
      SamePrefix(adj, r, Q, P, |Q|);
      assert P[..|P|] == P && Q[..|Q|] == Q;
    }
  }

  // ---------- few vertices ----------

  /** With at most len vertices none stands so far behind. */
  lemma FewAreNarrow(adj: Adjacency, r: int, len: nat)
    requires Graph(adj) && 0 <= r < |adj| && |adj| <= len
    ensures Narrow(adj, r, len)
  {
    PlacesFit(adj, Order(adj, r));
    OrderIsBreadthFirst(adj, r);
  }
}
