/** The order in which graph/adjacent_list.c takes vertices leaves one outcome of a
    depth-first search: every time and every parent is decided by the lists. */
module DepthFirstOrder {
  import opened Graphs
  import opened DepthFirst

  /** A finished search that took roots by number and children by list. */
  ghost predicate Ordered(s: State, adj: Adjacency) {
    Complete(s, adj) && ChildrenInOrder(s, adj) && RootsInOrder(s)
  }

  /** Both searches did the same up to time k. */
  ghost predicate AgreeAt(s: State, s2: State, k: int, v: int)
    requires Sized(s, |s.c|) && Sized(s2, |s.c|) && 0 <= v < |s.c|
  {
    && (s.d[v] <= k || s2.d[v] <= k ==> s.d[v] == s2.d[v] && s.p[v] == s2.p[v])
    && (s.f[v] <= k || s2.f[v] <= k ==> s.f[v] == s2.f[v])
  }

  ghost predicate Agree(s: State, s2: State, k: int) {
    && Sized(s, |s.c|) && Sized(s2, |s.c|)
    && forall v :: 0 <= v < |s.c| ==> AgreeAt(s, s2, k, v)
  }

  // ---------- what the search is in the middle of at a time ----------

  /** v is discovered by time k and finished later. */
  ghost predicate Open(s: State, k: int, v: int)
    requires Sized(s, |s.c|)
  {
    0 <= v < |s.c| && s.d[v] <= k < s.f[v]
  }

  lemma OpenAgrees(s: State, s2: State, k: int, v: int)
    requires Agree(s, s2, k) && Open(s, k, v)
    ensures Open(s2, k, v) && s2.d[v] == s.d[v]
  {
    assert AgreeAt(s, s2, k, v);
  }

  lemma Facts(s: State, adj: Adjacency, v: int)
    requires Complete(s, adj) && 0 <= v < |adj|
    ensures Sized(s, |adj|) && |s.c| == |adj| && 1 <= s.d[v] < s.f[v] <= s.t && -1 <= s.p[v] < |adj|
    ensures s.p[v] != -1 ==> Edge(adj, s.p[v], v) && s.d[s.p[v]] < s.d[v] && s.f[v] < s.f[s.p[v]]
  {
    assert Done(s, v);
  }

  /** Times are used once. */
  lemma Apart(s: State, adj: Adjacency, v: int, w: int)
    requires Complete(s, adj) && 0 <= v < |adj| && 0 <= w < |adj|
    ensures Sized(s, |adj|) && s.d[v] != s.f[w]
    ensures v != w ==> s.d[v] != s.d[w] && s.f[v] != s.f[w]
  {
    assert Done(s, v) && Done(s, w);
  }

  /** Of two open vertices the later one is finished first. */
  lemma OpenNest(s: State, adj: Adjacency, k: int, x: int, y: int)
    requires Complete(s, adj) && Sized(s, |s.c|) && Open(s, k, x) && Open(s, k, y) && s.d[x] < s.d[y]
    ensures s.f[y] < s.f[x]
  {
    assert Done(s, x) && Done(s, y);
    assert Within(s, x, y) || Precedes(s, x, y);
  }

  /** The parent of a vertex discovered next is the innermost open vertex. */
  lemma ParentInnermost(s: State, adj: Adjacency, k: int, x: int, v: int)
    requires Complete(s, adj) && Sized(s, |s.c|) && Open(s, k, x) && 0 <= v < |adj| && s.d[v] == k + 1
    ensures s.p[v] != -1 && Open(s, k, s.p[v]) && s.d[x] <= s.d[s.p[v]]
  {
    hide Clock, Explored;
    Facts(s, adj, v);
    Apart(s, adj, v, x);
    assert Done(s, x) && Done(s, v);
    assert Within(s, x, v) || Precedes(s, x, v);
    assert Within(s, x, v);
  }

  lemma ExploredBefore(s: State, adj: Adjacency, u: int, v: int)
    requires Complete(s, adj) && 0 <= u < |adj| && Edge(adj, u, v)
    ensures 0 <= v < |adj| && Sized(s, |adj|) && s.d[v] < s.f[u]
  {
    assert Done(s, u);
    assert Seen(s, v);
  }

  /** Of two members of a list one comes first. */
  lemma {:induction false} OneFirst(list: seq<int>, v: int, x: int)
    requires v in list && x in list && v != x
    ensures Before(list, x, v) || Before(list, v, x)
    decreases |list|
  {
    assert list[..1] == [list[0]];
    if list[0] != v && list[0] != x {
      OneFirst(list[1..], v, x);
      if Before(list[1..], x, v) {
        BeforeTail(list, x, v);
      } else {
        BeforeTail(list, v, x);
      }
    } else if list[0] == v {
      assert x !in list[..0 + 1];
    } else {
      assert v !in list[..0 + 1];
    }
  }

  lemma BeforeTail(list: seq<int>, x: int, y: int)
    requires list != [] && list[0] != y && Before(list[1..], x, y)
    ensures Before(list, x, y)
  {
    var a :| 0 <= a < |list[1..]| && list[1..][a] == x && y !in list[1..][..a + 1];
    assert list[..a + 2] == [list[0]] + list[1..][..a + 1];
    assert list[a + 1] == x && y !in list[..(a + 1) + 1];
  }

  // ---------- the next event is the same ----------

  lemma AgreeBack(s: State, s2: State, k: int)
    requires Agree(s, s2, k) && |s.c| == |s2.c|
    ensures Agree(s2, s, k)
  {
    forall v | 0 <= v < |s2.c|
      ensures AgreeAt(s2, s, k, v)
    {
      assert AgreeAt(s, s2, k, v);
    }
  }

  lemma Shapes(s: State, s2: State, adj: Adjacency, k: int)
    requires Ordered(s, adj) && Ordered(s2, adj) && Agree(s, s2, k)
    ensures Complete(s, adj) && Complete(s2, adj) && Agree(s2, s, k)
    ensures Sized(s, |adj|) && Sized(s2, |adj|) && |s.c| == |s2.c| == |adj|
  {
    hide Inv, ChildrenInOrder, RootsInOrder;
    AgreeBack(s, s2, k);
  }

  lemma NotFinishedYet(s: State, s2: State, adj: Adjacency, k: int, v: int, x: int)
    requires Ordered(s, adj) && Ordered(s2, adj) && Agree(s, s2, k)
    requires 0 <= v < |adj| && 0 <= x < |adj| && Sized(s, |adj|) && Sized(s2, |adj|) && s.d[v] == k + 1
    ensures s2.f[x] != k + 1
  {
    hide Ordered, Complete, Agree, AgreeAt;
    Shapes(s, s2, adj, k);
    if s2.f[x] == k + 1 {
      Facts(s2, adj, x);
      OpenAgrees(s2, s, k, x);
      ParentInnermost(s, adj, k, x, v);
      var u := s.p[v];
      Facts(s, adj, v);
      OpenAgrees(s, s2, k, u);
      if u != x {
        Apart(s2, adj, u, x);
        OpenNest(s2, adj, k, x, u);
      } else {
        ExploredBefore(s2, adj, u, v);
        DiscoveredSame(s2, s, k, v);
      }
    }
  }

  lemma DiscoveredSame(s: State, s2: State, k: int, v: int)
    requires Agree(s, s2, k) && 0 <= v < |s.c| && |s2.c| == |s.c|
    ensures s.d[v] <= k ==> s2.d[v] == s.d[v]
  {
    assert AgreeAt(s, s2, k, v);
  }

  lemma SameParent(s: State, s2: State, adj: Adjacency, k: int, v: int, x: int)
    requires Ordered(s, adj) && Ordered(s2, adj) && Agree(s, s2, k)
    requires 0 <= v < |adj| && 0 <= x < |adj| && Sized(s, |adj|) && Sized(s2, |adj|) && s.d[v] == k + 1 && s2.d[x] == k + 1
    ensures s.p[v] == s2.p[x]
  {
    hide Ordered, Complete, Agree, AgreeAt;
    Shapes(s, s2, adj, k);
    ParentsNest(s, s2, adj, k, v, x);
    ParentsNest(s2, s, adj, k, x, v);
    if s.p[v] != -1 {
      Apart(s, adj, s.p[v], s2.p[x]);
    }
  }

  lemma ParentsNest(s: State, s2: State, adj: Adjacency, k: int, v: int, x: int)
    requires Ordered(s, adj) && Ordered(s2, adj) && Agree(s, s2, k)
    requires 0 <= v < |adj| && 0 <= x < |adj| && Sized(s, |adj|) && Sized(s2, |adj|) && s.d[v] == k + 1 && s2.d[x] == k + 1
    ensures s.p[v] != -1 ==>
      && 0 <= s.p[v] < |adj| && 0 <= s2.p[x] < |adj|
      && s.d[s.p[v]] == s2.d[s.p[v]] <= s2.d[s2.p[x]] == s.d[s2.p[x]]
  {
    hide Ordered, Complete, Agree, AgreeAt;
    Shapes(s, s2, adj, k);
    var u := s.p[v];
    Facts(s, adj, v);
    if u != -1 {
      OpenAgrees(s, s2, k, u);
      ParentInnermost(s2, adj, k, u, x);
      Facts(s2, adj, x);
      OpenAgrees(s2, s, k, s2.p[x]);
    }
  }

  /** With the same parent, the vertex discovered next is the same. */
  lemma SameChild(s: State, s2: State, adj: Adjacency, k: int, v: int, x: int)
    requires Ordered(s, adj) && Ordered(s2, adj) && Agree(s, s2, k)
    requires 0 <= v < |adj| && 0 <= x < |adj| && Sized(s, |adj|) && Sized(s2, |adj|)
    requires s.d[v] == k + 1 == s2.d[x] && s.p[v] == s2.p[x]
    ensures v == x
  {
    hide Complete, Agree, AgreeAt, Before, ChildrenInOrder;
    Shapes(s, s2, adj, k);
    DiscoveredSame(s, s2, k, x);
    DiscoveredSame(s2, s, k, v);
    Facts(s, adj, v);
    Facts(s2, adj, x);
    AllSeen(s, adj);
    AllSeen(s2, adj);
    if v != x && s.p[v] != -1 {
      OneFirst(adj[s.p[v]], v, x);
      if Before(adj[s.p[v]], x, v) {
        TurnOf(s, adj, v, x);
      } else {
        TurnOf(s2, adj, x, v);
      }
    }
  }

  lemma AllSeen(s: State, adj: Adjacency)
    requires Complete(s, adj)
    ensures forall v :: 0 <= v < |adj| ==> Seen(s, v)
  {
    hide Inv;
    forall v | 0 <= v < |adj|
      ensures Seen(s, v)
    {
      assert Done(s, v);
    }
  }

  lemma TurnOf(s: State, adj: Adjacency, v: int, x: int)
    requires ChildrenInOrder(s, adj) && Seen(s, v) && 0 <= s.p[v] < |adj| && Before(adj[s.p[v]], x, v)
    ensures Seen(s, x) && s.d[x] < s.d[v]
  {
    hide Before;
    assert InTurn(s, adj, v);
  }

  lemma NextDiscovery(s: State, s2: State, adj: Adjacency, k: nat, v: int)
    requires Ordered(s, adj) && Ordered(s2, adj) && Agree(s, s2, k)
    requires 0 <= v < |adj| && Sized(s, |adj|) && Sized(s2, |adj|) && s.d[v] == k + 1
    ensures s2.d[v] == k + 1 && s2.p[v] == s.p[v]
  {
    hide Ordered, Complete, Agree, AgreeAt;
    Shapes(s, s2, adj, k);
    Facts(s, adj, v);
    EveryTimeOnce(s, adj);
    EveryTimeOnce(s2, adj);
    assert Used(s2, k + 1);
    var x :| (Seen(s2, x) && s2.d[x] == k + 1) || (Done(s2, x) && s2.f[x] == k + 1);
    NotFinishedYet(s, s2, adj, k, v, x);
    SameParent(s, s2, adj, k, v, x);
    SameChild(s, s2, adj, k, v, x);
  }

  lemma NextFinish(s: State, s2: State, adj: Adjacency, k: nat, v: int)
    requires Ordered(s, adj) && Ordered(s2, adj) && Agree(s, s2, k)
    requires 0 <= v < |adj| && Sized(s, |adj|) && Sized(s2, |adj|) && s.f[v] == k + 1
    ensures s2.f[v] == k + 1
  {
    hide Ordered, Complete, Agree, AgreeAt;
    Shapes(s, s2, adj, k);
    Facts(s, adj, v);
    EveryTimeOnce(s, adj);
    EveryTimeOnce(s2, adj);
    assert Used(s2, k + 1);
    var x :| (Seen(s2, x) && s2.d[x] == k + 1) || (Done(s2, x) && s2.f[x] == k + 1);
    if s2.d[x] == k + 1 {
      NotFinishedYet(s2, s, adj, k, x, v);
    } else if x != v {
      Facts(s2, adj, x);
      OpenAgrees(s, s2, k, v);
      OpenAgrees(s2, s, k, x);
      Apart(s, adj, v, x);
      if s.d[v] < s.d[x] {
        OpenNest(s, adj, k, v, x);
      } else {
        OpenNest(s2, adj, k, x, v);
      }
    }
  }

  // ---------- the whole search is the same ----------

  lemma {:induction false} AgreeUpTo(s: State, s2: State, adj: Adjacency, k: nat)
    requires Ordered(s, adj) && Ordered(s2, adj)
    ensures Agree(s, s2, k)
  {
    hide Ordered, Complete;
    SizedOrdered(s, adj);
    SizedOrdered(s2, adj);
    if k > 0 {
      AgreeUpTo(s, s2, adj, k - 1);
      Shapes(s, s2, adj, k - 1);
    }
    forall v | 0 <= v < |s.c|
      ensures AgreeAt(s, s2, k, v)
    {
      Facts(s, adj, v);
      Facts(s2, adj, v);
      if k > 0 {
        AgreeNext(s, s2, adj, k - 1, v);
      }
    }
  }

  lemma SizedOrdered(s: State, adj: Adjacency)
    requires Ordered(s, adj)
    ensures Complete(s, adj) && Sized(s, |adj|) && |s.c| == |adj|
  {
    hide Inv;
  }

  lemma AgreeNext(s: State, s2: State, adj: Adjacency, k: nat, v: int)
    requires Ordered(s, adj) && Ordered(s2, adj) && Agree(s, s2, k) && 0 <= v < |adj|
    ensures Sized(s, |s.c|) && Sized(s2, |s.c|) && v < |s.c| && AgreeAt(s, s2, k + 1, v)
  {
    hide Ordered, Complete;
    Shapes(s, s2, adj, k);
    assert AgreeAt(s, s2, k, v);
    if s.d[v] == k + 1 {
      NextDiscovery(s, s2, adj, k, v);
    } else if s2.d[v] == k + 1 {
      NextDiscovery(s2, s, adj, k, v);
    }
    if s.f[v] == k + 1 {
      NextFinish(s, s2, adj, k, v);
    } else if s2.f[v] == k + 1 {
      NextFinish(s2, s, adj, k, v);
    }
  }

  /** There is one outcome of a search that takes its roots by number and the children
      of each vertex by its list: the times and the parents are decided. */
  lemma OneOutcome(s: State, s2: State, adj: Adjacency)
    requires Ordered(s, adj) && Ordered(s2, adj)
    ensures s == s2
  {
    hide Inv;
    AgreeUpTo(s, s2, adj, 2 * |adj|);
    EveryTimeOnce(s, adj);
    EveryTimeOnce(s2, adj);
    forall v | 0 <= v < |adj|
      ensures s.c[v] == s2.c[v] && s.d[v] == s2.d[v] && s.f[v] == s2.f[v] && s.p[v] == s2.p[v]
    {
      Facts(s, adj, v);
      assert AgreeAt(s, s2, 2 * |adj|, v) && Done(s, v) && Done(s2, v);
    }
  }
}
