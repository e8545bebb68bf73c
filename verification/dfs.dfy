/** Depth-first search as graph/adjacent_list.c runs it: colors, discovery and
    finishing times and the parent of each vertex. */
module DepthFirst {
  import opened Graphs
  import opened FiniteSets

  /** What the search has written so far; t is the clock. */
  datatype State = State(c: seq<Color>, d: seq<int>, f: seq<int>, p: seq<int>, t: int)

  ghost predicate Sized(s: State, n: int) {
    |s.c| == |s.d| == |s.f| == |s.p| == n
  }

  ghost predicate Seen(s: State, v: int) {
    0 <= v < |s.c| && s.c[v] != White
  }

  ghost predicate Done(s: State, v: int) {
    0 <= v < |s.c| && s.c[v] == Black
  }

  /** v has been discovered before w and is not finished before w is: w's time
      lies within v's. */
  ghost predicate Within(s: State, v: int, w: int)
    requires Sized(s, |s.c|)
  {
    Seen(s, v) && Seen(s, w) && s.d[v] < s.d[w] && (Done(s, v) ==> Done(s, w) && s.f[w] < s.f[v])
  }

  /** v is finished before w is discovered. */
  ghost predicate Precedes(s: State, v: int, w: int)
    requires Sized(s, |s.c|)
  {
    Done(s, v) && Seen(s, w) && s.f[v] < s.d[w]
  }

  ghost predicate Times(s: State) {
    && Sized(s, |s.c|) && s.t >= 0
    && (forall v :: Seen(s, v) ==> 1 <= s.d[v] <= s.t)
    && (forall v :: Done(s, v) ==> s.d[v] < s.f[v] <= s.t)
  }

  /** No clock value is used twice, and every value up to now is used. */
  ghost predicate Clock(s: State)
    requires Sized(s, |s.c|)
  {
    && Distinct(s)
    && (forall k :: 1 <= k <= s.t ==> Used(s, k))
    && s.t == |SeenSet(s)| + |DoneSet(s)|
  }

  ghost predicate Distinct(s: State)
    requires Sized(s, |s.c|)
  {
    && (forall v, w :: Seen(s, v) && Seen(s, w) && v != w ==> s.d[v] != s.d[w])
    && (forall v, w :: Done(s, v) && Done(s, w) && v != w ==> s.f[v] != s.f[w])
    && (forall v, w :: Seen(s, v) && Done(s, w) ==> s.d[v] != s.f[w])
  }

  ghost predicate Used(s: State, k: int)
    requires Sized(s, |s.c|)
  {
    exists v :: (Seen(s, v) && s.d[v] == k) || (Done(s, v) && s.f[v] == k)
  }

  ghost function SeenSet(s: State): set<int> {
    set v | 0 <= v < |s.c| && Seen(s, v)
  }

  ghost function DoneSet(s: State): set<int> {
    set v | 0 <= v < |s.c| && Done(s, v)
  }

  /** Of two vertices, one lies within the other or one precedes the other. */
  ghost predicate Laminar(s: State)
    requires Sized(s, |s.c|)
  {
    forall v, w :: Seen(s, v) && Seen(s, w) && s.d[v] < s.d[w] ==> Within(s, v, w) || Precedes(s, v, w)
  }

  /** A parent has an edge to its child, which lies within it; whatever lies
      within v has its parent at v or within v. */
  ghost predicate Parents(s: State, adj: Adjacency)
    requires Sized(s, |s.c|)
  {
    && (forall w :: Seen(s, w) && s.p[w] != -1 ==> Seen(s, s.p[w]) && Edge(adj, s.p[w], w) && Within(s, s.p[w], w))
    && (forall v, w :: Within(s, v, w) ==> s.p[w] != -1 && Seen(s, s.p[w]) && s.d[v] <= s.d[s.p[w]])
  }

  /** Every successor of a finished vertex was discovered before it finished. */
  ghost predicate Explored(s: State, adj: Adjacency)
    requires Sized(s, |s.c|)
  {
    forall x, y :: Done(s, x) && Edge(adj, x, y) ==> Seen(s, y) && s.d[y] < s.f[x]
  }

  ghost predicate Inv(s: State, adj: Adjacency) {
    && Graph(adj) && |s.c| == |adj|
    && Times(s) && Clock(s) && Laminar(s) && Parents(s, adj) && Explored(s, adj)
  }

  /** u is the innermost vertex still being searched; -1 stands for none. */
  ghost predicate Innermost(s: State, u: int)
    requires Sized(s, |s.c|)
  {
    if u == -1 then forall v :: Seen(s, v) ==> Done(s, v)
    else Seen(s, u) && !Done(s, u) && forall v :: Seen(s, v) && !Done(s, v) ==> s.d[v] <= s.d[u]
  }

  function Discovered(s: State, u: int): State
    requires 0 <= u < |s.c| && Sized(s, |s.c|)
  {
    State(s.c[u := Grey], s.d[u := s.t + 1], s.f, s.p, s.t + 1)
  }

  function Finished(s: State, u: int): State
    requires 0 <= u < |s.c| && Sized(s, |s.c|)
  {
    State(s.c[u := Black], s.d, s.f[u := s.t + 1], s.p, s.t + 1)
  }

  // ---------- discovering a vertex ----------

  ghost predicate MayDiscover(s: State, adj: Adjacency, u: int) {
    && Graph(adj) && |s.c| == |adj| && Times(s) && 0 <= u < |adj| && !Seen(s, u)
    && Innermost(s, s.p[u]) && (s.p[u] != -1 ==> Edge(adj, s.p[u], u))
  }

  lemma DiscoverFacts(s: State, adj: Adjacency, u: int)
    requires MayDiscover(s, adj, u)
    ensures Graph(adj) && Sized(s, |adj|) && !Seen(s, u)
  {
  }

  lemma DiscoverTimes(s: State, adj: Adjacency, u: int)
    requires MayDiscover(s, adj, u)
    ensures Times(Discovered(s, u)) && Innermost(Discovered(s, u), u)
    ensures forall v :: Seen(Discovered(s, u), v) <==> Seen(s, v) || v == u
    ensures forall v :: Done(Discovered(s, u), v) <==> Done(s, v)
  {
  }

  lemma DiscoverDistinct(s: State, adj: Adjacency, u: int)
    requires MayDiscover(s, adj, u) && Distinct(s)
    ensures Distinct(Discovered(s, u))
  {
    DiscoverTimes(s, adj, u);
  }

  lemma DiscoverClock(s: State, adj: Adjacency, u: int)
    requires MayDiscover(s, adj, u) && Clock(s)
    ensures Clock(Discovered(s, u))
  {
    hide Distinct, Used, Innermost;
    DiscoverTimes(s, adj, u);
    DiscoverDistinct(s, adj, u);
    DiscoverUsed(s, adj, u);
    var s' := Discovered(s, u);
    assert SeenSet(s') == SeenSet(s) + {u} && DoneSet(s') == DoneSet(s);
    assert u !in SeenSet(s);
  }

  lemma DiscoverUsed(s: State, adj: Adjacency, u: int)
    requires MayDiscover(s, adj, u) && Clock(s)
    ensures forall k :: 1 <= k <= Discovered(s, u).t ==> Used(Discovered(s, u), k)
  {
    hide Distinct, Innermost, SeenSet, DoneSet;
    DiscoverTimes(s, adj, u);
    var s' := Discovered(s, u);
    forall k | 1 <= k <= s'.t
      ensures Used(s', k)
    {
      if k == s'.t {
        assert Seen(s', u) && s'.d[u] == k;
      } else {
        assert Used(s, k);
      }
    }
  }

  lemma DiscoverLaminar(s: State, adj: Adjacency, u: int)
    requires MayDiscover(s, adj, u) && Laminar(s)
    ensures Laminar(Discovered(s, u))
  {
    DiscoverTimes(s, adj, u);
    var s' := Discovered(s, u);
    forall v, w | Seen(s', v) && Seen(s', w) && s'.d[v] < s'.d[w]
      ensures Within(s', v, w) || Precedes(s', v, w)
    {
      if v != u && w != u {
        assert Within(s, v, w) || Precedes(s, v, w);
      }
    }
  }

  lemma DiscoverParents(s: State, adj: Adjacency, u: int)
    requires MayDiscover(s, adj, u) && Parents(s, adj)
    ensures Parents(Discovered(s, u), adj)
  {
    DiscoverTimes(s, adj, u);
    var s' := Discovered(s, u);
    forall v, w | Within(s', v, w)
      ensures s'.p[w] != -1 && Seen(s', s'.p[w]) && s'.d[v] <= s'.d[s'.p[w]]
    {
      if w != u && v != u {
        assert Within(s, v, w);
      }
    }
    forall w | Seen(s', w) && s'.p[w] != -1
      ensures Seen(s', s'.p[w]) && Edge(adj, s'.p[w], w) && Within(s', s'.p[w], w)
    {
      if w != u {
        assert Within(s, s.p[w], w);
      }
    }
  }

  lemma DiscoverExplored(s: State, adj: Adjacency, u: int)
    requires MayDiscover(s, adj, u) && Explored(s, adj)
    ensures Explored(Discovered(s, u), adj)
  {
    DiscoverTimes(s, adj, u);
  }

  lemma DiscoverKeeps(s: State, adj: Adjacency, u: int)
    requires Inv(s, adj) && MayDiscover(s, adj, u)
    ensures Inv(Discovered(s, u), adj) && Innermost(Discovered(s, u), u)
  {
    hide Times, Clock, Laminar, Parents, Explored;
    DiscoverTimes(s, adj, u);
    DiscoverClock(s, adj, u);
    DiscoverLaminar(s, adj, u);
    DiscoverParents(s, adj, u);
    DiscoverExplored(s, adj, u);
  }

  // ---------- finishing a vertex ----------

  ghost predicate MayFinish(s: State, adj: Adjacency, u: int) {
    && Graph(adj) && |s.c| == |adj| && Times(s) && Seen(s, u) && Innermost(s, u)
    && forall y :: Edge(adj, u, y) ==> Seen(s, y)
  }

  lemma FinishTimes(s: State, adj: Adjacency, u: int)
    requires MayFinish(s, adj, u)
    ensures Times(Finished(s, u)) && !Done(s, u)
    ensures forall v :: Seen(Finished(s, u), v) <==> Seen(s, v)
    ensures forall v :: Done(Finished(s, u), v) <==> Done(s, v) || v == u
  {
  }

  lemma FinishDistinct(s: State, adj: Adjacency, u: int)
    requires MayFinish(s, adj, u) && Distinct(s)
    ensures Distinct(Finished(s, u))
  {
    FinishTimes(s, adj, u);
  }

  lemma FinishClock(s: State, adj: Adjacency, u: int)
    requires MayFinish(s, adj, u) && Clock(s)
    ensures Clock(Finished(s, u))
  {
    hide Distinct, Used, Innermost;
    FinishTimes(s, adj, u);
    FinishDistinct(s, adj, u);
    FinishUsed(s, adj, u);
    var s' := Finished(s, u);
    assert SeenSet(s') == SeenSet(s) && DoneSet(s') == DoneSet(s) + {u};
    assert u !in DoneSet(s);
  }

  lemma FinishUsed(s: State, adj: Adjacency, u: int)
    requires MayFinish(s, adj, u) && Clock(s)
    ensures forall k :: 1 <= k <= Finished(s, u).t ==> Used(Finished(s, u), k)
  {
    hide Distinct, Innermost, SeenSet, DoneSet;
    FinishTimes(s, adj, u);
    var s' := Finished(s, u);
    forall k | 1 <= k <= s'.t
      ensures Used(s', k)
    {
      if k == s'.t {
        assert Done(s', u) && s'.f[u] == k;
      } else {
        assert Used(s, k);
      }
    }
  }

  lemma FinishLaminar(s: State, adj: Adjacency, u: int)
    requires MayFinish(s, adj, u) && Laminar(s)
    ensures Laminar(Finished(s, u))
  {
    FinishTimes(s, adj, u);
    var s' := Finished(s, u);
    forall v, w | Seen(s', v) && Seen(s', w) && s'.d[v] < s'.d[w]
      ensures Within(s', v, w) || Precedes(s', v, w)
    {
      assert Within(s, v, w) || Precedes(s, v, w);
    }
  }

  lemma FinishParents(s: State, adj: Adjacency, u: int)
    requires MayFinish(s, adj, u) && Parents(s, adj) && Laminar(s)
    ensures Parents(Finished(s, u), adj)
  {
    FinishTimes(s, adj, u);
    var s' := Finished(s, u);
    forall v, w | Within(s', v, w)
      ensures s'.p[w] != -1 && Seen(s', s'.p[w]) && s'.d[v] <= s'.d[s'.p[w]]
    {
      assert Within(s, v, w);
    }
    forall w | Seen(s', w) && s'.p[w] != -1
      ensures Seen(s', s'.p[w]) && Edge(adj, s'.p[w], w) && Within(s', s'.p[w], w)
    {
      assert Within(s, s.p[w], w);
    }
  }

  lemma FinishExplored(s: State, adj: Adjacency, u: int)
    requires MayFinish(s, adj, u) && Explored(s, adj)
    ensures Explored(Finished(s, u), adj)
  {
    FinishTimes(s, adj, u);
  }

  lemma FinishKeeps(s: State, adj: Adjacency, u: int)
    requires Inv(s, adj) && MayFinish(s, adj, u)
    ensures Inv(Finished(s, u), adj)
  {
    hide Times, Clock, Laminar, Parents, Explored;
    FinishTimes(s, adj, u);
    FinishClock(s, adj, u);
    FinishLaminar(s, adj, u);
    FinishParents(s, adj, u);
    FinishExplored(s, adj, u);
  }

  // ---------- what a whole search means ----------

  /** A finished search: every vertex discovered and finished. */
  ghost predicate Complete(s: State, adj: Adjacency) {
    Sized(s, |adj|) && Inv(s, adj) && forall v :: 0 <= v < |adj| ==> Done(s, v)
  }

  /** k steps up the parent links from v; -1 beyond a root. */
  ghost function Up(s: State, v: int, k: nat): int
    requires Sized(s, |s.c|)
  {
    if k == 0 then v else
      var w := Up(s, v, k - 1);
      if 0 <= w < |s.p| then s.p[w] else -1
  }

  ghost predicate Descendant(s: State, u: int, v: int)
    requires Sized(s, |s.c|)
  {
    exists k: nat :: Up(s, v, k) == u
  }

  /** The times 1 to 2n are used once each. */
  lemma EveryTimeOnce(s: State, adj: Adjacency)
    requires Complete(s, adj)
    ensures s.t == 2 * |adj|
    ensures forall k :: 1 <= k <= s.t ==> Used(s, k)
    ensures Distinct(s)
  {
    BelowSize(|adj|);
    hide Laminar, Parents, Explored, Distinct, Graph, Used;
    forall v: int
      ensures v in SeenSet(s) <==> v in Below(|adj|)
      ensures v in DoneSet(s) <==> v in Below(|adj|)
    {
      assert 0 <= v < |adj| ==> Done(s, v);
    }
    assert SeenSet(s) == Below(|adj|) && DoneSet(s) == Below(|adj|);
  }

  /** Any two intervals from discovery to finish are nested or disjoint. */
  lemma NestedOrDisjoint(s: State, adj: Adjacency, v: int, w: int)
    requires Complete(s, adj) && 0 <= v < |adj| && 0 <= w < |adj| && v != w
    ensures || s.d[v] < s.d[w] < s.f[w] < s.f[v] || s.d[w] < s.d[v] < s.f[v] < s.f[w]
            || s.d[v] < s.f[v] < s.d[w] < s.f[w] || s.d[w] < s.f[w] < s.d[v] < s.f[v]
  {
    assert Done(s, v) && Done(s, w);
    assert s.d[v] < s.d[w] ==> Within(s, v, w) || Precedes(s, v, w);
    assert s.d[w] < s.d[v] ==> Within(s, w, v) || Precedes(s, w, v);
  }

  lemma {:induction false} UpIsWithin(s: State, adj: Adjacency, v: int, k: nat)
    requires Complete(s, adj) && 0 <= v < |adj|
    ensures var u := Up(s, v, k); u == -1 || (0 <= u < |adj| && (u == v || Within(s, u, v)))
  {
    if k > 0 {
      UpIsWithin(s, adj, v, k - 1);
      var w := Up(s, v, k - 1);
      if w != -1 && s.p[w] != -1 {
        assert Done(s, w);
        assert Within(s, s.p[w], w);
      }
    }
  }

  lemma {:induction false} WithinIsUp(s: State, adj: Adjacency, u: int, v: int) returns (k: nat)
    requires Complete(s, adj) && 0 <= u < |adj| && 0 <= v < |adj| && Within(s, u, v)
    ensures Up(s, v, k) == u
    decreases s.d[v]
  {
    assert Done(s, u) && Done(s, v);
    var w := s.p[v];
    assert w != -1 && Done(s, w) && s.d[u] <= s.d[w] && Within(s, w, v);
    if w == u {
      k := 1;
      assert Up(s, v, 0) == v;
    } else {
      assert Within(s, u, w) || Precedes(s, u, w);
      var j := WithinIsUp(s, adj, u, w);
      UpShift(s, v, j);
      k := j + 1;
    }
  }

  lemma {:induction false} UpShift(s: State, v: int, j: nat)
    requires Sized(s, |s.c|) && 0 <= v < |s.c|
    ensures Up(s, v, j + 1) == Up(s, s.p[v], j)
  {
    if j == 0 {
      assert Up(s, v, 0) == v;
    } else {
      UpShift(s, v, j - 1);
    }
  }

  /** Intervals nest exactly for ancestors and descendants in the parent forest. */
  lemma NestedIffDescendant(s: State, adj: Adjacency, u: int, v: int)
    requires Complete(s, adj) && 0 <= u < |adj| && 0 <= v < |adj|
    ensures Descendant(s, u, v) <==> u == v || s.d[u] < s.d[v] < s.f[v] < s.f[u]
  {
    assert Done(s, u) && Done(s, v);
    if Descendant(s, u, v) {
      var k: nat :| Up(s, v, k) == u;
      UpIsWithin(s, adj, v, k);
    }
    if u == v {
      assert Up(s, v, 0) == u;
    } else if Within(s, u, v) {
      var k := WithinIsUp(s, adj, u, v);
    }
  }

  /** path leads from u to v along edges through vertices that were all still
      white when u was discovered: none of them was discovered before u. */
  ghost predicate WhitePath(s: State, adj: Adjacency, u: int, v: int, path: seq<int>)
    requires Sized(s, |adj|)
  {
    && 0 <= u < |adj| && Walk(adj, path) && path[0] == u && path[|path| - 1] == v
    && forall i :: 0 <= i < |path| ==> 0 <= path[i] < |adj| && s.d[path[i]] >= s.d[u]
  }

  lemma {:induction false} WhitePathStaysWithin(s: State, adj: Adjacency, u: int, v: int, path: seq<int>)
    requires Complete(s, adj) && 0 <= u < |adj| && WhitePath(s, adj, u, v, path)
    ensures 0 <= v < |adj| && (v == u || Within(s, u, v))
    decreases |path|
  {
    if |path| > 1 {
      var rest := path[..|path| - 1];
      var x := path[|path| - 2];
      assert Walk(adj, rest) by {
        assert forall i :: 0 <= i < |rest| - 1 ==> Edge(adj, path[i], path[i + 1]);
      }
      WhitePathStaysWithin(s, adj, u, x, rest);
      assert Edge(adj, path[|path| - 2], path[|path| - 2 + 1]);
      assert Done(s, x) && Done(s, u) && Done(s, v) && s.d[v] < s.f[x];
      if v != u {
        assert s.d[u] < s.d[v];
        assert Within(s, u, v) || Precedes(s, u, v);
      }
    }
  }

  lemma WalkExtends(adj: Adjacency, front: seq<int>, v: int)
    requires Walk(adj, front) && Edge(adj, front[|front| - 1], v)
    ensures Walk(adj, front + [v])
  {
    var path := front + [v];
    forall i | 0 <= i < |path| - 1
      ensures Edge(adj, path[i], path[i + 1])
    {
      assert i < |front| - 1 ==> Edge(adj, front[i], front[i + 1]);
    }
  }

  lemma {:induction false} DescentIsWhite(s: State, adj: Adjacency, u: int, v: int, k: nat) returns (path: seq<int>)
    requires Complete(s, adj) && 0 <= u < |adj| && 0 <= v < |adj| && Up(s, v, k) == u
    ensures WhitePath(s, adj, u, v, path)
    decreases k
  {
    hide Inv;
    if k == 0 {
      path := [v];
    } else {
      UpShift(s, v, k - 1);
      var w := s.p[v];
      ParentOf(s, adj, u, v, k);
      var front := DescentIsWhite(s, adj, u, w, k - 1);
      path := front + [v];
      WalkExtends(adj, front, v);
    }
  }

  lemma ParentOf(s: State, adj: Adjacency, u: int, v: int, k: nat)
    requires Complete(s, adj) && 0 <= u < |adj| && 0 <= v < |adj| && Up(s, v, k) == u && k > 0
    ensures Sized(s, |adj|) && 0 <= s.p[v] < |adj| && Edge(adj, s.p[v], v) && s.d[v] >= s.d[u]
  {
    UpShift(s, v, k - 1);
    UpNowhere(s, k - 1);
    UpIsWithin(s, adj, v, k);
    assert Done(s, v);
  }

  lemma {:induction false} UpNowhere(s: State, k: nat)
    requires Sized(s, |s.c|)
    ensures Up(s, -1, k) == -1
  {
    if k > 0 {
      UpNowhere(s, k - 1);
    }
  }

  /** v became a descendant of u exactly if a path of white vertices led from u
      to v at the moment u was discovered. */
  lemma WhitePathTheorem(s: State, adj: Adjacency, u: int, v: int)
    requires Complete(s, adj) && 0 <= u < |adj| && 0 <= v < |adj|
    ensures Descendant(s, u, v) <==> exists path :: WhitePath(s, adj, u, v, path)
  {
    NestedIffDescendant(s, adj, u, v);
    if Descendant(s, u, v) {
      var k: nat :| Up(s, v, k) == u;
      var path := DescentIsWhite(s, adj, u, v, k);
    }
    if path :| WhitePath(s, adj, u, v, path) {
      WhitePathStaysWithin(s, adj, u, v, path);
      assert Done(s, u) && Done(s, v);
    }
  }

  // ---------- the search itself ----------

  /** From s to s2 nothing already discovered changed, and whatever was newly
      discovered was also finished, at later times. */
  ghost predicate Extends(s: State, s2: State) {
    && Sized(s, |s.c|) && Sized(s2, |s.c|) && s.t <= s2.t
    && (forall v :: Seen(s, v) ==> Seen(s2, v) && s2.c[v] == s.c[v] && s2.d[v] == s.d[v] && s2.f[v] == s.f[v] && s2.p[v] == s.p[v])
    && (forall v :: Seen(s2, v) && !Seen(s, v) ==> Done(s2, v) && s2.d[v] > s.t)
    && (forall v :: 0 <= v < |s.c| && !Seen(s2, v) ==> s2.p[v] == s.p[v])
  }

  lemma ExtendsTrans(s: State, s2: State, s3: State)
    requires Extends(s, s2) && Extends(s2, s3)
    ensures Extends(s, s3)
  {
  }

  lemma ExtendsInnermost(s: State, s2: State, u: int)
    requires Extends(s, s2) && Innermost(s, u)
    ensures Innermost(s2, u)
  {
    assert forall v :: Seen(s2, v) && !Done(s2, v) ==> Seen(s, v) && !Done(s, v);
  }

  lemma SeenBound(s: State)
    ensures |SeenSet(s)| <= |s.c|
  {
    BelowSize(|s.c|);
    assert Below(|s.c|) == SeenSet(s) + (Below(|s.c|) - SeenSet(s));
  }

  lemma ExtendsFewer(s: State, s2: State)
    requires Extends(s, s2)
    ensures |SeenSet(s)| <= |SeenSet(s2)| <= |s.c|
  {
    SeenBound(s2);
    assert SeenSet(s2) == SeenSet(s) + (SeenSet(s2) - SeenSet(s));
  }

  lemma SeenGrows(s: State, u: int)
    requires Sized(s, |s.c|) && 0 <= u < |s.c| && !Seen(s, u)
    ensures |SeenSet(Discovered(s, u))| == |SeenSet(s)| + 1 <= |s.c|
  {
    SeenBound(Discovered(s, u));
    assert SeenSet(Discovered(s, u)) == SeenSet(s) + {u};
  }

  /** The visit of u between its discovery and its finish, seen from before it. */
  lemma ExtendsVisit(s: State, s2: State, u: int)
    requires Sized(s, |s.c|) && 0 <= u < |s.c| && !Seen(s, u) && Extends(Discovered(s, u), s2)
    ensures Extends(s, Finished(s2, u)) && Done(Finished(s2, u), u)
  {
    var s1 := Discovered(s, u);
    assert forall v :: Seen(s1, v) <==> Seen(s, v) || v == u;
  }

  function Reparented(s: State, w: int, u: int): State
    requires 0 <= w < |s.c| && Sized(s, |s.c|)
  {
    s.(p := s.p[w := u])
  }

  /** The parent of an undiscovered vertex is not yet part of the search. */
  lemma ReparentKeeps(s: State, adj: Adjacency, w: int, u: int)
    requires Inv(s, adj) && 0 <= w < |adj| && !Seen(s, w)
    ensures Inv(Reparented(s, w, u), adj)
  {
    assert Sized(s, |adj|);
    hide Times, Clock, Laminar, Parents, Explored;
    ReparentTimes(s, adj, w, u);
    ReparentClock(s, Reparented(s, w, u));
    ReparentParents(s, adj, w, u);
  }

  lemma ReparentTimes(s: State, adj: Adjacency, w: int, u: int)
    requires Times(s) && |s.c| == |adj| && 0 <= w < |adj| && Laminar(s) && Explored(s, adj)
    ensures Times(Reparented(s, w, u)) && Laminar(Reparented(s, w, u)) && Explored(Reparented(s, w, u), adj)
  {
    var s' := Reparented(s, w, u);
    assert forall v :: Seen(s', v) <==> Seen(s, v);
    assert forall v :: Done(s', v) <==> Done(s, v);
    forall a, b | Seen(s', a) && Seen(s', b) && s'.d[a] < s'.d[b]
      ensures Within(s', a, b) || Precedes(s', a, b)
    {
      assert Within(s, a, b) || Precedes(s, a, b);
    }
  }

  lemma ReparentParents(s: State, adj: Adjacency, w: int, u: int)
    requires Sized(s, |adj|) && 0 <= w < |adj| && !Seen(s, w) && Parents(s, adj)
    ensures Parents(Reparented(s, w, u), adj)
  {
    var s' := Reparented(s, w, u);
    assert forall a, b :: Within(s', a, b) <==> Within(s, a, b);
    assert forall v :: Seen(s', v) <==> Seen(s, v);
  }

  /** The undiscovered successor w of the innermost vertex u may be visited next. */
  lemma MayVisitChild(s: State, adj: Adjacency, u: int, w: int)
    requires Inv(s, adj) && Innermost(s, u) && Edge(adj, u, w) && 0 <= w < |adj| && !Seen(s, w)
    ensures MayDiscover(Reparented(s, w, u), adj, w)
  {
  }

  lemma MayFinishNow(s: State, adj: Adjacency, u: int)
    requires Inv(s, adj) && 0 <= u < |adj| && Innermost(s, u)
    requires forall j :: 0 <= j < |adj[u]| ==> Seen(s, adj[u][j])
    ensures MayFinish(s, adj, u)
  {
  }

  lemma ExtendsReparented(s: State, s3: State, w: int, u: int)
    requires Sized(s, |s.c|) && 0 <= w < |s.c| && !Seen(s, w)
    requires Extends(Reparented(s, w, u), s3) && Seen(s3, w)
    ensures Extends(s, s3)
  {
    assert forall v :: Seen(Reparented(s, w, u), v) <==> Seen(s, v);
  }

  lemma ReparentClock(s: State, s': State)
    requires Sized(s, |s.c|) && Sized(s', |s.c|) && Clock(s) && s' == s.(p := s'.p)
    ensures Clock(s')
  {
    assert SeenSet(s') == SeenSet(s) && DoneSet(s') == DoneSet(s);
    assert forall v :: Seen(s', v) <==> Seen(s, v);
    assert forall v :: Done(s', v) <==> Done(s, v);
    forall k | 1 <= k <= s'.t
      ensures Used(s', k)
    {
      assert Used(s, k);
    }
  }

  // ---------- white paths by the colours of the moment ----------

  /** path leads from u to v through vertices that are white in s. */
  ghost predicate WhiteNow(s: State, adj: Adjacency, u: int, v: int, path: seq<int>) {
    && Walk(adj, path) && path[0] == u && path[|path| - 1] == v
    && forall i :: 0 <= i < |path| ==> 0 <= path[i] < |adj| && !Seen(s, path[i])
  }

  ghost predicate WhiteReaches(s: State, adj: Adjacency, u: int, v: int) {
    exists path :: WhiteNow(s, adj, u, v, path)
  }

  /** From s to s2 only vertices were discovered that white paths led to from u. */
  ghost predicate OnlyWhite(s: State, s2: State, adj: Adjacency, u: int) {
    forall v :: Seen(s2, v) && !Seen(s, v) ==> WhiteReaches(s, adj, u, v)
  }

  /** What a visit of u discovers: exactly the vertices that white paths led to from u
      when it began, all within the interval of u. */
  ghost predicate Discovers(s: State, s2: State, adj: Adjacency, u: int) {
    && Sized(s, |adj|) && Sized(s2, |adj|) && 0 <= u < |adj|
    && (forall v :: WhiteReaches(s, adj, u, v) <==> Seen(s2, v) && !Seen(s, v))
    && (forall v :: Seen(s2, v) && !Seen(s, v) ==> s2.d[u] <= s2.d[v] < s2.f[v] <= s2.f[u])
  }

  lemma WhiteSelf(s: State, adj: Adjacency, u: int)
    requires 0 <= u < |adj| && !Seen(s, u)
    ensures WhiteReaches(s, adj, u, u)
  {
    assert WhiteNow(s, adj, u, u, [u]);
  }

  lemma OnlyStart(s: State, adj: Adjacency, u: int)
    requires Sized(s, |adj|) && 0 <= u < |adj| && !Seen(s, u)
    ensures OnlyWhite(s, Discovered(s, u), adj, u)
  {
    WhiteSelf(s, adj, u);
  }

  /** What a visit of a successor w finds white is white for u as well. */
  lemma OnlyChild(s: State, s2: State, s3: State, adj: Adjacency, u: int, w: int)
    requires Sized(s, |adj|) && 0 <= u < |adj| && !Seen(s, u) && Edge(adj, u, w)
    requires OnlyWhite(s, s2, adj, u) && OnlyWhite(s2, s3, adj, w) && forall v :: Seen(s, v) ==> Seen(s2, v)
    ensures OnlyWhite(s, s3, adj, u)
  {
    forall v | Seen(s3, v) && !Seen(s, v)
      ensures WhiteReaches(s, adj, u, v)
    {
      if !Seen(s2, v) {
        var path :| WhiteNow(s2, adj, w, v, path);
        assert WhiteNow(s, adj, u, v, [u] + path) by {
          assert forall i :: 0 < i <= |path| ==> ([u] + path)[i] == path[i - 1];
        }
      }
    }
  }

  lemma OnlyNothing(s: State, adj: Adjacency, w: int)
    ensures OnlyWhite(s, s, adj, w)
  {
  }

  lemma OnlyReparented(s: State, s3: State, adj: Adjacency, w: int, u: int)
    requires Sized(s, |adj|) && 0 <= w < |adj| && OnlyWhite(Reparented(s, w, u), s3, adj, w)
    ensures OnlyWhite(s, s3, adj, w)
  {
    forall v | Seen(s3, v) && !Seen(s, v)
      ensures WhiteReaches(s, adj, w, v)
    {
      assert !Seen(Reparented(s, w, u), v);
      var path :| WhiteNow(Reparented(s, w, u), adj, w, v, path);
      assert forall x :: Seen(Reparented(s, w, u), x) <==> Seen(s, x);
      assert WhiteNow(s, adj, w, v, path);
    }
  }

  /** Everything a white path leads to is discovered by the end. */
  lemma {:induction false} WhiteIsSeen(s: State, s2: State, adj: Adjacency, u: int, v: int, path: seq<int>)
    requires Inv(s2, adj) && Extends(s, s2) && Done(s2, u) && WhiteNow(s, adj, u, v, path)
    ensures Seen(s2, v)
    decreases |path|
  {
    if |path| > 1 {
      var front := path[..|path| - 1];
      assert WhiteNow(s, adj, u, front[|front| - 1], front);
      WhiteIsSeen(s, s2, adj, u, front[|front| - 1], front);
      assert Edge(adj, path[|path| - 2], path[|path| - 1]);
    }
  }

  lemma DiscoversOnly(s: State, s2: State, adj: Adjacency, u: int)
    requires Discovers(s, s2, adj, u)
    ensures OnlyWhite(s, s2, adj, u)
  {
  }

  lemma SeenBefore(s: State, u: int, s2: State)
    requires Sized(s, |s.c|) && 0 <= u < |s.c| && Extends(Discovered(s, u), s2)
    ensures forall v :: Seen(s, v) ==> Seen(s2, v)
  {
    assert forall v :: Seen(s, v) ==> Seen(Discovered(s, u), v);
  }

  lemma VisitTimes(s: State, s3: State, adj: Adjacency, u: int)
    requires Sized(s, |adj|) && 0 <= u < |adj| && Extends(Discovered(s, u), s3) && OnlyWhite(s, s3, adj, u)
    ensures |s3.c| == |adj| && Sized(s3, |adj|)
    ensures var t := Finished(s3, u); t.d[u] == s.t + 1 && t.f[u] == t.t && OnlyWhite(s, t, adj, u)
  {
    assert Seen(Discovered(s, u), u);
    assert forall v :: Seen(Finished(s3, u), v) ==> Seen(s3, v) || v == u;
    assert Seen(s3, u);
  }

  lemma VisitDiscovers(s: State, s2: State, adj: Adjacency, u: int)
    requires Inv(s2, adj) && Extends(s, s2) && Done(s2, u) && |s.c| == |adj| && OnlyWhite(s, s2, adj, u)
    requires 0 <= u < |adj| && !Seen(s, u) && s2.d[u] == s.t + 1 && s2.f[u] == s2.t
    ensures Discovers(s, s2, adj, u)
  {
    hide Clock, Laminar, Parents;
    forall v | WhiteReaches(s, adj, u, v)
      ensures Seen(s2, v) && !Seen(s, v)
    {
      var path :| WhiteNow(s, adj, u, v, path);
      WhiteIsSeen(s, s2, adj, u, v, path);
    }
  }

  // ---------- the order of the search ----------

  /** The successors listed before a child were all discovered before it. */
  ghost predicate InTurn(s: State, adj: Adjacency, w: int)
    requires Sized(s, |s.c|) && 0 <= w < |s.c|
  {
    0 <= s.p[w] < |adj| ==> forall x :: Before(adj[s.p[w]], x, w) ==> Seen(s, x) && s.d[x] < s.d[w]
  }

  ghost predicate ChildrenInOrder(s: State, adj: Adjacency) {
    Sized(s, |s.c|) && forall w :: Seen(s, w) ==> InTurn(s, adj, w)
  }

  /** The vertices numbered below a root were all discovered before it. */
  ghost predicate RootsInOrder(s: State) {
    && Sized(s, |s.c|)
    && forall v, w :: Seen(s, v) && s.p[v] == -1 && 0 <= w < v ==> Seen(s, w) && s.d[w] < s.d[v]
  }

  /** It is the turn of u among the successors of its parent. */
  ghost predicate Ready(s: State, adj: Adjacency, u: int) {
    && Sized(s, |s.c|) && 0 <= u < |s.c|
    && (0 <= s.p[u] < |adj| ==> forall x :: Before(adj[s.p[u]], x, u) ==> Seen(s, x))
  }

  lemma DiscoverOrder(s: State, adj: Adjacency, u: int)
    requires ChildrenInOrder(s, adj) && Ready(s, adj, u) && MayDiscover(s, adj, u)
    ensures ChildrenInOrder(Discovered(s, u), adj)
  {
    hide Before, Innermost;
    var t := Discovered(s, u);
    assert forall v :: Seen(t, v) <==> Seen(s, v) || v == u;
    forall w | Seen(t, w)
      ensures InTurn(t, adj, w)
    {
      assert w != u ==> InTurn(s, adj, w);
    }
  }

  lemma FinishOrder(s: State, adj: Adjacency, u: int)
    requires ChildrenInOrder(s, adj) && Seen(s, u)
    ensures ChildrenInOrder(Finished(s, u), adj)
  {
    hide Before;
    var t := Finished(s, u);
    assert forall v :: Seen(t, v) <==> Seen(s, v);
    forall w | Seen(t, w)
      ensures InTurn(t, adj, w)
    {
      assert InTurn(s, adj, w);
    }
  }

  lemma ReparentOrder(s: State, adj: Adjacency, w: int, u: int)
    requires ChildrenInOrder(s, adj) && 0 <= w < |s.c| && !Seen(s, w)
    ensures ChildrenInOrder(Reparented(s, w, u), adj)
  {
    hide Before;
    var t := Reparented(s, w, u);
    assert forall v :: Seen(t, v) <==> Seen(s, v);
    forall v | Seen(t, v)
      ensures InTurn(t, adj, v)
    {
      assert InTurn(s, adj, v);
    }
  }

  /** The loop over the successors of u has come to place i, and the one there is white. */
  lemma ChildReady(s: State, adj: Adjacency, u: int, i: int)
    requires Sized(s, |adj|) && 0 <= u < |adj| && 0 <= i < |adj[u]| && 0 <= adj[u][i] < |adj|
    requires forall j :: 0 <= j < i ==> Seen(s, adj[u][j])
    ensures Ready(Reparented(s, adj[u][i], u), adj, adj[u][i])
  {
    var w := adj[u][i];
    var t := Reparented(s, w, u);
    forall x | Before(adj[u], x, w)
      ensures Seen(t, x)
    {
      var a :| 0 <= a < |adj[u]| && adj[u][a] == x && w !in adj[u][..a + 1];
      var front := adj[u][..a + 1];
      assert forall k :: 0 <= k < |front| ==> front[k] in front && front[k] == adj[u][k];
      assert a < i && Seen(s, x);
    }
  }

  lemma RootReady(s: State, adj: Adjacency, u: int)
    requires Sized(s, |s.c|) && 0 <= u < |s.c| && s.p[u] == -1
    ensures Ready(s, adj, u)
  {
  }

  /** A visit of the next root u makes no other root. */
  lemma RootKeepsOrder(s: State, s2: State, adj: Adjacency, u: int)
    requires Inv(s, adj) && Inv(s2, adj) && RootsInOrder(s) && Extends(s, s2) && Discovers(s, s2, adj, u) && !Seen(s, u)
    requires forall v :: 0 <= v < u ==> Seen(s, v)
    ensures RootsInOrder(s2)
  {
    hide Inv, Discovers, Done;
    SeenByNow(s, adj);
    forall v, w | Seen(s2, v) && s2.p[v] == -1 && 0 <= w < v
      ensures Seen(s2, w) && s2.d[w] < s2.d[v]
    {
      if !Seen(s, v) {
        OnlyRoot(s, s2, adj, u, v);
      }
      assert Seen(s, w);
    }
  }

  lemma SeenByNow(s: State, adj: Adjacency)
    requires Inv(s, adj)
    ensures Sized(s, |s.c|) && forall v :: Seen(s, v) ==> 0 <= v < |s.c| && s.d[v] <= s.t
  {
  }

  lemma OnlyRoot(s: State, s2: State, adj: Adjacency, u: int, v: int)
    requires Inv(s2, adj) && Extends(s, s2) && Discovers(s, s2, adj, u)
    requires !Seen(s, u) && Seen(s2, v) && !Seen(s, v)
    ensures v != u ==> s2.p[v] != -1
  {
    hide Laminar, Explored;
    WhiteSelf(s, adj, u);
    assert Seen(s2, u);
    if v != u {
      assert s2.d[u] != s2.d[v] && Done(s2, u) && Done(s2, v) && s2.f[u] != s2.f[v];
      assert Within(s2, u, v);
    }
  }

  /** Place b of the list of u is the first of a child of u. */
  ghost predicate FirstPlace(s: State, adj: Adjacency, u: int, b: int)
    requires Sized(s, |adj|) && 0 <= u < |adj| && 0 <= b < |adj[u]|
  {
    var w := adj[u][b];
    0 <= w < |adj| && s.p[w] == u && w !in adj[u][..b]
  }

  /** In a finished search a vertex without parent comes after all the vertices with
      lower numbers, and a child after all that its parent lists before it. */
  lemma OrderMeans(s: State, adj: Adjacency)
    requires Complete(s, adj) && ChildrenInOrder(s, adj) && RootsInOrder(s)
    ensures forall v, w :: 0 <= w < v < |adj| && s.p[v] == -1 ==> s.d[w] < s.d[v]
    ensures forall u, a, b :: 0 <= u < |adj| && 0 <= a < b < |adj[u]| && FirstPlace(s, adj, u, b) ==>
      0 <= adj[u][a] < |adj| && s.d[adj[u][a]] < s.d[adj[u][b]]
  {
    hide Inv;
    forall v, w | 0 <= w < v < |adj| && s.p[v] == -1
      ensures s.d[w] < s.d[v]
    {
      assert Done(s, v);
    }
    forall u, a, b | 0 <= u < |adj| && 0 <= a < b < |adj[u]| && FirstPlace(s, adj, u, b)
      ensures 0 <= adj[u][a] < |adj| && s.d[adj[u][a]] < s.d[adj[u][b]]
    {
      assert Done(s, adj[u][b]) && InTurn(s, adj, adj[u][b]);
      assert forall x :: x in adj[u][..a + 1] ==> x in adj[u][..b];
      assert Before(adj[u], adj[u][a], adj[u][b]);
    }
  }

  class Search {
    const adj: Adjacency
    const c: array<Color>
    const d: array<int>
    const f: array<int>
    const p: array<int>
    var timestamp: int

    ghost predicate Shape()
      reads this
    {
      && d != f && d != p && f != p
      && c.Length == d.Length == f.Length == p.Length == |adj|
    }

    ghost function Now(): (s: State)
      reads this, c, d, f, p
      ensures Shape() ==> Sized(s, |adj|)
    {
      State(c[..], d[..], f[..], p[..], timestamp)
    }

    constructor (adj: Adjacency)
      ensures Shape() && this.adj == adj
      ensures fresh(c) && fresh(d) && fresh(f) && fresh(p)
    {
      this.adj := adj;
      c := new Color[|adj|](i => White);
      d := new int[|adj|];
      f := new int[|adj|];
      p := new int[|adj|];
      timestamp := 0;
    }

    method Discover(u: int)
      requires Shape() && 0 <= u < |adj|
      modifies this`timestamp, c, d
      ensures Now() == Discovered(old(Now()), u)
    {
      timestamp := timestamp + 1;
      d[u] := timestamp;
      c[u] := Grey;
    }

    method Finish(u: int)
      requires Shape() && 0 <= u < |adj|
      modifies this`timestamp, c, f
      ensures Now() == Finished(old(Now()), u)
    {
      c[u] := Black;
      timestamp := timestamp + 1;
      f[u] := timestamp;
    }

    method SetParent(w: int, u: int)
      requires Shape() && 0 <= w < |adj|
      modifies p
      ensures Now() == Reparented(old(Now()), w, u)
    {
      p[w] := u;
    }

    /** dfs_visit: from u, everything reachable through white vertices is
        discovered and finished. */
    method Visit(u: int)
      requires Shape() && 0 <= u < |adj| && Inv(Now(), adj) && MayDiscover(Now(), adj, u)
      requires ChildrenInOrder(Now(), adj) && Ready(Now(), adj, u)
      modifies this`timestamp, c, d, f, p
      ensures Inv(Now(), adj) && Extends(old(Now()), Now()) && Done(Now(), u)
      ensures Discovers(old(Now()), Now(), adj, u) && ChildrenInOrder(Now(), adj)
      decreases |adj| - |SeenSet(Now())|, 1
    {
      hide Inv, MayDiscover, Extends, Innermost, Seen, Done, SeenSet, Now, OnlyWhite, Discovers, Discovered, Finished, ChildrenInOrder, Ready;
      ghost var s := Now();
      DiscoverFacts(s, adj, u);
      OnlyStart(s, adj, u);
      DiscoverKeeps(s, adj, u);
      SeenGrows(s, u);
      DiscoverOrder(s, adj, u);
      Discover(u);
      ghost var s1 := Now();
      ExtendsSelf(s1);
      var i := 0;
      while i < |adj[u]|
        invariant 0 <= i <= |adj[u]| && Inv(Now(), adj) && Extends(s1, Now()) && Innermost(Now(), u)
        invariant OnlyWhite(s, Now(), adj, u) && ChildrenInOrder(Now(), adj)
        invariant forall j :: 0 <= j < i ==> Seen(Now(), adj[u][j])
      {
        ghost var s2 := Now();
        ExtendsFewer(s1, s2);
        VisitChild(u, i);
        SeenBefore(s, u, s2);
        OnlyChild(s, s2, Now(), adj, u, adj[u][i]);
        ExtendsTrans(s1, s2, Now());
        ExtendsSees(s2, Now());
        i := i + 1;
      }
      ghost var s3 := Now();
      MayFinishNow(s3, adj, u);
      FinishKeeps(s3, adj, u);
      FinishOrder(s3, adj, u);
      ExtendsVisit(s, s3, u);
      VisitTimes(s, s3, adj, u);
      Finish(u);
      VisitDiscovers(s, Now(), adj, u);
    }

    /** The body of the loop of dfs_visit. */
    method VisitChild(u: int, i: int)
      requires Shape() && 0 <= u < |adj| && 0 <= i < |adj[u]|
      requires Graph(adj) && Inv(Now(), adj) && Innermost(Now(), u) && ChildrenInOrder(Now(), adj)
      requires forall j :: 0 <= j < i ==> Seen(Now(), adj[u][j])
      modifies this`timestamp, c, d, f, p
      ensures Inv(Now(), adj) && Extends(old(Now()), Now()) && Innermost(Now(), u) && Seen(Now(), adj[u][i])
      ensures OnlyWhite(old(Now()), Now(), adj, adj[u][i]) && ChildrenInOrder(Now(), adj)
      decreases |adj| - |SeenSet(Now())|, 2
    {
      hide Inv, MayDiscover, Extends, Innermost, OnlyWhite, Discovers, ChildrenInOrder, Ready;
      var w := adj[u][i];
      ghost var s2 := Now();
      OnlyNothing(s2, adj, w);
      assert Edge(adj, u, w) && 0 <= w < |adj|;
      ExtendsSelf(s2);
      if c[w] == White {
        ReparentKeeps(s2, adj, w, u);
        MayVisitChild(s2, adj, u, w);
        ReparentOrder(s2, adj, w, u);
        ChildReady(s2, adj, u, i);
        SetParent(w, u);
        assert SeenSet(Now()) == SeenSet(s2);
        Visit(w);
        DiscoversOnly(Reparented(s2, w, u), Now(), adj, w);
        OnlyReparented(s2, Now(), adj, w, u);
        ExtendsReparented(s2, Now(), w, u);
        ExtendsInnermost(s2, Now(), u);
      }
    }

    /** depth_first_search: afterwards the search is complete. */
    method Run()
      requires Shape() && Graph(adj)
      modifies this`timestamp, c, d, f, p
      ensures Complete(Now(), adj) && ChildrenInOrder(Now(), adj) && RootsInOrder(Now())
    {
      hide Inv, Extends, Innermost, Complete, MayDiscover, Orphans, Discovers, ChildrenInOrder, RootsInOrder, Ready;
      var i := 0;
      while i < |adj|
        invariant 0 <= i <= |adj|
        invariant forall v :: 0 <= v < i ==> c[v] == White && p[v] == -1
      {
        c[i] := White;
        p[i] := -1;
        i := i + 1;
      }
      timestamp := 0;
      FreshInv(Now(), adj);
      FreshOrphans(Now());
      FreshOrder(Now(), adj);
      i := 0;
      while i < |adj|
        invariant 0 <= i <= |adj| && Inv(Now(), adj) && Innermost(Now(), -1) && Orphans(Now())
        invariant ChildrenInOrder(Now(), adj) && RootsInOrder(Now())
        invariant forall v :: 0 <= v < i ==> Seen(Now(), v)
      {
        ghost var s := Now();
        if c[i] == White {
          OrphanRoot(s, i);
          MayVisitRoot(s, adj, i);
          RootReady(s, adj, i);
          Visit(i);
          RootKeepsOrder(s, Now(), adj, i);
          ExtendsInnermost(s, Now(), -1);
          ExtendsOrphans(s, Now());
          ExtendsSees(s, Now());
        }
        i := i + 1;
      }
      AllSeenIsComplete(Now(), adj);
    }
  }

  ghost predicate Fresh(s: State) {
    Sized(s, |s.c|) && s.t == 0 && forall v :: 0 <= v < |s.c| ==> s.c[v] == White && s.p[v] == -1
  }

  lemma FreshInv(s: State, adj: Adjacency)
    requires Fresh(s) && Graph(adj) && |s.c| == |adj|
    ensures Inv(s, adj) && Innermost(s, -1)
  {
    assert SeenSet(s) == {} && DoneSet(s) == {};
  }

  lemma MayVisitRoot(s: State, adj: Adjacency, u: int)
    requires Inv(s, adj) && Innermost(s, -1) && 0 <= u < |adj| && !Seen(s, u) && s.p[u] == -1
    ensures MayDiscover(s, adj, u)
  {
  }

  /** Every vertex not yet discovered still has no parent. */
  ghost predicate Orphans(s: State) {
    Sized(s, |s.c|) && forall v :: 0 <= v < |s.c| && !Seen(s, v) ==> s.p[v] == -1
  }

  lemma FreshOrphans(s: State)
    requires Fresh(s)
    ensures Orphans(s)
  {
  }

  lemma FreshOrder(s: State, adj: Adjacency)
    requires Fresh(s)
    ensures ChildrenInOrder(s, adj) && RootsInOrder(s)
  {
  }

  lemma OrphanRoot(s: State, u: int)
    requires Orphans(s) && 0 <= u < |s.c| && !Seen(s, u)
    ensures |s.p| == |s.c| && s.p[u] == -1
  {
  }

  lemma ExtendsOrphans(s: State, s2: State)
    requires Extends(s, s2) && Orphans(s)
    ensures Orphans(s2)
  {
  }

  lemma AllSeenIsComplete(s: State, adj: Adjacency)
    requires Inv(s, adj) && Innermost(s, -1) && forall v :: 0 <= v < |adj| ==> Seen(s, v)
    ensures Complete(s, adj)
  {
  }

  lemma ExtendsSelf(s: State)
    requires Sized(s, |s.c|)
    ensures Extends(s, s)
  {
  }

  lemma ExtendsSees(s: State, s2: State)
    requires Extends(s, s2)
    ensures forall v :: Seen(s, v) ==> Seen(s2, v)
  {
  }
}
