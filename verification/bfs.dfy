/** Breadth-first search as graph/adjacent_list.c and graph/matrix_graph.c run it,
    over a ring queue of fixed length. */
module BreadthFirst {
  import opened Graphs
  import opened FiniteSets
  import opened ChildLinks
  import Ord = BreadthFirstOrder

  type Edges = set<(int, int)>

  ghost predicate WellFormed(n: int, E: Edges) {
    forall e :: e in E ==> 0 <= e.0 < n && 0 <= e.1 < n
  }

  // ---------- distances ----------

  /** Some path of exactly k edges leads from s to v. */
  ghost predicate Reach(E: Edges, s: int, v: int, k: nat)
    decreases k
  {
    if k == 0 then v == s else exists u :: (u, v) in E && Reach(E, s, u, k - 1)
  }

  ghost predicate Reachable(E: Edges, s: int, v: int) {
    exists k: nat :: Reach(E, s, v, k)
  }

  /** k is the length of a shortest path from s to v. */
  ghost predicate Distance(E: Edges, s: int, v: int, k: int) {
    k >= 0 && Reach(E, s, v, k) && forall j: nat :: Reach(E, s, v, j) ==> k <= j
  }

  lemma DistanceUnique(E: Edges, s: int, v: int, k: int, j: int)
    requires Distance(E, s, v, k) && Distance(E, s, v, j)
    ensures k == j
  {
  }

  // ---------- the search on values ----------

  /** Colors, distances and parents, and the vertices waiting in the queue. */
  datatype State = State(c: seq<Color>, d: seq<int>, p: seq<int>, q: seq<int>)

  ghost predicate Sized(s: State, n: int) {
    |s.c| == |s.d| == |s.p| == n && forall i :: 0 <= i < |s.q| ==> 0 <= s.q[i] < n
  }

  ghost predicate Seen(s: State, v: int) {
    0 <= v < |s.c| && s.c[v] != White
  }

  /** Discovered vertices lie at the end of a path of length d; the last edge of
      one comes from the parent. */
  ghost predicate Paths(s: State, n: int, E: Edges, r: int)
    requires Sized(s, n)
  {
    && Seen(s, r) && s.d[r] == 0 && s.p[r] == -1
    && (forall v :: Seen(s, v) ==> s.d[v] >= 0 && Reach(E, r, v, s.d[v]))
    && (forall v :: Seen(s, v) && v != r ==> Seen(s, s.p[v]) && (s.p[v], v) in E && s.d[v] == s.d[s.p[v]] + 1)
  }

  /** The queue holds vertices once each, in order of distance, none more than one
      beyond the distance b. */
  ghost predicate Queue(s: State, n: int, b: int)
    requires Sized(s, n)
  {
    && (forall i, j :: 0 <= i < j < |s.q| ==> s.q[i] != s.q[j] && s.d[s.q[i]] <= s.d[s.q[j]])
    && (forall i :: 0 <= i < |s.q| ==> s.c[s.q[i]] == Grey && s.d[s.q[i]] >= b)
    && (forall v :: Seen(s, v) ==> s.d[v] <= b + 1)
  }

  /** Every successor of a black vertex is discovered, at most one edge farther. */
  ghost predicate Closed(s: State, n: int, E: Edges)
    requires Sized(s, n)
  {
    forall u, w :: 0 <= u < n && s.c[u] == Black && (u, w) in E ==> Seen(s, w) && s.d[w] <= s.d[u] + 1
  }

  ghost predicate Waiting(s: State, n: int, u: int)
    requires Sized(s, n)
  {
    forall v :: 0 <= v < n && s.c[v] == Grey && v != u ==> v in s.q
  }

  /** Between two turns of the outer loop. */
  ghost predicate Between(s: State, n: int, E: Edges, r: int) {
    && WellFormed(n, E) && Sized(s, n) && Paths(s, n, E, r) && Closed(s, n, E) && Waiting(s, n, -1)
    && (exists b :: Queue(s, n, b) && (s.q != [] ==> b == s.d[s.q[0]]))
  }

  /** While the successors of u are gone through; those in D are done. */
  ghost predicate Scanning(s: State, n: int, E: Edges, r: int, u: int, D: set<int>) {
    && WellFormed(n, E) && Sized(s, n) && Paths(s, n, E, r) && Closed(s, n, E) && Waiting(s, n, u)
    && Seen(s, u) && s.c[u] == Grey && u !in s.q && Queue(s, n, s.d[u])
    && (forall w :: w in D ==> Seen(s, w) && s.d[w] <= s.d[u] + 1)
  }

  function Popped(s: State): State
    requires s.q != []
  {
    s.(q := s.q[1..])
  }

  function Touched(s: State, u: int, w: int): State
    requires 0 <= w < |s.c| && 0 <= u < |s.c| && |s.c| == |s.d| == |s.p|
  {
    State(s.c[w := Grey], s.d[w := s.d[u] + 1], s.p[w := u], s.q + [w])
  }

  function Blackened(s: State, u: int): State
    requires 0 <= u < |s.c|
  {
    s.(c := s.c[u := Black])
  }

  lemma StartBetween(s: State, n: int, E: Edges, r: int)
    requires WellFormed(n, E) && 0 <= r < n && |s.c| == |s.d| == |s.p| == n && s.q == [r]
    requires forall v :: 0 <= v < n ==> s.c[v] == (if v == r then Grey else White)
    requires s.d[r] == 0 && s.p[r] == -1
    ensures Between(s, n, E, r)
  {
    assert Queue(s, n, 0);
  }

  lemma PopScans(s: State, n: int, E: Edges, r: int)
    requires Between(s, n, E, r) && s.q != []
    ensures Scanning(Popped(s), n, E, r, s.q[0], {}) && 0 <= s.q[0] < n
  {
    hide Paths, Closed;
    var s', u := Popped(s), s.q[0];
    assert forall v :: Seen(s', v) <==> Seen(s, v);
    assert forall i :: 0 <= i < |s'.q| ==> s'.q[i] == s.q[i + 1];
    PopKeeps(s, n, E, r);
    forall v | 0 <= v < n && s.c[v] == Grey && v != u
      ensures v in s'.q
    {
      var i :| 0 <= i < |s.q| && s.q[i] == v;
      assert s'.q[i - 1] == v;
    }
  }

  lemma PopKeeps(s: State, n: int, E: Edges, r: int)
    requires Sized(s, n) && Paths(s, n, E, r) && Closed(s, n, E) && s.q != []
    ensures Sized(Popped(s), n) && Paths(Popped(s), n, E, r) && Closed(Popped(s), n, E)
  {
    var s' := Popped(s);
    assert forall i :: 0 <= i < |s'.q| ==> s'.q[i] == s.q[i + 1];
    assert forall v :: Seen(s', v) <==> Seen(s, v);
  }

  lemma TouchPaths(s: State, n: int, E: Edges, r: int, u: int, w: int)
    requires Sized(s, n) && WellFormed(n, E) && Paths(s, n, E, r) && Seen(s, u) && (u, w) in E && !Seen(s, w)
    ensures Sized(Touched(s, u, w), n) && Paths(Touched(s, u, w), n, E, r)
    ensures forall v :: Seen(Touched(s, u, w), v) <==> Seen(s, v) || v == w
  {
    assert Reach(E, r, u, s.d[u]);
    assert Reach(E, r, w, s.d[u] + 1);
  }

  lemma TouchQueue(s: State, n: int, E: Edges, r: int, u: int, w: int)
    requires Sized(s, n) && WellFormed(n, E) && Seen(s, u) && (u, w) in E && !Seen(s, w)
    requires Queue(s, n, s.d[u])
    ensures Sized(Touched(s, u, w), n) && Queue(Touched(s, u, w), n, s.d[u])
  {
    var s' := Touched(s, u, w);
    assert forall v :: Seen(s', v) <==> Seen(s, v) || v == w;
    assert forall i :: 0 <= i < |s.q| ==> s'.q[i] == s.q[i] && s.q[i] != w && s'.d[s.q[i]] == s.d[s.q[i]];
    assert s'.q[|s.q|] == w;
  }

  lemma TouchWaiting(s: State, n: int, E: Edges, r: int, u: int, w: int)
    requires Sized(s, n) && WellFormed(n, E) && Seen(s, u) && (u, w) in E && !Seen(s, w) && Waiting(s, n, u)
    ensures Sized(Touched(s, u, w), n) && Waiting(Touched(s, u, w), n, u)
  {
    var s' := Touched(s, u, w);
    assert s'.q[|s.q|] == w;
    forall v | 0 <= v < n && s'.c[v] == Grey && v != u
      ensures v in s'.q
    {
      assert v == w || v in s.q;
    }
  }

  lemma TouchScans(s: State, n: int, E: Edges, r: int, u: int, D: set<int>, w: int)
    requires Scanning(s, n, E, r, u, D) && (u, w) in E
    ensures Seen(s, w) ==> Scanning(s, n, E, r, u, D + {w})
    ensures !Seen(s, w) ==> Scanning(Touched(s, u, w), n, E, r, u, D + {w})
  {
    hide Paths, Queue, Waiting;
    if Seen(s, w) {
      assert s.d[w] <= s.d[u] + 1 by {
        QueueBound(s, n, u, w);
      }
    } else {
      TouchPaths(s, n, E, r, u, w);
      TouchQueue(s, n, E, r, u, w);
      TouchWaiting(s, n, E, r, u, w);
    }
  }

  lemma QueueBound(s: State, n: int, u: int, w: int)
    requires Sized(s, n) && Seen(s, u) && Queue(s, n, s.d[u]) && Seen(s, w)
    ensures s.d[w] <= s.d[u] + 1
  {
  }

  lemma BlackenBetween(s: State, n: int, E: Edges, r: int, u: int, D: set<int>)
    requires Scanning(s, n, E, r, u, D) && forall w :: (u, w) in E ==> w in D
    ensures Between(Blackened(s, u), n, E, r)
  {
    var s' := Blackened(s, u);
    assert forall v :: Seen(s', v) <==> Seen(s, v);
    var b := if s.q == [] then s.d[u] else s.d[s.q[0]];
    assert Queue(s', n, b);
  }

  /** An empty queue: exactly the reachable vertices are black, each at its distance. */
  lemma EmptyQueueDone(s: State, n: int, E: Edges, r: int)
    requires Between(s, n, E, r) && s.q == []
    ensures forall v :: 0 <= v < n ==> s.c[v] != Grey
    ensures forall v :: 0 <= v < n ==> (s.c[v] == Black <==> Reachable(E, r, v))
    ensures forall v :: 0 <= v < n && s.c[v] == Black ==> Distance(E, r, v, s.d[v])
  {
    hide Queue, Closed, Reach;
    assert forall v :: Seen(s, v) ==> s.c[v] == Black;
    forall v, k: nat | 0 <= v < n && Reach(E, r, v, k)
      ensures s.c[v] == Black && s.d[v] <= k
    {
      ReachedIsNear(s, n, E, r, v, k);
    }
    forall v | 0 <= v < n
      ensures s.c[v] == Black ==> Distance(E, r, v, s.d[v])
      ensures s.c[v] == Black <==> Reachable(E, r, v)
    {
      if s.c[v] == Black {
        assert Seen(s, v);
        var k: nat := s.d[v];
        assert Reach(E, r, v, k);
      } else {
        assert forall k: nat :: !Reach(E, r, v, k);
      }
    }
  }

  lemma {:induction false} ReachedIsNear(s: State, n: int, E: Edges, r: int, v: int, k: nat)
    requires WellFormed(n, E) && Sized(s, n) && Closed(s, n, E) && Seen(s, r) && s.d[r] == 0
    requires (forall x :: Seen(s, x) ==> s.c[x] == Black) && Reach(E, r, v, k)
    ensures 0 <= v < n && s.c[v] == Black && s.d[v] <= k
    decreases k
  {
    if k > 0 {
      var u :| (u, v) in E && Reach(E, r, u, k - 1);
      ReachedIsNear(s, n, E, r, u, k - 1);
      assert Seen(s, v);
    }
  }

  /** With an undiscovered vertex left, the queue is at least two short of n. */
  lemma QueueShort(s: State, n: int, E: Edges, r: int, u: int, D: set<int>, w: int)
    requires Scanning(s, n, E, r, u, D) && 0 <= w < n && !Seen(s, w)
    ensures |s.q| + 2 <= n
  {
    hide Paths, Closed, Waiting;
    var Q := set v | v in s.q;
    QueueApart(s, n, u, w);
    DistinctSize(s.q);
    BelowSize(n);
    hide Queue;
    assert Q + {u, w} <= Below(n);
    SubsetSize(Q + {u, w}, Below(n));
  }

  lemma QueueApart(s: State, n: int, u: int, w: int)
    requires Sized(s, n) && Seen(s, u) && u !in s.q && Queue(s, n, s.d[u]) && !Seen(s, w)
    ensures w !in s.q && u != w && forall v <- s.q :: 0 <= v < n
    ensures forall i, j :: 0 <= i < j < |s.q| ==> s.q[i] != s.q[j]
  {
  }

  // ---------- the ring queue ----------

  const Q_LEN := 1024

  /** What lies in a ring buffer from h up to t. */
  function Round(q: seq<int>, h: nat, t: nat): seq<int>
    requires h < |q| && t < |q|
  {
    if h <= t then q[h..t] else q[h..] + q[..t]
  }

  function Next(i: nat): (j: nat)
    ensures j < Q_LEN
  {
    (i + 1) % Q_LEN
  }

  lemma RoundPut(q: seq<int>, h: nat, t: nat, v: int)
    requires |q| == Q_LEN && h < Q_LEN && t < Q_LEN
    ensures |Round(q, h, t)| <= Q_LEN - 1 && (|Round(q, h, t)| == Q_LEN - 1 <==> h == Next(t))
    ensures h != Next(t) ==> Round(q[t := v], h, Next(t)) == Round(q, h, t) + [v]
  {
    assert Next(t) == if t == Q_LEN - 1 then 0 else t + 1;
    if h <= t {
      assert q[h..t] + [v] == q[t := v][h..t + 1];
    } else {
      assert q[..t] + [v] == q[t := v][..t + 1];
    }
  }

  lemma RoundTake(q: seq<int>, h: nat, t: nat)
    requires |q| == Q_LEN && h < Q_LEN && t < Q_LEN
    ensures Round(q, h, t) == [] <==> h == t
    ensures h != t ==> Round(q, h, t) == [q[h]] + Round(q, Next(h), t)
  {
    hide Round;
    RoundSize(q, h, t);
    if h < t {
      TakeBelow(q, h, t);
    } else if t < h < Q_LEN - 1 {
      TakeAbove(q, h, t);
    } else if h > t {
      TakeLast(q, t);
    }
  }

  lemma RoundSize(q: seq<int>, h: nat, t: nat)
    requires |q| == Q_LEN && h < Q_LEN && t < Q_LEN
    ensures |Round(q, h, t)| == if h <= t then t - h else Q_LEN - h + t
  {
  }

  lemma TakeBelow(q: seq<int>, h: nat, t: nat)
    requires |q| == Q_LEN && h < t < Q_LEN
    ensures Round(q, h, t) == [q[h]] + Round(q, h + 1, t)
  {
  }

  lemma TakeAbove(q: seq<int>, h: nat, t: nat)
    requires |q| == Q_LEN && t < h < Q_LEN - 1
    ensures Round(q, h, t) == [q[h]] + Round(q, h + 1, t)
  {
    hide Round;
    RoundAbove(q, h, t);
    RoundAbove(q, h + 1, t);
    FromHead(q, h);
    Regroup([q[h]], q[h + 1..], q[..t]);
  }

  lemma RoundAbove(q: seq<int>, h: nat, t: nat)
    requires t < h < |q|
    ensures Round(q, h, t) == q[h..] + q[..t]
  {
  }

  lemma FromHead(q: seq<int>, h: nat)
    requires h < |q|
    ensures q[h..] == [q[h]] + q[h + 1..]
  {
  }

  lemma Regroup(a: seq<int>, b: seq<int>, c: seq<int>)
    ensures (a + b) + c == a + (b + c)
  {
  }

  lemma TakeLast(q: seq<int>, t: nat)
    requires |q| == Q_LEN && t < Q_LEN - 1
    ensures Round(q, Q_LEN - 1, t) == [q[Q_LEN - 1]] + Round(q, 0, t)
  {
  }

  class RingQueue {
    const q: array<int>
    var h: int
    var t: int

    ghost predicate Valid()
      reads this
    {
      q.Length == Q_LEN && 0 <= h < Q_LEN && 0 <= t < Q_LEN
    }

    ghost function Contents(): seq<int>
      requires Valid()
      reads this, q
    {
      Round(q[..], h, t)
    }

    constructor ()
      ensures Valid() && Contents() == [] && fresh(q)
    {
      q := new int[Q_LEN];
      h, t := 0, 0;
    }

    method Init()
      requires Valid()
      modifies this
      ensures Valid() && Contents() == []
    {
      h := 0;
      t := 0;
    }

    method IsEmpty() returns (b: bool)
      requires Valid()
      ensures b == (Contents() == [])
    {
      hide Round;
      RoundTake(q[..], h, t);
      b := h == t;
    }

    /** en_q: refused, with result 1, exactly when Q_LEN - 1 entries wait. */
    method Enqueue(v: int) returns (r: int)
      requires Valid()
      modifies this`t, q
      ensures Valid()
      ensures |old(Contents())| < Q_LEN - 1 ==> r == 0 && Contents() == old(Contents()) + [v]
      ensures |old(Contents())| == Q_LEN - 1 ==> r == 1 && Contents() == old(Contents())
      ensures |old(Contents())| <= Q_LEN - 1
    {
      hide Round;
      RoundPut(q[..], h, t, v);
      if h == (t + 1) % Q_LEN {
        return 1;
      }
      q[t] := v;
      t := (t + 1) % Q_LEN;
      return 0;
    }

    /** de_q: -1 stands for the null pointer. */
    method Dequeue() returns (v: int)
      requires Valid()
      modifies this`h
      ensures Valid()
      ensures old(Contents()) == [] ==> v == -1 && Contents() == []
      ensures old(Contents()) != [] ==> v == old(Contents())[0] && Contents() == old(Contents())[1..]
    {
      hide Round;
      RoundTake(q[..], h, t);
      if h == t {
        return -1;
      }
      v := q[h];
      h := (h + 1) % Q_LEN;
    }
  }

  // ---------- graphs of any size ----------

  ghost function Blacks(s: State): set<int> {
    set v | 0 <= v < |s.c| && s.c[v] == Black
  }

  /** What the search does with a white vertex w: a full queue refuses it, which the
      search does not notice. */
  function Met(s: State, u: int, w: int): State
    requires 0 <= w < |s.c| && 0 <= u < |s.c| && |s.c| == |s.d| == |s.p|
  {
    if |s.q| < Q_LEN - 1 then Touched(s, u, w) else Touched(s, u, w).(q := s.q)
  }

  function Lost(s: State, w: int, lost: set<int>): set<int> {
    if |s.q| < Q_LEN - 1 then lost else lost + {w}
  }

  /** What holds whether or not vertices were lost: the queue holds grey vertices
      once each, and those lost are grey and in it no more.  u is the vertex whose
      successors are gone through, -1 for none. */
  ghost predicate Loose(s: State, n: int, E: Edges, r: int, u: int, lost: set<int>) {
    && WellFormed(n, E) && Sized(s, n) && Seen(s, r) && 0 <= r < n && |s.q| <= Q_LEN - 1
    && (forall i, j :: 0 <= i < j < |s.q| ==> s.q[i] != s.q[j])
    && (forall v <- s.q :: s.c[v] == Grey && v != u)
    && (u != -1 ==> 0 <= u < n && s.c[u] == Grey)
    && (forall v <- lost :: 0 <= v < n && s.c[v] == Grey && v !in s.q && v != u)
  }

  /** The other successors of r. */
  ghost function Successors(E: Edges, r: int): set<int> {
    set e | e in E && e.0 == r && e.1 != r :: e.1
  }

  ghost predicate Few(E: Edges, r: int) {
    |Successors(E, r)| < Q_LEN
  }

  /** Between two turns of the outer loop. */
  ghost predicate Turning(s: State, n: int, E: Edges, r: int, lost: set<int>) {
    && Loose(s, n, E, r, -1, lost) && (lost == {} ==> Between(s, n, E, r)) && (n <= Q_LEN ==> lost == {})
    && (s.c[r] == Black || (s.q == [r] && Blacks(s) == {}))
    && (lost == {} && s.c[r] == Black ==> Few(E, r))
  }

  /** While the successors of u are gone through; those in D are done. */
  ghost predicate Examining(s: State, n: int, E: Edges, r: int, u: int, D: set<int>, lost: set<int>) {
    && 0 <= u && Loose(s, n, E, r, u, lost) && (lost == {} ==> Scanning(s, n, E, r, u, D)) && (n <= Q_LEN ==> lost == {})
    && (if u == r then Blacks(s) == {} else s.c[r] == Black)
    && (lost == {} && s.c[r] == Black ==> Few(E, r))
  }

  lemma BeginTurning(s: State, n: int, E: Edges, r: int)
    requires WellFormed(n, E) && 0 <= r < n && |s.c| == |s.d| == |s.p| == n && s.q == [r]
    requires forall v :: 0 <= v < n ==> s.c[v] == (if v == r then Grey else White)
    requires s.d[r] == 0 && s.p[r] == -1
    ensures Turning(s, n, E, r, {})
  {
    StartBetween(s, n, E, r);
  }

  lemma NextExamines(s: State, n: int, E: Edges, r: int, lost: set<int>)
    requires Turning(s, n, E, r, lost) && s.q != []
    ensures 0 <= s.q[0] < n && Examining(Popped(s), n, E, r, s.q[0], {}, lost) && Blacks(Popped(s)) == Blacks(s)
  {
    hide Between, Scanning, Few;
    var s' := Popped(s);
    assert forall i :: 0 <= i < |s'.q| ==> s'.q[i] == s.q[i + 1];
    assert s.q[0] in s.q;
    assert forall v <- s'.q :: v in s.q;
    if lost == {} {
      PopScans(s, n, E, r);
    }
  }

  lemma FirstWaiting(s: State, n: int, E: Edges, r: int, lost: set<int>)
    requires Turning(s, n, E, r, lost) && s.q != []
    ensures 0 <= s.q[0] < n
  {
  }

  lemma ExaminingFacts(s: State, n: int, E: Edges, r: int, u: int, D: set<int>, lost: set<int>, w: int)
    requires Examining(s, n, E, r, u, D, lost) && (u, w) in E
    ensures 0 <= u < n && 0 <= w < n && |s.c| == |s.d| == |s.p| == n && (s.c[w] == White <==> !Seen(s, w))
    ensures if Seen(s, w) then Examining(s, n, E, r, u, D + {w}, lost) else w != r && w != u
  {
    hide Between, Scanning, Few;
    if lost == {} {
      TouchScans(s, n, E, r, u, D, w);
    }
  }

  lemma MeetExamines(s: State, n: int, E: Edges, r: int, u: int, D: set<int>, lost: set<int>, w: int)
    requires Examining(s, n, E, r, u, D, lost) && (u, w) in E && !Seen(s, w)
    ensures 0 <= u < n && 0 <= w < n && |s.c| == |s.d| == |s.p| == n
    ensures Examining(Met(s, u, w), n, E, r, u, D + {w}, Lost(s, w, lost)) && Blacks(Met(s, u, w)) == Blacks(s)
  {
    hide Between, Scanning, Few;
    ExaminingFacts(s, n, E, r, u, D, lost, w);
    MeetLoose(s, n, E, r, u, lost, w);
    assert Blacks(Met(s, u, w)) == Blacks(s);
    if lost == {} {
      TouchScans(s, n, E, r, u, D, w);
      QueueShort(s, n, E, r, u, D, w);
    }
  }

  lemma MeetLoose(s: State, n: int, E: Edges, r: int, u: int, lost: set<int>, w: int)
    requires Loose(s, n, E, r, u, lost) && 0 <= u < n && 0 <= w < n && !Seen(s, w)
    ensures |s.c| == |s.d| == |s.p| == n && Loose(Met(s, u, w), n, E, r, u, Lost(s, w, lost))
  {
    var s' := Met(s, u, w);
    assert w !in s.q;
    assert forall v :: v in s'.q ==> v in s.q || (v == w && |s.q| < Q_LEN - 1);
  }

  lemma CloseTurns(s: State, n: int, E: Edges, r: int, u: int, D: set<int>, lost: set<int>)
    requires Examining(s, n, E, r, u, D, lost) && forall w :: (u, w) in E ==> w in D
    ensures 0 <= u < n && |s.c| == n && Turning(Blackened(s, u), n, E, r, lost)
    ensures |Blacks(Blackened(s, u))| == |Blacks(s)| + 1 <= n
  {
    hide Between, Scanning, Few;
    BlacksGrow(s, n, u);
    if lost == {} {
      BlackenBetween(s, n, E, r, u, D);
      if u == r {
        FirstTurn(s, n, E, r, D);
      }
    }
  }

  /** Each turn of the outer loop blackens one more vertex. */
  lemma BlacksGrow(s: State, n: int, u: int)
    requires |s.c| == n && 0 <= u < n && s.c[u] == Grey
    ensures |Blacks(Blackened(s, u))| == |Blacks(s)| + 1 <= n
  {
    BelowSize(n);
    assert Blacks(Blackened(s, u)) == Blacks(s) + {u};
    assert Blacks(Blackened(s, u)) <= Below(n);
    SubsetSize(Blacks(Blackened(s, u)), Below(n));
  }

  /** After the first turn every successor of r waits in the queue. */
  lemma FirstTurn(s: State, n: int, E: Edges, r: int, D: set<int>)
    requires Scanning(s, n, E, r, r, D) && Blacks(s) == {} && |s.q| <= Q_LEN - 1
    requires forall w :: (r, w) in E ==> w in D
    ensures Few(E, r)
  {
    hide Paths, Closed;
    var waiting := set v | v in s.q;
    forall w | w in Successors(E, r)
      ensures w in waiting
    {
      assert (r, w) in E && w in D && Seen(s, w) && w !in Blacks(s);
    }
    DistinctSize(s.q);
    SubsetSize(Successors(E, r), waiting);
  }

  /** The search is right exactly if no vertex was lost: never with at most Q_LEN
      vertices, always when r has Q_LEN successors. */
  lemma EndIs(s: State, n: int, E: Edges, r: int, lost: set<int>)
    requires Turning(s, n, E, r, lost) && s.q == []
    ensures Searched(s, n, E, r) <==> lost == {}
    ensures n <= Q_LEN ==> lost == {}
    ensures !Few(E, r) ==> lost != {}
    ensures forall v <- lost :: 0 <= v < |s.c| && s.c[v] == Grey
  {
    hide Between, Few;
    if lost == {} {
      Finished(s, n, E, r);
    } else {
      NonEmpty(lost);
      var v :| v in lost;
      GreyIsWrong(s, n, E, r, v);
    }
  }

  lemma GreyIsWrong(s: State, n: int, E: Edges, r: int, v: int)
    requires |s.c| == n && 0 <= v < n && s.c[v] == Grey
    ensures !Searched(s, n, E, r)
  {
  }

  /** A star: an edge from vertex 0 to each of n - 1 others.  With one vertex more
      than the queue's length it loses one of them. */
  ghost function Star(n: nat): Edges {
    set w | 1 <= w < n :: (0, w)
  }

  lemma StarIsCrowded(n: nat)
    requires n > Q_LEN
    ensures WellFormed(n, Star(n)) && !Few(Star(n), 0)
  {
    BelowSize(n);
    forall w
      ensures w in Successors(Star(n), 0) <==> w in Below(n) - {0}
    {
      if 1 <= w < n {
        var e := (0, w);
        assert e in Star(n) && e.0 == 0 && e.1 == w;
      }
    }
    assert Successors(Star(n), 0) == Below(n) - {0};
  }

  // ---------- the vertices ----------

  /** The fields of the vertices that a search reads and writes, and its queue. */
  class Vertices {
    const n: nat
    const c: array<Color>
    const d: array<int>
    const p: array<int>
    const queue: RingQueue
    ghost var lost: set<int>     // vertices the queue refused

    ghost predicate Shape()
      reads this, queue
    {
      && c.Length == d.Length == p.Length == n && d != p && queue.q != d && queue.q != p && queue.Valid()
    }

    ghost function Now(): (s: State)
      requires Shape()
      reads this, c, d, p, queue, queue.q
      ensures |s.c| == |s.d| == |s.p| == n
    {
      State(c[..], d[..], p[..], queue.Contents())
    }

    // init_graph
    constructor (n: nat)
      ensures Shape() && this.n == n && fresh(c) && fresh(d) && fresh(p) && fresh(queue) && fresh(queue.q)
      ensures forall v :: 0 <= v < n ==> c[v] == White && d[v] == 0 && p[v] == -1
    {
      this.n := n;
      c := new Color[n](i => White);
      d := new int[n](i => 0);
      p := new int[n](i => -1);
      queue := new RingQueue();
    }

    method Begin(r: int, ghost E: Edges)
      requires Shape() && 0 <= r < n && WellFormed(n, E)
      requires forall v :: 0 <= v < n ==> c[v] == White
      modifies c, d, p, queue, queue.q, this`lost
      ensures Shape() && Turning(Now(), n, E, r, lost) && lost == {} && Now().q == [r] && forall v :: Seen(Now(), v) <==> v == r
    {
      hide Turning;
      c[r] := Grey;
      d[r] := 0;
      p[r] := -1;
      queue.Init();
      var full := queue.Enqueue(r);
      lost := {};
      BeginTurning(Now(), n, E, r);
    }

    method Pop() returns (u: int)
      requires Shape() && Now().q != []
      modifies queue`h
      ensures Shape() && u == old(Now()).q[0] && Now() == Popped(old(Now()))
    {
      u := queue.Dequeue();
    }

    method Touch(u: int, w: int)
      requires Shape() && 0 <= u < n && 0 <= w < n && u != w
      modifies c, d, p, queue`t, queue.q, this`lost
      ensures Shape() && Now() == Met(old(Now()), u, w) && lost == Lost(old(Now()), w, old(lost))
    {
      c[w] := Grey;
      p[w] := u;
      d[w] := d[u] + 1;
      var full := queue.Enqueue(w);    // the result is ignored
      lost := if full == 0 then lost else lost + {w};
    }

    method Blacken(u: int)
      requires Shape() && 0 <= u < n
      modifies c
      ensures Shape() && Now() == Blackened(old(Now()), u)
    {
      c[u] := Black;
    }

    /** The start of a turn of the outer loop. */
    method Next(ghost E: Edges, ghost r: int) returns (u: int)
      requires Shape() && Now().q != [] && Turning(Now(), n, E, r, lost)
      modifies queue`h
      ensures Shape() && 0 <= u < n && Examining(Now(), n, E, r, u, {}, lost)
      ensures u == old(Now()).q[0] && Now() == Popped(old(Now())) && Blacks(Now()) == Blacks(old(Now()))
    {
      hide Turning, Examining;
      NextExamines(Now(), n, E, r, lost);
      u := Pop();
    }

    /** The end of a turn of the outer loop. */
    method Close(u: int, ghost E: Edges, ghost r: int, ghost D: set<int>)
      requires Shape() && 0 <= u < n && Examining(Now(), n, E, r, u, D, lost) && forall w :: (u, w) in E ==> w in D
      modifies c
      ensures Shape() && Turning(Now(), n, E, r, lost) && |Blacks(old(Now()))| < |Blacks(Now())| <= n
      ensures Now() == Blackened(old(Now()), u)
    {
      hide Turning, Examining, Blacks;
      CloseTurns(Now(), n, E, r, u, D, lost);
      Blacken(u);
    }

    /** The discovery of the white vertex w from u. */
    method Meet(u: int, w: int, ghost E: Edges, ghost r: int, ghost D: set<int>)
      requires Shape() && 0 <= u < n && 0 <= w < n && !Seen(Now(), w)
      requires Examining(Now(), n, E, r, u, D, lost) && (u, w) in E
      modifies c, d, p, queue`t, queue.q, this`lost
      ensures Shape() && Now() == Met(old(Now()), u, w) && lost == Lost(old(Now()), w, old(lost))
      ensures Examining(Now(), n, E, r, u, D + {w}, lost)
      ensures Blacks(Now()) == Blacks(old(Now()))
    {
      hide Examining, Met, Blacks, Seen, Lost;
      ghost var s := Now();
      ExaminingFacts(s, n, E, r, u, D, lost, w);
      MeetExamines(s, n, E, r, u, D, lost, w);
      Touch(u, w);
    }
  }

  // ---------- the tree of the search ----------

  /** kids lists exactly the vertices discovered from each vertex. */
  ghost predicate Family(s: State, kids: seq<seq<int>>, r: int) {
    && |s.c| == |s.p| == |kids|
    && forall u, v :: 0 <= u < |kids| ==> Lists(s, kids, r, u, v)
  }

  ghost predicate Lists(s: State, kids: seq<seq<int>>, r: int, u: int, v: int)
    requires |s.c| == |s.p| == |kids| && 0 <= u < |kids|
  {
    v in kids[u] <==> Seen(s, v) && v != r && s.p[v] == u
  }

  lemma FamilyStart(s: State, kids: seq<seq<int>>, r: int)
    requires |s.c| == |s.p| == |kids| && (forall u :: 0 <= u < |kids| ==> kids[u] == []) && forall v :: Seen(s, v) ==> v == r
    ensures Family(s, kids, r)
  {
  }

  lemma FamilyPopped(s: State, kids: seq<seq<int>>, r: int)
    requires Family(s, kids, r) && s.q != []
    ensures Family(Popped(s), kids, r)
  {
    forall u, v | 0 <= u < |kids|
      ensures Lists(Popped(s), kids, r, u, v)
    {
      assert Lists(s, kids, r, u, v);
    }
  }

  lemma FamilyBlackened(s: State, n: int, E: Edges, kids: seq<seq<int>>, r: int, u: int, D: set<int>, lost: set<int>)
    requires Family(s, kids, r) && Examining(s, n, E, r, u, D, lost)
    ensures 0 <= u < |s.c| && s.c[u] != White && Family(Blackened(s, u), kids, r)
  {
    hide Scanning, Few, Between;
    assert Seen(s, u);
    forall x, v | 0 <= x < |kids|
      ensures Lists(Blackened(s, u), kids, r, x, v)
    {
      assert Lists(s, kids, r, x, v);
    }
  }

  lemma FamilyMeets(s: State, kids: seq<seq<int>>, r: int, u: int, w: int, ks: seq<int>)
    requires Family(s, kids, r) && |s.d| == |s.c| && 0 <= u < |s.c| && 0 <= w < |s.c| && !Seen(s, w) && w != r
    requires ks == [w] + kids[u] || ks == kids[u] + [w]
    ensures Family(Met(s, u, w), kids[u := ks], r)
  {
    var kids' := kids[u := ks];
    forall x, v | 0 <= x < |kids'|
      ensures Lists(Met(s, u, w), kids', r, x, v)
    {
      assert Lists(s, kids, r, x, v);
      assert v in ks <==> v == w || v in kids[u];
    }
  }

  lemma WhiteIsUnlisted(s: State, kids: seq<seq<int>>, r: int, w: int)
    requires Family(s, kids, r) && !Seen(s, w)
    ensures !Listed(kids, w)
  {
    forall u | 0 <= u < |kids|
      ensures w !in kids[u]
    {
      assert Lists(s, kids, r, u, w);
    }
  }

  /** As init_graph leaves a graph. */
  ghost predicate Untouched(c: seq<Color>, kids: seq<seq<int>>) {
    (forall v :: 0 <= v < |c| ==> c[v] == White) && forall u :: 0 <= u < |kids| ==> kids[u] == []
  }

  // ---------- the run and the order of the graph ----------

  function VerticesOf(P: seq<Ord.Place>): seq<int> {
    seq(|P|, i requires 0 <= i < |P| => P[i].v)
  }

  /** P is what has been met so far in the order of the graph. */
  ghost predicate Agrees(s: State, adj: Adjacency, P: seq<Ord.Place>, k: nat) {
    && Graph(adj) && Ord.Apart(adj, P) && k <= |P| && |s.c| == |adj|
    && s.q == VerticesOf(P[k..]) && (forall v :: Seen(s, v) <==> Ord.Placed(P, v)) && Ord.Near(P, Q_LEN)
  }

  /** Between two turns, places before k are done; once a vertex is lost, the graph is
      one that loses some. */
  ghost predicate Waits(s: State, adj: Adjacency, r: int, P: seq<Ord.Place>, k: nat, lost: set<int>) {
    && Graph(adj) && 0 <= r < |adj|
    && if lost == {} then Agrees(s, adj, P, k) && Ord.Continued(adj, P, k) == Ord.Order(adj, r)
       else !Ord.Narrow(adj, r, Q_LEN)
  }

  /** During the turn of place k, with its successors ws still to come. */
  ghost predicate Tracks(s: State, adj: Adjacency, r: int, P: seq<Ord.Place>, k: nat, ws: seq<int>, lost: set<int>) {
    && Graph(adj) && 0 <= r < |adj|
    && if lost == {} then
         && Agrees(s, adj, P, k + 1) && Ord.InGraph(adj, ws)
         && Ord.Continued(adj, Ord.MetAll(adj, P, ws, k), k + 1) == Ord.Order(adj, r)
       else !Ord.Narrow(adj, r, Q_LEN)
  }

  lemma WaitsAtFirst(s: State, adj: Adjacency, r: int)
    requires Graph(adj) && 0 <= r < |adj| == |s.c| && s.q == [r] && forall v :: Seen(s, v) <==> v == r
    ensures Waits(s, adj, r, [Ord.Place(r, -1)], 0, {})
  {
    var P := [Ord.Place(r, -1)];
    assert P[0].v == r && P[0..] == P;
    assert VerticesOf(P) == [r];
  }

  lemma WaitsTracks(s: State, adj: Adjacency, r: int, P: seq<Ord.Place>, k: nat, lost: set<int>)
    requires Waits(s, adj, r, P, k, lost) && s.q != [] && 0 <= s.q[0] < |adj|
    ensures Tracks(Popped(s), adj, r, P, k, adj[s.q[0]], lost)
    ensures lost == {} ==> k < |P| && P[k].v == s.q[0]
  {
    if lost == {} {
      AgreesPopped(s, adj, P, k);
      Ord.SuccessorsInGraph(adj, P, k);
    }
  }

  lemma AgreesPopped(s: State, adj: Adjacency, P: seq<Ord.Place>, k: nat)
    requires Agrees(s, adj, P, k) && s.q != []
    ensures k < |P| && s.q[0] == P[k].v && Agrees(Popped(s), adj, P, k + 1)
  {
    assert P[k..][1..] == P[k + 1..];
    assert P[k..][0] == P[k];
    assert VerticesOf(P[k..])[1..] == VerticesOf(P[k + 1..]);
    assert forall v :: Seen(Popped(s), v) <==> Seen(s, v);
  }

  lemma TracksSeen(s: State, adj: Adjacency, r: int, P: seq<Ord.Place>, k: nat, ws: seq<int>, lost: set<int>)
    requires Tracks(s, adj, r, P, k, ws, lost) && ws != [] && Seen(s, ws[0])
    ensures Tracks(s, adj, r, P, k, ws[1..], lost)
  {
    if lost == {} {
      Ord.InGraphTail(adj, ws);
    }
  }

  lemma TracksMet(s: State, adj: Adjacency, r: int, P: seq<Ord.Place>, k: nat, ws: seq<int>, lost: set<int>, u: int)
    requires Tracks(s, adj, r, P, k, ws, lost) && ws != [] && !Seen(s, ws[0])
    requires 0 <= u < |s.c| && 0 <= ws[0] < |s.c| && |s.c| == |s.d| == |s.p|
    ensures Tracks(Met(s, u, ws[0]), adj, r, P + [Ord.Place(ws[0], k)], k, ws[1..], Lost(s, ws[0], lost))
  {
    hide Agrees, Ord.Placed, Ord.Continued, Ord.MetAll, Ord.Order, Ord.Narrow, Ord.Apart, Ord.InGraph, Met, Seen;
    if lost == {} {
      MetIs(s, adj, P, k + 1, ws, k);
      if |s.q| < Q_LEN - 1 {
        AgreesMet(s, adj, P, k, ws[0], u);
      } else {
        TooFar(adj, r, P, k, ws);
      }
    }
  }

  /** The order too gives a place to a vertex the search has not seen. */
  lemma MetIs(s: State, adj: Adjacency, P: seq<Ord.Place>, j: nat, ws: seq<int>, k: nat)
    requires Agrees(s, adj, P, j) && Ord.InGraph(adj, ws) && ws != [] && !Seen(s, ws[0])
    ensures |s.q| == |P| - j && Ord.Apart(adj, P) && 0 <= ws[0] < |adj| && Ord.InGraph(adj, ws[1..])
    ensures var Q := P + [Ord.Place(ws[0], k)];
      Ord.Apart(adj, Q) && Ord.MetAll(adj, P, ws, k) == Ord.MetAll(adj, Q, ws[1..], k)
  {
    Ord.InGraphTail(adj, ws);
    Ord.MetApart(adj, P, ws[0], k);
    QueueIs(s, adj, P, j);
  }

  /** A vertex refused stands too far behind in the order of the graph. */
  lemma TooFar(adj: Adjacency, r: int, P: seq<Ord.Place>, k: nat, ws: seq<int>)
    requires Graph(adj) && 0 <= r < |adj| && ws != [] && Ord.InGraph(adj, ws[1..]) && |P| - k >= Q_LEN
    requires Ord.Apart(adj, P) && Ord.Apart(adj, P + [Ord.Place(ws[0], k)])
    requires Ord.Continued(adj, Ord.MetAll(adj, P + [Ord.Place(ws[0], k)], ws[1..], k), k + 1) == Ord.Order(adj, r)
    ensures !Ord.Narrow(adj, r, Q_LEN)
  {
    hide Ord.Order, Ord.Continued, Ord.MetAll, Ord.Apart, Ord.InGraph;
    var Q := P + [Ord.Place(ws[0], k)];
    var R, O := Ord.MetAll(adj, Q, ws[1..], k), Ord.Order(adj, r);
    assert |Q| <= |R| && R[..|Q|] == Q;
    assert |R| <= |O| && O[..|R|] == R;
    PrefixTwice(Q, R, O);
    assert O[|P|] == Ord.Place(ws[0], k);
  }

  lemma QueueIs(s: State, adj: Adjacency, P: seq<Ord.Place>, k: nat)
    requires Agrees(s, adj, P, k)
    ensures |s.q| == |P| - k
  {
  }

  lemma PrefixTwice(P: seq<Ord.Place>, Q: seq<Ord.Place>, R: seq<Ord.Place>)
    requires |P| <= |Q| <= |R| && Q[..|P|] == P && R[..|Q|] == Q
    ensures R[..|P|] == P && forall i :: 0 <= i < |P| ==> R[i] == P[i]
  {
    assert R[..|P|] == R[..|Q|][..|P|];
    assert forall i :: 0 <= i < |P| ==> R[..|P|][i] == R[i];
  }

  lemma MetSees(s: State, u: int, w: int)
    requires |s.c| == |s.d| == |s.p| && 0 <= u < |s.c| && 0 <= w < |s.c|
    ensures forall v :: Seen(Met(s, u, w), v) <==> Seen(s, v) || v == w
  {
  }

  lemma AgreesMet(s: State, adj: Adjacency, P: seq<Ord.Place>, k: nat, w: int, u: int)
    requires Agrees(s, adj, P, k + 1) && !Seen(s, w) && 0 <= w < |s.c| && 0 <= u < |s.c| && |s.c| == |s.d| == |s.p|
    requires |s.q| < Q_LEN - 1
    ensures Agrees(Met(s, u, w), adj, P + [Ord.Place(w, k)], k + 1)
  {
    hide Ord.Placed;
    var Q, p := P + [Ord.Place(w, k)], Ord.Place(w, k);
    QueueIs(s, adj, P, k + 1);
    Ord.MetApart(adj, P, w, k);
    Ord.PlacedMore(P, p);
    MetSees(s, u, w);
    assert Q[k + 1..] == P[k + 1..] + [p];
    assert VerticesOf(Q[k + 1..]) == VerticesOf(P[k + 1..]) + [w];
  }

  lemma TracksWaits(s: State, adj: Adjacency, r: int, P: seq<Ord.Place>, k: nat, lost: set<int>, u: int)
    requires Tracks(s, adj, r, P, k, [], lost) && 0 <= u < |s.c| && s.c[u] != White
    ensures Waits(Blackened(s, u), adj, r, P, k + 1, lost)
  {
    assert forall v :: Seen(Blackened(s, u), v) <==> Seen(s, v);
  }

  lemma WaitsEnd(s: State, adj: Adjacency, r: int, P: seq<Ord.Place>, k: nat, lost: set<int>)
    requires Waits(s, adj, r, P, k, lost) && s.q == []
    ensures 0 <= r < |adj| && Graph(adj) && (lost == {} <==> Ord.Narrow(adj, r, Q_LEN))
  {
    if lost == {} {
      QueueIs(s, adj, P, k);
    }
  }

  // ---------- the tree and the order of the graph ----------

  /** The list has its members by their places in P, oldest first or newest first. */
  ghost predicate ByPlace(ks: seq<int>, P: seq<Ord.Place>, newest: bool) {
    forall i, j, a, b :: 0 <= i < j < |ks| && 0 <= a < |P| && 0 <= b < |P| && P[a].v == ks[i] && P[b].v == ks[j] ==>
      if newest then b < a else a < b
  }

  /** Each vertex hangs below the one it stands behind in P, and every list of
      children goes by the places in P. */
  ghost predicate Grown(p: seq<int>, kids: seq<seq<int>>, P: seq<Ord.Place>, newest: bool) {
    ParentsPlaced(p, P) && forall u :: 0 <= u < |kids| ==> ByPlace(kids[u], P, newest)
  }

  ghost predicate ParentsPlaced(p: seq<int>, P: seq<Ord.Place>) {
    forall i :: 0 < i < |P| ==> 0 <= P[i].parent < i && 0 <= P[i].v < |p| && p[P[i].v] == P[P[i].parent].v
  }

  lemma GrownStart(p: seq<int>, kids: seq<seq<int>>, r: int, newest: bool)
    requires forall u :: 0 <= u < |kids| ==> kids[u] == []
    ensures Grown(p, kids, [Ord.Place(r, -1)], newest)
  {
  }

  lemma ByPlaceMore(ks: seq<int>, P: seq<Ord.Place>, newest: bool, w: int, k: nat)
    requires ByPlace(ks, P, newest) && w !in ks
    ensures ByPlace(ks, P + [Ord.Place(w, k)], newest)
  {
    assert forall i :: 0 <= i < |ks| ==> ks[i] in ks;
  }

  lemma ByPlaceNew(ks: seq<int>, P: seq<Ord.Place>, newest: bool, w: int, k: nat)
    requires ByPlace(ks, P, newest) && w !in ks && !Ord.Placed(P, w)
    ensures ByPlace(if newest then [w] + ks else ks + [w], P + [Ord.Place(w, k)], newest)
  {
    var all, Q := if newest then [w] + ks else ks + [w], P + [Ord.Place(w, k)];
    ByPlaceMore(ks, P, newest, w, k);
    assert forall i :: 0 <= i < |ks| ==> ks[i] in ks;
    assert forall a :: 0 <= a < |P| ==> P[a].v != w;
  }

  lemma GrownMet(p: seq<int>, kids: seq<seq<int>>, P: seq<Ord.Place>, newest: bool, u: int, w: int, k: nat)
    requires Grown(p, kids, P, newest) && !Listed(kids, w) && !Ord.Placed(P, w)
    requires k < |P| && P[k].v == u && 0 <= u < |kids| && 0 <= w < |p|
    ensures Grown(p[w := u], kids[u := if newest then [w] + kids[u] else kids[u] + [w]], P + [Ord.Place(w, k)], newest)
  {
    hide ByPlace;
    NotIn(kids, w);
    ByPlaceNew(kids[u], P, newest, w, k);
    forall x | 0 <= x < |kids| && x != u
      ensures ByPlace(kids[x], P + [Ord.Place(w, k)], newest)
    {
      ByPlaceMore(kids[x], P, newest, w, k);
    }
    ParentsMet(p, P, u, w, k);
  }

  lemma ParentsMet(p: seq<int>, P: seq<Ord.Place>, u: int, w: int, k: nat)
    requires ParentsPlaced(p, P) && !Ord.Placed(P, w) && k < |P| && P[k].v == u && 0 <= w < |p|
    ensures ParentsPlaced(p[w := u], P + [Ord.Place(w, k)])
  {
    assert forall a :: 0 <= a < |P| ==> P[a].v != w;
  }

  /** While no vertex is lost, the tree grows as the order does; P[k] is u. */
  ghost predicate Growing(p: seq<int>, kids: seq<seq<int>>, P: seq<Ord.Place>, newest: bool, lost: set<int>, k: nat, u: int) {
    lost == {} ==> Grown(p, kids, P, newest) && k < |P| && P[k].v == u
  }

  lemma GrowingMet(s: State, adj: Adjacency, r: int, ws: seq<int>, kids: seq<seq<int>>, P: seq<Ord.Place>, newest: bool,
                   lost: set<int>, k: nat, u: int)
    requires Growing(s.p, kids, P, newest, lost, k, u) && Tracks(s, adj, r, P, k, ws, lost) && ws != []
    requires !Listed(kids, ws[0]) && !Seen(s, ws[0]) && 0 <= ws[0] < |s.c|
    requires |s.c| == |s.d| == |s.p| == |kids| && 0 <= u < |kids|
    ensures var w := ws[0];
      Growing(Met(s, u, w).p, kids[u := if newest then [w] + kids[u] else kids[u] + [w]], P + [Ord.Place(w, k)], newest,
              Lost(s, w, lost), k, u)
  {
    hide Grown, Ord.Continued, Ord.MetAll, Ord.Order, Ord.Narrow, Ord.Apart, Ord.InGraph;
    if Lost(s, ws[0], lost) == {} {
      GrownMet(s.p, kids, P, newest, u, ws[0], k);
    }
  }

  /** With no vertex lost, what has been met at the end is the whole order. */
  lemma OrderMet(s: State, adj: Adjacency, r: int, P: seq<Ord.Place>, k: nat)
    requires Waits(s, adj, r, P, k, {}) && s.q == []
    ensures Graph(adj) && 0 <= r < |adj| && P == Ord.Order(adj, r)
  {
    QueueIs(s, adj, P, k);
  }

  // ---------- over adjacency lists ----------

  ghost function EdgesOf(adj: Adjacency): Edges
    requires Graph(adj)
  {
    set x, i | 0 <= x < |adj| && 0 <= i < |adj[x]| :: (x, adj[x][i])
  }

  /** What a search from r leaves: the reachable vertices black, each at its
      distance and one edge beyond its parent, the others white. */
  ghost predicate Searched(s: State, n: int, E: Edges, r: int) {
    && |s.c| == |s.d| == |s.p| == n && 0 <= r < n && s.p[r] == -1
    && (forall v :: 0 <= v < n && s.c[v] == Black && v != r ==>
          0 <= s.p[v] < n && s.c[s.p[v]] == Black && (s.p[v], v) in E && s.d[v] == s.d[s.p[v]] + 1)
    && (forall v :: 0 <= v < n ==> s.c[v] == if Reachable(E, r, v) then Black else White)
    && (forall v :: 0 <= v < n && Reachable(E, r, v) ==> Distance(E, r, v, s.d[v]))
  }

  lemma Finished(s: State, n: int, E: Edges, r: int)
    requires Between(s, n, E, r) && s.q == []
    ensures Searched(s, n, E, r)
  {
    hide Queue, Waiting, Closed;
    EmptyQueueDone(s, n, E, r);
    assert forall v :: 0 <= v < n && s.c[v] == Black ==> Seen(s, v);
  }

  /** Two searches of the same edges from the same vertex find the same distances. */
  lemma SameDistances(s: State, s': State, n: int, E: Edges, r: int, v: int)
    requires Searched(s, n, E, r) && Searched(s', n, E, r) && 0 <= v < n
    ensures s.c[v] == s'.c[v] && (s.c[v] == Black ==> s.d[v] == s'.d[v])
  {
    if Reachable(E, r, v) {
      DistanceUnique(E, r, v, s.d[v], s'.d[v]);
    }
  }

  class ListGraph {
    var adj: Adjacency
    const v: Vertices
    const tree: Children

    ghost predicate Shape()
      reads this, v, v.queue, tree, tree.first, tree.sibling
    {
      && Graph(adj) && |adj| == v.n && v.Shape() && tree.Valid() && tree.first.Length == v.n
      && {tree.first, tree.sibling} !! {v.d, v.p, v.queue.q}
    }

    // init_graph
    constructor (n: nat)
      ensures Shape() && EdgesOf(adj) == {} && v.n == n && fresh(v) && fresh(tree)
      ensures Untouched(v.c[..], tree.kids)
    {
      adj := seq(n, i => []);
      v := new Vertices(n);
      tree := new Children(n);
    }

    /** The reading of one edge in creat_graph: it goes to the front of its list. */
    method AddEdge(x: int, y: int)
      requires Shape() && 0 <= x < v.n && 0 <= y < v.n
      modifies this`adj
      ensures Shape() && EdgesOf(adj) == old(EdgesOf(adj)) + {(x, y)}
      ensures adj == old(adj)[x := [y] + old(adj)[x]]
    {
      ghost var before := adj;
      adj := adj[x := [y] + adj[x]];
      EdgeAdded(before, x, y);
    }

    /** The inner loop of breadth_first_search, over the list of u. */
    method Scan(u: int, ghost E: Edges, ghost r: int, ghost P0: seq<Ord.Place>, ghost k: nat)
      returns (ghost D: set<int>, ghost P: seq<Ord.Place>)
      requires Shape() && 0 <= u < v.n && E == EdgesOf(adj) && Examining(v.Now(), v.n, E, r, u, {}, v.lost)
      requires Family(v.Now(), tree.kids, r) && Tracks(v.Now(), adj, r, P0, k, adj[u], v.lost)
      requires Growing(v.Now().p, tree.kids, P0, true, v.lost, k, u)
      modifies v.c, v.d, v.p, v.queue`t, v.queue.q, v`lost, tree`kids, tree.first, tree.sibling
      ensures Shape() && Examining(v.Now(), v.n, E, r, u, D, v.lost) && Blacks(v.Now()) == Blacks(old(v.Now()))
      ensures Family(v.Now(), tree.kids, r) && Tracks(v.Now(), adj, r, P, k, [], v.lost)
      ensures Growing(v.Now().p, tree.kids, P, true, v.lost, k, u)
      ensures forall w :: (u, w) in E ==> w in D
    {
      hide Examining, Blacks, Family, LinksOk, Seen, Listed, Met, Tracks, Lost, Growing;
      var i := 0;
      D, P := {}, P0;
      assert adj[u][0..] == adj[u];
      while i < |adj[u]|
        invariant Shape() && Examining(v.Now(), v.n, E, r, u, D, v.lost) && 0 <= i <= |adj[u]|
        invariant Blacks(v.Now()) == Blacks(old(v.Now())) && Family(v.Now(), tree.kids, r)
        invariant forall j :: 0 <= j < i ==> adj[u][j] in D
        invariant Tracks(v.Now(), adj, r, P, k, adj[u][i..], v.lost)
        invariant Growing(v.Now().p, tree.kids, P, true, v.lost, k, u)
      {
        var w := adj[u][i];
        assert (u, w) in E;
        assert adj[u][i..][1..] == adj[u][i + 1..];
        ExaminingFacts(v.Now(), v.n, E, r, u, D, v.lost, w);
        LinkSizes(tree.first[..], tree.sibling[..], tree.kids);
        if v.c[w] == White {
          ghost var s, kids := v.Now(), tree.kids;
          WhiteIsUnlisted(s, kids, r, w);
          FamilyMeets(s, kids, r, u, w, [w] + kids[u]);
          TracksMet(s, adj, r, P, k, adj[u][i..], v.lost, u);
          GrowingMet(s, adj, r, adj[u][i..], kids, P, true, v.lost, k, u);
          P := P + [Ord.Place(w, k)];
          tree.PutFirst(u, w);
          v.Meet(u, w, E, r, D);
        } else {
          TracksSeen(v.Now(), adj, r, P, k, adj[u][i..], v.lost);
        }
        D := D + {w};
        i := i + 1;
      }
      assert adj[u][i..] == [];
    }

    /** breadth_first_search on an untouched graph: right exactly if in breadth-first
        order no vertex stands Q_LEN or more places behind the one it is met from.
        Vertices the full queue refused stay grey. */
    method Search(r: int)
      requires Shape() && 0 <= r < v.n && Untouched(v.c[..], tree.kids)
      modifies v.c, v.d, v.p, v.queue, v.queue.q, v`lost, tree`kids, tree.first, tree.sibling
      ensures Shape() && Family(v.Now(), tree.kids, r)
      ensures Searched(v.Now(), v.n, EdgesOf(adj), r) <==> Ord.Narrow(adj, r, Q_LEN)
      ensures Searched(v.Now(), v.n, EdgesOf(adj), r) <==> v.lost == {}
      ensures v.n <= Q_LEN ==> v.lost == {}
      ensures !Few(EdgesOf(adj), r) ==> v.lost != {}
      ensures forall x <- v.lost :: 0 <= x < v.n && v.c[x] == Grey
      ensures v.lost == {} ==> Grown(v.p[..], tree.kids, Ord.Order(adj, r), true)
    {
      hide Turning, Examining, Searched, EdgesOf, Family, LinksOk, Seen, Few, Waits, Tracks, Ord.Narrow, Ord.Order, Popped, Blackened, Grown;
      ghost var E := EdgesOf(adj);
      EdgesFit(adj);
      LinkSizes(tree.first[..], tree.sibling[..], tree.kids);
      v.Begin(r, E);
      FamilyStart(v.Now(), tree.kids, r);
      WaitsAtFirst(v.Now(), adj, r);
      GrownStart(v.Now().p, tree.kids, r, true);
      ghost var P, k := [Ord.Place(r, -1)], 0;
      var empty := v.queue.IsEmpty();
      while !empty
        invariant Shape() && Turning(v.Now(), v.n, E, r, v.lost) && Family(v.Now(), tree.kids, r)
        invariant empty == (v.Now().q == []) && Waits(v.Now(), adj, r, P, k, v.lost)
        invariant v.lost == {} ==> Grown(v.Now().p, tree.kids, P, true)
        decreases v.n - |Blacks(v.Now())|
      {
        FamilyPopped(v.Now(), tree.kids, r);
        FirstWaiting(v.Now(), v.n, E, r, v.lost);
        WaitsTracks(v.Now(), adj, r, P, k, v.lost);
        var u := v.Next(E, r);
        ghost var D;
        D, P := Scan(u, E, r, P, k);
        FamilyBlackened(v.Now(), v.n, E, tree.kids, r, u, D, v.lost);
        TracksWaits(v.Now(), adj, r, P, k, v.lost, u);
        k := k + 1;
        v.Close(u, E, r, D);
        empty := v.queue.IsEmpty();
      }
      WaitsEnd(v.Now(), adj, r, P, k, v.lost);
      if v.lost == {} {
        OrderMet(v.Now(), adj, r, P, k);
      }
      EndIs(v.Now(), v.n, E, r, v.lost);
    }
  }

  lemma EdgesFit(adj: Adjacency)
    requires Graph(adj)
    ensures WellFormed(|adj|, EdgesOf(adj))
  {
  }

  lemma EdgeAdded(adj: Adjacency, x: int, y: int)
    requires Graph(adj) && 0 <= x < |adj| && 0 <= y < |adj|
    ensures Graph(adj[x := [y] + adj[x]]) && EdgesOf(adj[x := [y] + adj[x]]) == EdgesOf(adj) + {(x, y)}
  {
    var adj' := adj[x := [y] + adj[x]];
    forall e | e in EdgesOf(adj) + {(x, y)}
      ensures e in EdgesOf(adj')
    {
      if e == (x, y) {
        assert adj'[x][0] == y;
      } else {
        var a, i :| 0 <= a < |adj| && 0 <= i < |adj[a]| && e == (a, adj[a][i]);
        assert adj'[a][if a == x then i + 1 else i] == adj[a][i];
      }
    }
    forall e | e in EdgesOf(adj')
      ensures e in EdgesOf(adj) + {(x, y)}
    {
      var a, i :| 0 <= a < |adj'| && 0 <= i < |adj'[a]| && e == (a, adj'[a][i]);
      if a == x && i > 0 {
        assert adj'[a][i] == adj[a][i - 1];
      }
    }
  }
}
