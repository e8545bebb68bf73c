/** The child links of a breadth-first tree: each vertex points at its first child,
    and children of one vertex are linked as siblings. */
module ChildLinks {

  function At(ks: seq<int>, i: int): int {
    if 0 <= i < |ks| then ks[i] else -1
  }

  /** kids[u] are the children of u in the order of the links; no vertex is listed
      twice, and one that is not listed has no sibling behind it. */
  ghost predicate LinksOk(first: seq<int>, sibling: seq<int>, kids: seq<seq<int>>) {
    && |first| == |sibling| == |kids| && Apart(kids)
    && (forall u :: 0 <= u < |kids| ==> first[u] == At(kids[u], 0) && SiblingsOk(sibling, kids[u]))
    && (forall v :: 0 <= v < |kids| && !Listed(kids, v) ==> sibling[v] == -1)
  }

  ghost predicate SiblingsOk(sibling: seq<int>, ks: seq<int>) {
    forall i :: 0 <= i < |ks| ==> 0 <= ks[i] < |sibling| && sibling[ks[i]] == At(ks, i + 1)
  }

  /** No vertex is listed twice. */
  ghost predicate Apart(kids: seq<seq<int>>) {
    && (forall u, i, j :: 0 <= u < |kids| && 0 <= i < j < |kids[u]| ==> kids[u][i] != kids[u][j])
    && (forall u, w, v :: 0 <= u < w < |kids| && v in kids[u] ==> v !in kids[w])
  }

  ghost predicate Listed(kids: seq<seq<int>>, v: int) {
    exists u :: 0 <= u < |kids| && v in kids[u]
  }

  /** last points at the last child of each vertex. */
  ghost predicate LastOk(last: seq<int>, kids: seq<seq<int>>) {
    |last| == |kids| && forall u :: 0 <= u < |kids| ==> last[u] == At(kids[u], |kids[u]| - 1)
  }

  lemma ListedAfter(kids: seq<seq<int>>, u: int, ks: seq<int>, w: int)
    requires 0 <= u < |kids| && forall v :: v in ks <==> v == w || v in kids[u]
    ensures forall v :: Listed(kids[u := ks], v) <==> v == w || Listed(kids, v)
  {
    var kids' := kids[u := ks];
    forall v | v == w || Listed(kids, v)
      ensures Listed(kids', v)
    {
      if v == w {
        assert v in kids'[u];
      } else {
        var x :| 0 <= x < |kids| && v in kids[x];
        assert v in kids'[x];
      }
    }
  }

  lemma ApartAfter(kids: seq<seq<int>>, u: int, ks: seq<int>, w: int)
    requires Apart(kids) && 0 <= u < |kids| && !Listed(kids, w) && (ks == [w] + kids[u] || ks == kids[u] + [w])
    ensures Apart(kids[u := ks])
    ensures forall v :: v in ks <==> v == w || v in kids[u]
  {
    assert forall v :: v in ks <==> v == w || v in kids[u];
    assert forall i :: 0 <= i < |kids[u]| ==> kids[u][i] in kids[u];
    assert w !in kids[u];
  }

  /** Changing the sibling of a vertex that is in no other list. */
  lemma SiblingsSame(sibling: seq<int>, ks: seq<int>, v: int, x: int)
    requires SiblingsOk(sibling, ks) && 0 <= v < |sibling| && v !in ks
    ensures SiblingsOk(sibling[v := x], ks)
  {
    assert forall i :: 0 <= i < |ks| ==> ks[i] in ks;
  }

  lemma SiblingsFirst(sibling: seq<int>, ks: seq<int>, w: int)
    requires SiblingsOk(sibling, ks) && 0 <= w < |sibling| && w !in ks && sibling[w] == -1
    ensures SiblingsOk(if At(ks, 0) != -1 then sibling[w := At(ks, 0)] else sibling, [w] + ks)
  {
    var all := [w] + ks;
    assert forall i :: 0 < i < |all| ==> all[i] == ks[i - 1] && ks[i - 1] in ks;
    assert ks != [] ==> At(ks, 0) != -1;
  }

  lemma SiblingsLast(sibling: seq<int>, ks: seq<int>, w: int)
    requires SiblingsOk(sibling, ks) && 0 <= w < |sibling| && w !in ks && sibling[w] == -1 && ks != []
    requires forall i, j :: 0 <= i < j < |ks| ==> ks[i] != ks[j]
    ensures SiblingsOk(sibling[ks[|ks| - 1] := w], ks + [w])
  {
    var all := ks + [w];
    assert forall i :: 0 <= i < |ks| ==> all[i] == ks[i] && ks[i] in ks;
  }

  lemma PutFirstOk(first: seq<int>, sibling: seq<int>, kids: seq<seq<int>>, u: int, w: int)
    requires LinksOk(first, sibling, kids) && 0 <= u < |kids| && 0 <= w < |kids| && !Listed(kids, w)
    ensures LinksOk(first[u := w], if first[u] != -1 then sibling[w := first[u]] else sibling, kids[u := [w] + kids[u]])
  {
    hide SiblingsOk, Apart, Listed;
    var ks := [w] + kids[u];
    var sibling' := if first[u] != -1 then sibling[w := first[u]] else sibling;
    NotIn(kids, w);
    ApartAfter(kids, u, ks, w);
    ListedAfter(kids, u, ks, w);
    var kids' := kids[u := ks];
    forall x | 0 <= x < |kids|
      ensures SiblingsOk(sibling', kids'[x])
    {
      if x == u {
        SiblingsFirst(sibling, kids[u], w);
      } else {
        SiblingsSame(sibling, kids[x], w, first[u]);
      }
    }
  }

  lemma NotIn(kids: seq<seq<int>>, w: int)
    requires !Listed(kids, w)
    ensures forall x :: 0 <= x < |kids| ==> w !in kids[x]
  {
  }

  lemma LastIs(first: seq<int>, last: seq<int>, sibling: seq<int>, kids: seq<seq<int>>, u: int)
    requires LinksOk(first, sibling, kids) && LastOk(last, kids) && 0 <= u < |kids|
    ensures first[u] == -1 <==> kids[u] == []
    ensures last[u] == -1 <==> kids[u] == []
    ensures kids[u] != [] ==> 0 <= last[u] < |kids| && last[u] == kids[u][|kids[u]| - 1] && Listed(kids, last[u])
    ensures kids[u] != [] ==> forall x :: 0 <= x < |kids| && x != u ==> last[u] !in kids[x]
    ensures forall i, j :: 0 <= i < j < |kids[u]| ==> kids[u][i] != kids[u][j]
  {
    assert SiblingsOk(sibling, kids[u]);
    if kids[u] != [] {
      assert last[u] in kids[u];
    }
  }

  lemma PutLastOk(first: seq<int>, last: seq<int>, sibling: seq<int>, kids: seq<seq<int>>, u: int, w: int)
    requires LinksOk(first, sibling, kids) && LastOk(last, kids) && 0 <= u < |kids| && 0 <= w < |kids| && !Listed(kids, w)
    ensures first[u] == -1 <==> kids[u] == []
    ensures last[u] == -1 <==> kids[u] == []
    ensures kids[u] != [] ==> 0 <= last[u] < |kids|
    ensures LinksOk(if kids[u] == [] then first[u := w] else first, if kids[u] == [] then sibling else sibling[last[u] := w], kids[u := kids[u] + [w]])
    ensures LastOk(last[u := w], kids[u := kids[u] + [w]])
  {
    hide SiblingsOk, Apart, Listed;
    var ks := kids[u] + [w];
    LastIs(first, last, sibling, kids, u);
    var sibling' := if kids[u] == [] then sibling else sibling[last[u] := w];
    NotIn(kids, w);
    ApartAfter(kids, u, ks, w);
    ListedAfter(kids, u, ks, w);
    var kids' := kids[u := ks];
    forall x | 0 <= x < |kids|
      ensures SiblingsOk(sibling', kids'[x])
    {
      if x == u {
        if kids[u] == [] {
          SiblingsFirst(sibling, kids[u], w);
          assert ks == [w] + kids[u];
        } else {
          SiblingsLast(sibling, kids[u], w);
        }
      } else if kids[u] != [] {
        SiblingsSame(sibling, kids[x], last[u], w);
      }
    }
  }

  class Children {
    const first: array<int>
    const last: array<int>     // kept by matrix_graph.c only
    const sibling: array<int>
    ghost var kids: seq<seq<int>>

    ghost predicate Valid()
      reads this, first, sibling
    {
      && first != sibling && first != last && last != sibling && last.Length == first.Length
      && LinksOk(first[..], sibling[..], kids)
    }

    constructor (n: nat)
      ensures Valid() && LastOk(last[..], kids) && first.Length == n && fresh(first) && fresh(last) && fresh(sibling)
      ensures forall u :: 0 <= u < n ==> kids[u] == []
    {
      first, last, sibling := new int[n](_ => -1), new int[n](_ => -1), new int[n](_ => -1);
      kids := seq(n, _ => []);
    }

    /** The linking of graph/adjacent_list.c: the new child goes first. */
    method PutFirst(u: int, w: int)
      requires Valid() && 0 <= u < first.Length && 0 <= w < first.Length && !Listed(kids, w)
      modifies this`kids, first, sibling
      ensures Valid() && kids == old(kids)[u := [w] + old(kids)[u]]
    {
      hide LinksOk;
      LinkSizes(first[..], sibling[..], kids);
      PutFirstOk(first[..], sibling[..], kids, u, w);
      if first[u] != -1 {
        sibling[w] := first[u];
      }
      first[u] := w;
      kids := kids[u := [w] + kids[u]];
    }

    /** The linking of graph/matrix_graph.c: the new child goes last. */
    method PutLast(u: int, w: int)
      requires Valid() && LastOk(last[..], kids) && 0 <= u < first.Length && 0 <= w < first.Length && !Listed(kids, w)
      modifies this`kids, first, last, sibling
      ensures Valid() && LastOk(last[..], kids) && kids == old(kids)[u := old(kids)[u] + [w]]
    {
      hide LinksOk, LastOk;
      LinkSizes(first[..], sibling[..], kids);
      PutLastOk(first[..], last[..], sibling[..], kids, u, w);
      if first[u] == -1 && last[u] == -1 {
        first[u] := w;
      } else {
        sibling[last[u]] := w;
      }
      last[u] := w;
      kids := kids[u := kids[u] + [w]];
    }
  }

  lemma LinkSizes(first: seq<int>, sibling: seq<int>, kids: seq<seq<int>>)
    requires LinksOk(first, sibling, kids)
    ensures |first| == |sibling| == |kids|
  {
  }
}
