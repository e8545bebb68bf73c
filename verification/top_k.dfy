/** The k largest elements of an array, found by partitioning and found with a
    heap: algorithm/kbig_with_heap_sort.c. */
module TopK {

  // ---------- the k largest ----------

  function Size(k: int, n: nat): nat {
    if k <= 0 then 0 else if k < n then k else n
  }

  /** top holds k largest elements of all, or all of them when there are no more. */
  ghost predicate IsTop(top: multiset<int>, all: multiset<int>, k: int) {
    && top <= all && |top| == Size(k, |all|)
    && forall x, y :: x in top && y in all - top ==> y <= x
  }

  lemma TopApart(s: multiset<int>, t: multiset<int>, all: multiset<int>, k: int, x: int, y: int)
    requires IsTop(s, all, k) && IsTop(t, all, k) && s[x] > t[x]
    ensures t[y] <= s[y]
  {
    assert x in s && x in all - t;
    assert t[y] > s[y] ==> y in t && y in all - s;
  }

  lemma SameSizeSubset(s: multiset<int>, t: multiset<int>)
    requires s <= t && |s| == |t|
    ensures s == t
  {
    assert |t - s| == 0;
    assert t == s + (t - s);
  }

  /** There is only one such multiset. */
  lemma TopUnique(s: multiset<int>, t: multiset<int>, all: multiset<int>, k: int)
    requires IsTop(s, all, k) && IsTop(t, all, k)
    ensures s == t
  {
    if x :| s[x] > t[x] {
      forall y
        ensures t[y] <= s[y]
      {
        TopApart(s, t, all, k, x, y);
      }
      assert t <= s;
      SameSizeSubset(t, s);
    } else {
      forall x
        ensures s[x] <= t[x]
      {
      }
      assert s <= t;
      SameSizeSubset(s, t);
    }
  }

  ghost predicate Below(m: multiset<int>, p: int) {
    forall x :: x in m ==> x < p
  }

  ghost predicate AtLeast(m: multiset<int>, p: int) {
    forall x :: x in m ==> x >= p
  }

  lemma TopIsRight(left: multiset<int>, p: int, right: multiset<int>, all: multiset<int>)
    requires all == left + multiset{p} + right
    requires Below(left, p) && AtLeast(right, p)
    ensures IsTop(right, all, |right|)
  {
    assert all - right == left + multiset{p};
  }

  lemma TopInRight(left: multiset<int>, p: int, right: multiset<int>, all: multiset<int>, top: multiset<int>, k: int)
    requires all == left + multiset{p} + right && IsTop(top, right, k) && k < |right|
    requires Below(left, p) && AtLeast(right, p)
    ensures IsTop(top, all, k)
  {
    assert all - top == left + multiset{p} + (right - top);
    assert forall x :: x in top ==> x in right;
  }

  lemma TopInLeft(left: multiset<int>, p: int, right: multiset<int>, all: multiset<int>, top: multiset<int>, k: int)
    requires all == left + multiset{p} + right && k > |right| && IsTop(top, left, k - |right| - 1)
    requires Below(left, p) && AtLeast(right, p)
    ensures IsTop(multiset{p} + right + top, all, k)
  {
    assert all - (multiset{p} + right + top) == left - top;
    assert forall x :: x in left - top ==> x in left;
  }

  // ---------- partitioning ----------

  /** t is s with the elements from lo to hi in another order. */
  ghost predicate Rearranged(s: seq<int>, t: seq<int>, lo: nat, hi: nat)
    requires lo <= hi <= |s|
  {
    && |t| == |s| && multiset(t[lo..hi]) == multiset(s[lo..hi])
    && t[..lo] == s[..lo] && t[hi..] == s[hi..]
  }

  function Swapped(s: seq<int>, i: nat, j: nat): seq<int>
    requires i < |s| && j < |s|
  {
    s[i := s[j]][j := s[i]]
  }

  lemma SwapRearranges(s: seq<int>, t: seq<int>, lo: nat, hi: nat, i: nat, j: nat)
    requires lo <= i < hi <= |s| && lo <= j < hi && Rearranged(s, t, lo, hi)
    ensures Rearranged(s, Swapped(t, i, j), lo, hi)
  {
    var u := t[lo..hi];
    assert Swapped(t, i, j)[lo..hi] == u[i - lo := u[j - lo]][j - lo := u[i - lo]];
  }

  method Swap(a: array<int>, i: nat, j: nat)
    requires i < a.Length && j < a.Length
    modifies a
    ensures a[..] == Swapped(old(a[..]), i, j)
  {
    if i == j {
      return;
    }
    var tmp := a[i];
    a[i] := a[j];
    a[j] := tmp;
  }

  /** Up to lo + last below p, from there to lo + i not; p still comes last. */
  ghost predicate Sides(t: seq<int>, lo: nat, len: nat, last: int, i: int, p: int)
    requires -1 <= last < i <= len && 0 < len && lo + len <= |t|
  {
    && t[lo + len - 1] == p
    && (forall j :: lo <= j <= lo + last ==> t[j] < p)
    && (forall j :: lo + last < j < lo + i ==> t[j] >= p)
  }

  lemma SidesSwap(t: seq<int>, lo: nat, len: nat, last: int, i: nat, p: int)
    requires -1 <= last < i < len && lo + len <= |t| && Sides(t, lo, len, last, i, p) && t[lo + i] < p
    ensures i < len - 1
    ensures Sides(Swapped(t, lo + last + 1, lo + i), lo, len, last + 1, i + 1, p)
  {
  }

  /** The elements of the part around its kp-th. */
  ghost predicate Around(t: seq<int>, lo: nat, len: nat, kp: nat)
    requires kp < len && lo + len <= |t|
  {
    && (forall j :: lo <= j < lo + kp ==> t[j] < t[lo + kp])
    && (forall j :: lo + kp < j < lo + len ==> t[j] >= t[lo + kp])
  }

  lemma SidesEnd(t: seq<int>, lo: nat, last: int, len: nat, p: int)
    requires -1 <= last < len && 0 < len && lo + len <= |t| && Sides(t, lo, len, last, len, p)
    ensures last < len - 1
    ensures Around(Swapped(t, lo + last + 1, lo + len - 1), lo, len, last + 1)
  {
  }

  /** Where the partition loop stands. */
  ghost predicate Parting(s: seq<int>, t: seq<int>, lo: nat, len: nat, last: int, i: int, p: int) {
    && -1 <= last < i <= len && 0 < len && lo + len <= |s|
    && Rearranged(s, t, lo, lo + len) && Sides(t, lo, len, last, i, p)
  }

  lemma PartingStarts(s: seq<int>, lo: nat, len: nat)
    requires 0 < len && lo + len <= |s|
    ensures Parting(s, s, lo, len, -1, 0, s[lo + len - 1])
  {
    SameRearranged(s, lo, lo + len);
    NoSides(s, lo, len);
  }

  lemma PartingTurns(s: seq<int>, t: seq<int>, lo: nat, len: nat, last: int, i: int, p: int)
    requires Parting(s, t, lo, len, last, i, p) && i < len
    ensures |t| == |s|
    ensures if t[lo + i] < p then Parting(s, Swapped(t, lo + last + 1, lo + i), lo, len, last + 1, i + 1, p)
            else Parting(s, t, lo, len, last, i + 1, p)
  {
    hide Swapped, Sides;
    if t[lo + i] < p {
      SidesSwap(t, lo, len, last, i, p);
      SwapRearranges(s, t, lo, lo + len, lo + last + 1, lo + i);
    } else {
      SidesNext(t, lo, len, last, i, p);
    }
  }

  lemma PartingEnds(s: seq<int>, t: seq<int>, lo: nat, len: nat, last: int, p: int)
    requires Parting(s, t, lo, len, last, len, p)
    ensures |t| == |s| && lo + len <= |s| && last < len - 1
    ensures var u := Swapped(t, lo + last + 1, lo + len - 1);
      Rearranged(s, u, lo, lo + len) && Around(u, lo, len, last + 1)
  {
    hide Swapped, Sides, Around;
    SidesEnd(t, lo, last, len, p);
    SwapRearranges(s, t, lo, lo + len, lo + last + 1, lo + len - 1);
  }

  /** kpartition on the len elements from lo. */
  method Partition(a: array<int>, lo: nat, len: nat) returns (kp: nat)
    requires 0 < len && lo + len <= a.Length
    modifies a
    ensures kp < len && Rearranged(old(a[..]), a[..], lo, lo + len) && Around(a[..], lo, len, kp)
  {
    hide Rearranged, Swapped, Parting, Around;
    var p := a[lo + len - 1];
    var last := -1;
    var i := 0;
    ghost var s := a[..];
    PartingStarts(s, lo, len);
    while i < len
      invariant -1 <= last < i <= len && Parting(s, a[..], lo, len, last, i, p)
    {
      PartingTurns(s, a[..], lo, len, last, i, p);
      if a[lo + i] < p {
        last := last + 1;
        Swap(a, lo + last, lo + i);
      }
      i := i + 1;
    }
    PartingEnds(s, a[..], lo, len, last, p);
    last := last + 1;
    Swap(a, lo + last, lo + len - 1);
    kp := last;
  }

  lemma NoSides(t: seq<int>, lo: nat, len: nat)
    requires 0 < len && lo + len <= |t|
    ensures Sides(t, lo, len, -1, 0, t[lo + len - 1])
  {
  }

  lemma SidesNext(t: seq<int>, lo: nat, len: nat, last: int, i: nat, p: int)
    requires -1 <= last < i < len && lo + len <= |t| && Sides(t, lo, len, last, i, p) && t[lo + i] >= p
    ensures Sides(t, lo, len, last, i + 1, p)
  {
  }

  lemma SameRearranged(s: seq<int>, lo: nat, hi: nat)
    requires lo <= hi <= |s|
    ensures Rearranged(s, s, lo, hi)
  {
  }

  /** Rearranging a part rearranges the whole. */
  lemma PartRearranged(s: seq<int>, t: seq<int>, u: seq<int>, lo: nat, hi: nat, from: nat, to: nat)
    requires lo <= from <= to <= hi <= |s| && Rearranged(s, t, lo, hi) && Rearranged(t, u, from, to)
    ensures Rearranged(s, u, lo, hi)
  {
    assert t[lo..hi] == t[lo..from] + t[from..to] + t[to..hi];
    assert u[lo..hi] == u[lo..from] + u[from..to] + u[to..hi];
    assert u[lo..from] == u[..from][lo..] && t[lo..from] == t[..from][lo..];
    assert u[to..hi] == u[to..][..hi - to] && t[to..hi] == t[to..][..hi - to];
    assert u[..lo] == u[..from][..lo] && t[..lo] == t[..from][..lo];
    assert u[hi..] == u[to..][hi - to..] && t[hi..] == t[to..][hi - to..];
  }

  lemma Parts(s: seq<int>, kp: nat)
    requires kp < |s|
    ensures multiset(s) == multiset(s[..kp]) + multiset{s[kp]} + multiset(s[kp + 1..])
    ensures multiset(s[kp..]) == multiset{s[kp]} + multiset(s[kp + 1..])
  {
    assert s[kp..] == [s[kp]] + s[kp + 1..];
    assert s == s[..kp] + s[kp..];
  }

  /** What a partition says of the two sides. */
  lemma Halves(s: seq<int>, kp: nat)
    requires kp < |s|
    requires forall j :: 0 <= j < kp ==> s[j] < s[kp]
    requires forall j :: kp < j < |s| ==> s[j] >= s[kp]
    ensures multiset(s) == multiset(s[..kp]) + multiset{s[kp]} + multiset(s[kp + 1..])
    ensures multiset(s[kp..]) == multiset{s[kp]} + multiset(s[kp + 1..])
    ensures Below(multiset(s[..kp]), s[kp]) && AtLeast(multiset(s[kp + 1..]), s[kp])
  {
    Parts(s, kp);
    var left, right := s[..kp], s[kp + 1..];
    assert forall x :: x in multiset(left) <==> x in left;
    assert forall x :: x in multiset(right) <==> x in right;
  }

  lemma TopNone(all: multiset<int>, k: int)
    requires k <= 0
    ensures IsTop(multiset{}, all, k)
  {
  }

  lemma TopAll(all: multiset<int>, k: int)
    requires k >= |all|
    ensures IsTop(all, all, k)
  {
  }

  /** Only what lies from index to next of before has changed. */
  ghost predicate Output(before: seq<int>, after: seq<int>, index: nat, next: nat) {
    && index <= next <= |before| == |after|
    && after[..index] == before[..index] && after[next..] == before[next..]
  }

  /** The copy loops: n elements from a, from there on, go to dst. */
  method CopyOut(a: array<int>, from: nat, n: nat, dst: array<int>, index: nat) returns (next: nat)
    requires from + n <= a.Length && a != dst && index + n <= dst.Length
    modifies dst
    ensures next == index + n && dst[..][index..next] == a[..][from..from + n]
    ensures Output(old(dst[..]), dst[..], index, next)
  {
    next := index;
    for i := 0 to n
      invariant next == index + i && forall j :: index <= j < next ==> dst[j] == a[from + j - index]
      invariant forall j :: 0 <= j < dst.Length && !(index <= j < next) ==> dst[j] == old(dst[j])
    {
      dst[next] := a[from + i];
      next := next + 1;
    }
    assert dst[..][index..next] == a[..][from..from + n];
  }

  /** s, part of which is searched, is rearranged to u; k largest elements of the
      part stand in after from index to next, where before has changed. */
  ghost predicate Found(s: seq<int>, u: seq<int>, before: seq<int>, after: seq<int>,
                        lo: nat, len: nat, k: int, index: nat, next: nat)
  {
    && lo + len <= |s| && Rearranged(s, u, lo, lo + len) && Output(before, after, index, next)
    && IsTop(multiset(after[index..next]), multiset(s[lo..lo + len]), k)
  }

  lemma FoundNone(s: seq<int>, before: seq<int>, lo: nat, len: nat, k: int, index: nat)
    requires lo + len <= |s| && index <= |before| && k <= 0
    ensures Found(s, s, before, before, lo, len, k, index, index)
  {
    SameRearranged(s, lo, lo + len);
    TopNone(multiset(s[lo..lo + len]), k);
    NoOutput(before, index);
  }

  lemma FoundAll(s: seq<int>, before: seq<int>, after: seq<int>, lo: nat, len: nat, k: int, index: nat, next: nat)
    requires lo + len <= |s| && k >= len && Output(before, after, index, next) && after[index..next] == s[lo..lo + len]
    ensures Found(s, s, before, after, lo, len, k, index, next)
  {
    SameRearranged(s, lo, lo + len);
    TopAll(multiset(s[lo..lo + len]), k);
  }

  lemma FoundInRight(s: seq<int>, t: seq<int>, u: seq<int>, before: seq<int>, after: seq<int>,
                     lo: nat, len: nat, kp: nat, k: int, index: nat, next: nat)
    requires lo + len <= |s| == |t| && kp < len && Rearranged(s, t, lo, lo + len) && Around(t, lo, len, kp)
    requires Found(t, u, before, after, lo + kp + 1, len - kp - 1, k, index, next) && k <= len - kp - 1
    ensures Found(s, u, before, after, lo, len, k, index, next)
  {
    hide IsTop, Around, Rearranged;
    if k < len - kp - 1 {
      SomeOfRight(s, t, u, lo, len, kp, k, after[index..next]);
    } else {
      RearrangedSize(s, t, lo, lo + len);
      TopWhole(multiset(after[index..next]), multiset(t[lo + kp + 1..lo + len]), k);
      AllOfRight(s, t, lo, len, kp, after[index..next]);
      PartRearranged(s, t, u, lo, lo + len, lo + kp + 1, lo + len);
    }
  }

  /** A top of as many elements as there are is all of them. */
  lemma TopWhole(top: multiset<int>, all: multiset<int>, k: int)
    requires IsTop(top, all, k) && k >= |all|
    ensures top == all
  {
    SameSizeSubset(top, all);
  }

  lemma FoundInLeft(s: seq<int>, t: seq<int>, u: seq<int>, before: seq<int>, mid: seq<int>, after: seq<int>,
                    lo: nat, len: nat, kp: nat, k: int, index: nat, here: nat, next: nat)
    requires lo + len <= |s| == |t| && kp < len && Rearranged(s, t, lo, lo + len) && Around(t, lo, len, kp)
    requires Output(before, mid, index, here) && mid[index..here] == t[lo + kp..lo + len]
    requires Found(t, u, mid, after, lo, kp, k - (len - kp - 1) - 1, here, next) && k > len - kp - 1
    ensures Found(s, u, before, after, lo, len, k, index, next)
  {
    hide IsTop, Around, Rearranged;
    RightAndMore(s, t, u, lo, len, kp, k, before, mid, after, index, here, next);
  }

  /** find_k_big: the elements found go to dst from index on. */
  method FindKBig(a: array<int>, lo: nat, len: nat, k: int, dst: array<int>, index: nat) returns (next: nat)
    requires lo + len <= a.Length && a != dst && index + Size(k, len) <= dst.Length
    modifies a, dst
    ensures next == index + Size(k, len)
    ensures Found(old(a[..]), a[..], old(dst[..]), dst[..], lo, len, k, index, next)
    decreases len
  {
    hide Rearranged, Output, Around, Found;
    next := index;
    ghost var s, kept := a[..], dst[..];
    if k <= 0 {
      FoundNone(s, kept, lo, len, k, index);
      return;
    }
    if k >= len {
      next := CopyOut(a, lo, len, dst, index);
      FoundAll(s, kept, dst[..], lo, len, k, index, next);
      return;
    }
    var kp := Partition(a, lo, len);
    var rlen := len - kp - 1;
    ghost var t := a[..];
    if rlen == k {
      next := CopyOut(a, lo + kp + 1, rlen, dst, index);
      FoundAll(t, kept, dst[..], lo + kp + 1, rlen, k, index, next);
      FoundInRight(s, t, t, kept, dst[..], lo, len, kp, k, index, next);
    } else if rlen < k {
      var here := CopyOut(a, lo + kp, rlen + 1, dst, index);
      ghost var out := dst[..];
      next := FindKBig(a, lo, kp, k - rlen - 1, dst, here);
      FoundInLeft(s, t, a[..], kept, out, dst[..], lo, len, kp, k, index, here, next);
    } else {
      next := FindKBig(a, lo + kp + 1, rlen, k, dst, index);
      FoundInRight(s, t, a[..], kept, dst[..], lo, len, kp, k, index, next);
    }
  }

  lemma AllOfRight(s: seq<int>, t: seq<int>, lo: nat, len: nat, kp: nat, top: seq<int>)
    requires lo + len <= |s| && kp < len && Rearranged(s, t, lo, lo + len) && Around(t, lo, len, kp)
    requires multiset(top) == multiset(t[lo + kp + 1..lo + len])
    ensures IsTop(multiset(top), multiset(s[lo..lo + len]), len - kp - 1)
  {
    Split(s, t, lo, len, kp);
    TopIsRight(multiset(t[lo..lo + kp]), t[lo + kp], multiset(top), multiset(s[lo..lo + len]));
  }

  lemma SomeOfRight(s: seq<int>, t: seq<int>, u: seq<int>, lo: nat, len: nat, kp: nat, k: int, top: seq<int>)
    requires lo + len <= |s| && kp < len && Rearranged(s, t, lo, lo + len) && Around(t, lo, len, kp)
    requires Rearranged(t, u, lo + kp + 1, lo + len) && k < len - kp - 1
    requires IsTop(multiset(top), multiset(t[lo + kp + 1..lo + len]), k)
    ensures Rearranged(s, u, lo, lo + len) && IsTop(multiset(top), multiset(s[lo..lo + len]), k)
  {
    hide IsTop, Around, Output, Rearranged, Below, AtLeast;
    RearrangedSize(s, t, lo, lo + len);
    Split(s, t, lo, len, kp);
    TopInRight(multiset(t[lo..lo + kp]), t[lo + kp], multiset(t[lo + kp + 1..lo + len]), multiset(s[lo..lo + len]), multiset(top), k);
    PartRearranged(s, t, u, lo, lo + len, lo + kp + 1, lo + len);
  }

  lemma RightAndMore(s: seq<int>, t: seq<int>, u: seq<int>, lo: nat, len: nat, kp: nat, k: int,
                     before: seq<int>, mid: seq<int>, after: seq<int>, index: nat, here: nat, next: nat)
    requires lo + len <= |s| == |t| && kp < len && Rearranged(s, t, lo, lo + len) && Around(t, lo, len, kp)
    requires Rearranged(t, u, lo, lo + kp) && k > len - kp - 1
    requires index <= here <= next <= |after| == |mid|
    requires Output(before, mid, index, here) && mid[index..here] == t[lo + kp..lo + len] && Output(mid, after, here, next)
    requires IsTop(multiset(after[here..next]), multiset(t[lo..lo + kp]), k - (len - kp - 1) - 1)
    ensures Rearranged(s, u, lo, lo + len) && Output(before, after, index, next)
    ensures IsTop(multiset(after[index..next]), multiset(s[lo..lo + len]), k)
  {
    hide IsTop, Around, Output, Rearranged, Below, AtLeast;
    PartRearranged(s, t, u, lo, lo + len, lo, lo + kp);
    MoreIsTop(s, t, lo, len, kp, k, mid[index..here], after[here..next]);
    Appended(before, mid, after, index, here, next);
  }

  lemma MoreIsTop(s: seq<int>, t: seq<int>, lo: nat, len: nat, kp: nat, k: int, one: seq<int>, more: seq<int>)
    requires lo + len <= |s| == |t| && kp < len && Rearranged(s, t, lo, lo + len) && Around(t, lo, len, kp)
    requires k > len - kp - 1 && one == t[lo + kp..lo + len]
    requires IsTop(multiset(more), multiset(t[lo..lo + kp]), k - (len - kp - 1) - 1)
    ensures IsTop(multiset(one) + multiset(more), multiset(s[lo..lo + len]), k)
  {
    hide IsTop, Around, Rearranged, Below, AtLeast;
    Split(s, t, lo, len, kp);
    var right := t[lo + kp + 1..lo + len];
    TopInLeft(multiset(t[lo..lo + kp]), t[lo + kp], multiset(right), multiset(s[lo..lo + len]), multiset(more), k);
  }

  /** Two runs of output, one after the other. */
  lemma Appended(before: seq<int>, mid: seq<int>, after: seq<int>, index: nat, here: nat, next: nat)
    requires index <= here <= next <= |after| == |mid|
    requires Output(before, mid, index, here) && Output(mid, after, here, next)
    ensures Output(before, after, index, next)
    ensures multiset(after[index..next]) == multiset(mid[index..here]) + multiset(after[here..next])
  {
    OutAppend(before, mid, after, index, here, next, mid[index..here]);
  }

  lemma NoOutput(s: seq<int>, index: nat)
    requires index <= |s|
    ensures Output(s, s, index, index) && multiset(s[index..index]) == multiset{}
  {
  }

  lemma Split(s: seq<int>, t: seq<int>, lo: nat, len: nat, kp: nat)
    requires lo + len <= |s| && Rearranged(s, t, lo, lo + len) && kp < len
    requires Around(t, lo, len, kp)
    ensures var left, mid, right := t[lo..lo + kp], t[lo + kp], t[lo + kp + 1..lo + len];
      && multiset(s[lo..lo + len]) == multiset(left) + multiset{mid} + multiset(right)
      && Below(multiset(left), mid) && AtLeast(multiset(right), mid)
      && t[lo + kp..lo + len] == [mid] + right
  {
    var u := t[lo..lo + len];
    assert u[..kp] == t[lo..lo + kp] && u[kp + 1..] == t[lo + kp + 1..lo + len];
    Halves(u, kp);
  }

  /** Two runs of output, one after the other. */
  lemma OutAppend(before: seq<int>, mid: seq<int>, after: seq<int>, index: nat, here: nat, next: nat, first: seq<int>)
    requires Output(before, mid, index, here) && mid[index..here] == first && Output(mid, after, here, next)
    ensures Output(before, after, index, next)
    ensures multiset(after[index..next]) == multiset(first) + multiset(after[here..next])
  {
    assert after[..index] == after[..here][..index] && mid[..index] == mid[..here][..index];
    assert after[index..here] == after[..here][index..] && mid[index..here] == mid[..here][index..];
    assert mid[next..] == mid[here..][next - here..] && before[next..] == before[here..][next - here..];
    assert after[index..next] == after[index..here] + after[here..next];
  }

  // ---------- sorting ----------

  ghost predicate SortedPart(t: seq<int>, lo: nat, hi: nat)
    requires lo <= hi <= |t|
  {
    forall i, j :: lo <= i < j < hi ==> t[i] <= t[j]
  }

  /** qqsort. */
  method QQSort(a: array<int>, lo: nat, len: nat)
    requires lo + len <= a.Length
    modifies a
    ensures Rearranged(old(a[..]), a[..], lo, lo + len) && SortedPart(a[..], lo, lo + len)
    decreases len
  {
    hide Rearranged, Around;
    if len <= 0 {
      SameRearranged(a[..], lo, lo);
      return;
    }
    ghost var s := a[..];
    var kp := Partition(a, lo, len);
    ghost var t := a[..];
    QQSort(a, lo, kp);
    ghost var u := a[..];
    LeftSorted(s, t, u, lo, len, kp);
    QQSort(a, lo + kp + 1, len - kp - 1);
    RightSorted(s, u, a[..], lo, len, kp);
  }

  /** A rearranged part holds what it held, and the rest is as it was. */
  lemma RearrangedFrom(s: seq<int>, t: seq<int>, lo: nat, hi: nat)
    requires lo <= hi <= |s| && Rearranged(s, t, lo, hi)
    ensures forall i :: lo <= i < hi ==> t[i] in s[lo..hi]
    ensures forall i :: 0 <= i < |s| && !(lo <= i < hi) ==> t[i] == s[i]
  {
    forall i | lo <= i < hi
      ensures t[i] in s[lo..hi]
    {
      assert t[lo..hi][i - lo] in multiset(t[lo..hi]);
    }
    forall i | 0 <= i < |s| && !(lo <= i < hi)
      ensures t[i] == s[i]
    {
      assert i < lo ==> t[..lo][i] == s[..lo][i];
      assert i >= hi ==> t[hi..][i - hi] == s[hi..][i - hi];
    }
  }

  /** Rearranging one side keeps both sides where they belong. */
  lemma SideRearranged(s: seq<int>, t: seq<int>, lo: nat, len: nat, kp: nat, from: nat, to: nat)
    requires lo + len <= |s| && kp < len && Around(s, lo, len, kp) && from <= to <= |s| && Rearranged(s, t, from, to)
    requires (from == lo && to == lo + kp) || (from == lo + kp + 1 && to == lo + len)
    ensures Around(t, lo, len, kp) && forall i :: 0 <= i < |s| && !(from <= i < to) ==> t[i] == s[i]
  {
    RearrangedFrom(s, t, from, to);
    forall j | from <= j < to
      ensures if from == lo then t[j] < t[lo + kp] else t[j] >= t[lo + kp]
    {
      assert t[j] in s[from..to];
    }
  }

  lemma LeftSorted(s: seq<int>, t: seq<int>, u: seq<int>, lo: nat, len: nat, kp: nat)
    requires lo + len <= |s| && kp < len && Rearranged(s, t, lo, lo + len) && Around(t, lo, len, kp)
    requires Rearranged(t, u, lo, lo + kp) && SortedPart(u, lo, lo + kp)
    ensures Rearranged(s, u, lo, lo + len) && Around(u, lo, len, kp)
  {
    hide Around, SortedPart;
    PartRearranged(s, t, u, lo, lo + len, lo, lo + kp);
    SideRearranged(t, u, lo, len, kp, lo, lo + kp);
  }

  lemma RightSorted(s: seq<int>, u: seq<int>, v: seq<int>, lo: nat, len: nat, kp: nat)
    requires lo + len <= |s| && kp < len && Rearranged(s, u, lo, lo + len) && Around(u, lo, len, kp) && SortedPart(u, lo, lo + kp)
    requires Rearranged(u, v, lo + kp + 1, lo + len) && SortedPart(v, lo + kp + 1, lo + len)
    ensures Rearranged(s, v, lo, lo + len) && SortedPart(v, lo, lo + len)
  {
    hide Around, SortedPart, Rearranged;
    RearrangedSize(s, u, lo, lo + len);
    PartRearranged(s, u, v, lo, lo + len, lo + kp + 1, lo + len);
    SideRearranged(u, v, lo, len, kp, lo + kp + 1, lo + len);
    RearrangedSize(u, v, lo + kp + 1, lo + len);
    SortedSame(u, v, lo, lo + kp);
    SortedJoin(v, lo, len, kp);
  }

  lemma RearrangedSize(s: seq<int>, t: seq<int>, lo: nat, hi: nat)
    requires lo <= hi <= |s| && Rearranged(s, t, lo, hi)
    ensures |t| == |s|
  {
  }

  lemma SortedSame(s: seq<int>, t: seq<int>, lo: nat, hi: nat)
    requires lo <= hi <= |s| && hi <= |t| && SortedPart(s, lo, hi) && forall i :: lo <= i < hi ==> t[i] == s[i]
    ensures SortedPart(t, lo, hi)
  {
  }

  lemma SortedJoin(t: seq<int>, lo: nat, len: nat, kp: nat)
    requires lo + len <= |t| && kp < len && Around(t, lo, len, kp)
    requires SortedPart(t, lo, lo + kp) && SortedPart(t, lo + kp + 1, lo + len)
    ensures SortedPart(t, lo, lo + len)
  {
  }

  // ---------- the heap ----------

  function Left(i: nat): nat {
    2 * i + 1
  }

  function Right(i: nat): nat {
    2 * i + 2
  }

  /** (i - 1) / 2 as C divides: for 0 it is 0. */
  function Parent(i: nat): nat {
    if i == 0 then 0 else (i - 1) / 2
  }

  /** Parents from i on are no greater than their children among the first len. */
  ghost predicate HeapFrom(t: seq<int>, len: nat, i: nat)
    requires len <= |t|
  {
    forall j :: 0 < j < len && i <= Parent(j) ==> t[Parent(j)] <= t[j]
  }

  /** As HeapFrom, but for the children of j, which its parent is already below. */
  ghost predicate HeapBut(t: seq<int>, len: nat, i: nat, j: nat)
    requires len <= |t|
  {
    && (forall c :: 0 < c < len && i <= Parent(c) && Parent(c) != j ==> t[Parent(c)] <= t[c])
    && (forall c :: 0 < c < len && Parent(c) == j && i <= Parent(j) && j > 0 ==> t[Parent(j)] <= t[c])
  }

  /** heap_adjust on the first len elements. */
  method HeapAdjust(a: array<int>, len: nat, i: nat)
    requires len <= a.Length && HeapFrom(a[..], len, i + 1)
    modifies a
    ensures HeapFrom(a[..], len, i) && Rearranged(old(a[..]), a[..], 0, len)
  {
    hide Rearranged, Swapped, HeapFrom, HeapBut;
    var j := i;
    ghost var s := a[..];
    SameRearranged(s, 0, len);
    ButStart(s, len, i);
    while j < len
      invariant i <= j && HeapBut(a[..], len, i, j) && Rearranged(s, a[..], 0, len)
      decreases len - j
    {
      var l, r, smallest := Left(j), Right(j), j;
      if l < len && a[l] < a[smallest] {
        smallest := l;
      }
      if r < len && a[r] < a[smallest] {
        smallest := r;
      }
      if smallest == j {
        ButDone(a[..], len, i, j);
        return;
      }
      ButSwap(a[..], len, i, j, smallest);
      SwapRearranges(s, a[..], 0, len, j, smallest);
      Swap(a, j, smallest);
      j := smallest;
    }
    ButOut(a[..], len, i, j);
  }

  lemma ButStart(t: seq<int>, len: nat, i: nat)
    requires len <= |t| && HeapFrom(t, len, i + 1)
    ensures HeapBut(t, len, i, i)
  {
  }

  lemma ButDone(t: seq<int>, len: nat, i: nat, j: nat)
    requires len <= |t| && i <= j < len && HeapBut(t, len, i, j)
    requires (Left(j) < len ==> t[j] <= t[Left(j)]) && (Right(j) < len ==> t[j] <= t[Right(j)])
    ensures HeapFrom(t, len, i)
  {
    forall c | 0 < c < len && i <= Parent(c)
      ensures t[Parent(c)] <= t[c]
    {
      Children(c);
    }
  }

  lemma Children(c: nat)
    requires c > 0
    ensures c == Left(Parent(c)) || c == Right(Parent(c))
    ensures Parent(c) < c
  {
  }

  lemma ButSwap(t: seq<int>, len: nat, i: nat, j: nat, c: nat)
    requires len <= |t| && i <= j < len && HeapBut(t, len, i, j)
    requires (c == Left(j) || c == Right(j)) && c < len && t[c] < t[j]
    requires (Left(j) < len ==> t[c] <= t[Left(j)]) && (Right(j) < len ==> t[c] <= t[Right(j)])
    ensures HeapBut(Swapped(t, j, c), len, i, c)
  {
    var u := Swapped(t, j, c);
    forall d | 0 < d < len && i <= Parent(d) && Parent(d) != c
      ensures u[Parent(d)] <= u[d]
    {
      Children(d);
    }
    forall d | 0 < d < len && Parent(d) == c && i <= Parent(c) && c > 0
      ensures u[Parent(c)] <= u[d]
    {
      Children(d);
      Children(c);
    }
  }

  lemma ButOut(t: seq<int>, len: nat, i: nat, j: nat)
    requires len <= |t| && j >= len && HeapBut(t, len, i, j)
    ensures HeapFrom(t, len, i)
  {
  }

  /** The first element of a heap is its least. */
  lemma {:induction false} RootIsLeast(t: seq<int>, len: nat, j: nat)
    requires j < len <= |t| && HeapFrom(t, len, 0)
    ensures t[0] <= t[j]
    decreases j
  {
    if j > 0 {
      RootIsLeast(t, len, Parent(j));
    }
  }

  /** One more element seen: it is passed over, or replaces the least. */
  lemma TopPass(top: multiset<int>, all: multiset<int>, k: int, x: int)
    requires k >= 1 && |top| == k && IsTop(top, all, k) && AtLeast(top, x)
    ensures IsTop(top, all + multiset{x}, k)
  {
    assert all + multiset{x} - top == (all - top) + multiset{x};
  }

  lemma TopReplace(top: multiset<int>, all: multiset<int>, k: int, m: int, x: int)
    requires k >= 1 && |top| == k && IsTop(top, all, k) && m in top && AtLeast(top, m) && x > m
    ensures IsTop(top - multiset{m} + multiset{x}, all + multiset{x}, k)
  {
    assert all + multiset{x} - (top - multiset{m} + multiset{x}) == (all - top) + multiset{m};
  }

  /** Half of a number, cut toward zero as C does. */
  function TruncHalf(n: int): int {
    if n >= 0 then n / 2 else -(-n / 2)
  }

  /** The loop that makes dst a heap. */
  method BuildHeap(a: array<int>, len: nat)
    requires len <= a.Length
    modifies a
    ensures HeapFrom(a[..], len, 0) && Rearranged(old(a[..]), a[..], 0, len)
  {
    hide HeapFrom, Rearranged;
    ghost var s := a[..];
    SameRearranged(s, 0, len);
    var i: int := TruncHalf(len - 2);
    NoHeap(s, len, i + 1);
    while i >= 0
      invariant -1 <= i && HeapFrom(a[..], len, i + 1) && Rearranged(s, a[..], 0, len)
    {
      ghost var was := a[..];
      HeapAdjust(a, len, i);
      PartRearranged(s, was, a[..], 0, len, 0, len);
      i := i - 1;
    }
  }

  /** find_k_big_with_heap: dst begins with the elements found. */
  method FindKBigWithHeap(a: array<int>, len: nat, dst: array<int>, k: nat) returns (n: nat)
    requires len <= a.Length && a != dst && Size(k, len) <= dst.Length && (k < len ==> dst.Length > 0)
    modifies dst
    ensures n == Size(k, len) && IsTop(multiset(dst[..][..n]), multiset(a[..][..len]), k)
  {
    hide IsTop, HeapFrom, Rearranged, Output, TopSoFar;
    if len <= k {
      n := CopyOut(a, 0, len, dst, 0);
      TopAll(multiset(a[..][..len]), k);
      return;
    }
    n := CopyOut(a, 0, k, dst, 0);
    ghost var copied, s := dst[..], a[..];
    BuildHeap(dst, k);
    TopStart(copied, dst[..], s, k);
    var i := k;
    while i < len
      invariant k <= i <= len && a[..] == s && TopSoFar(dst[..], s, k, i)
    {
      ghost var t := dst[..];
      OneMore(t, s, k, i);
      if a[i] > dst[0] {
        dst[0] := a[i];
        HeapAdjust(dst, k, 0);
        Replaced(t, dst[..], s, k, i);
      }
      i := i + 1;
    }
    n := k;
    TopEnd(dst[..], s, k, len);
  }

  /** The first k of t are a heap of k largest among the first i of s. */
  ghost predicate TopSoFar(t: seq<int>, s: seq<int>, k: nat, i: nat) {
    k <= |t| && k <= i <= |s| && HeapFrom(t, k, 0) && IsTop(multiset(t[..k]), multiset(s[..i]), k)
  }

  lemma TopStart(copied: seq<int>, t: seq<int>, s: seq<int>, k: nat)
    requires k <= |s| && k <= |copied| && copied[0..k] == s[0..k]
    requires Rearranged(copied, t, 0, k) && HeapFrom(t, k, 0)
    ensures TopSoFar(t, s, k, k)
  {
    SameElements(copied, t, k);
    assert copied[0..k] == copied[..k] && s[0..k] == s[..k];
    TopAll(multiset(s[..k]), k);
  }

  lemma TopEnd(t: seq<int>, s: seq<int>, k: nat, i: nat)
    requires TopSoFar(t, s, k, i)
    ensures k <= |t| && i <= |s| && IsTop(multiset(t[..k]), multiset(s[..i]), k)
  {
  }

  /** A replaced least element sinks back into place. */
  lemma Replaced(t: seq<int>, u: seq<int>, s: seq<int>, k: nat, i: nat)
    requires t != [] && i < |s| && TopSoFar(t, s, k, i) && s[i] > t[0]
    requires Rearranged(t[0 := s[i]], u, 0, k) && HeapFrom(u, k, 0)
    ensures TopSoFar(u, s, k, i + 1)
  {
    hide IsTop, HeapFrom;
    OneMore(t, s, k, i);
    SameElements(t[0 := s[i]], u, k);
  }

  lemma NoHeap(t: seq<int>, len: nat, i: nat)
    requires len <= |t| && i > TruncHalf(len - 2)
    ensures HeapFrom(t, len, i)
  {
  }

  lemma SameElements(s: seq<int>, t: seq<int>, k: nat)
    requires k <= |s| && Rearranged(s, t, 0, k)
    ensures |t| == |s| && multiset(t[..k]) == multiset(s[..k])
  {
    assert s[0..k] == s[..k] && t[0..k] == t[..k];
  }

  /** What one turn of the last loop does with a[i]. */
  lemma OneMore(t: seq<int>, s: seq<int>, k: nat, i: nat)
    requires t != [] && i < |s| && TopSoFar(t, s, k, i)
    ensures s[i] <= t[0] ==> TopSoFar(t, s, k, i + 1)
    ensures s[i] > t[0] ==> IsTop(multiset(t[0 := s[i]][..k]), multiset(s[..i + 1]), k) && HeapFrom(t[0 := s[i]], k, 1)
  {
    var top, x := t[..k], s[i];
    if k == 0 {
      TopNone(multiset(s[..i + 1]), 0);
      assert multiset(top) == multiset{} && t[0 := x][..0] == top;
      return;
    }
    assert s[..i + 1] == s[..i] + [x];
    forall y | y in multiset(top)
      ensures y >= t[0]
    {
      var j :| 0 <= j < k && top[j] == y;
      RootIsLeast(t, k, j);
    }
    assert |multiset(top)| == k;
    if x <= t[0] {
      TopPass(multiset(top), multiset(s[..i]), k, x);
    } else {
      assert t[0 := x][..k] == top[0 := x];
      assert multiset(top[0 := x]) == multiset(top) - multiset{t[0]} + multiset{x};
      assert top[0] in top;
      TopReplace(multiset(top), multiset(s[..i]), k, t[0], x);
    }
  }
}
