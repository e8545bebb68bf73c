/** Knuth-Morris-Pratt search, algorithm/kmp.c. */
module Kmp {

  /** The first j characters of p are also the last j of p[..i + 1], not all of it. */
  predicate Border(p: string, i: nat, j: nat)
    requires i < |p|
  {
    j <= i && p[..j] == p[i - j + 1..i + 1]
  }

  ghost predicate LongestBorder(p: string, i: nat, j: nat)
    requires i < |p|
  {
    Border(p, i, j) && forall k: nat :: Border(p, i, k) ==> k <= j
  }

  ghost predicate TableFor(p: string, t: seq<int>) {
    |t| == |p| && forall i :: 0 <= i < |p| ==> t[i] >= 0 && LongestBorder(p, i, t[i])
  }

  ghost predicate OccursAt(src: string, p: string, k: int) {
    0 <= k <= |src| - |p| && src[k..k + |p|] == p
  }

  ghost predicate Occurs(src: string, p: string) {
    exists k :: OccursAt(src, p, k)
  }

  /** A border tried in the order the table is filled. */
  ghost predicate LongestUpTo(p: string, i: nat, best: int, j: int)
    requires i < |p|
  {
    best >= 0 && Border(p, i, best) && forall k: nat :: k < j && Border(p, i, k) ==> k <= best
  }

  /** init_partial_match_table; a pattern has at least one character. */
  method InitTable(p: string, pmt: array<int>)
    requires p != [] && pmt.Length == |p|
    modifies pmt
    ensures TableFor(p, pmt[..])
  {
    var i := 1;
    while i < |p|
      invariant 1 <= i <= |p|
      invariant forall k :: 1 <= k < i ==> pmt[k] >= 0 && LongestBorder(p, k, pmt[k])
    {
      pmt[i] := 0;
      assert Border(p, i, 0);
      var j := 1;
      while j <= i
        invariant 1 <= j <= i + 1
        invariant LongestUpTo(p, i, pmt[i], j)
        invariant forall k :: 1 <= k < i ==> pmt[k] >= 0 && LongestBorder(p, k, pmt[k])
      {
        if p[..j] == p[i - j + 1..i + 1] && j > pmt[i] {
          pmt[i] := j;
        }
        j := j + 1;
      }
      i := i + 1;
    }
    pmt[0] := 0;
    assert LongestBorder(p, 0, 0);
  }

  /** After a mismatch behind q matched characters, no occurrence begins before the
      longest border says the next may. */
  lemma NothingSkipped(src: string, p: string, index: nat, q: nat, next: nat, k: int)
    requires 0 < q < |p| && q <= index < |src|
    requires p[..q] == src[index - q..index] && p[q] != src[index]
    requires LongestBorder(p, q - 1, next)
    requires index - q <= k < index - next
    ensures !OccursAt(src, p, k)
  {
    if OccursAt(src, p, k) {
      Matches(src, p, k);
      var d := k - (index - q);
      if d > 0 {
        forall x | 0 <= x < q - d
          ensures p[x] == p[d + x]
        {
          assert src[k + x] == src[index - q..index][d + x];
        }
        assert p[..q - d] == p[d..q];
        assert Border(p, q - 1, q - d);
      }
    }
  }

  lemma Matches(src: string, p: string, k: int)
    requires OccursAt(src, p, k)
    ensures forall x :: 0 <= x < |p| ==> p[x] == src[k + x]
  {
    assert forall x :: 0 <= x < |p| ==> src[k..k + |p|][x] == p[x];
  }

  lemma NotHere(src: string, p: string, k: nat)
    requires p != [] && k < |src| && src[k] != p[0]
    ensures !OccursAt(src, p, k)
  {
    if OccursAt(src, p, k) {
      Matches(src, p, k);
    }
  }

  lemma FallsBack(src: string, p: string, index: nat, q: nat, next: nat)
    requires 0 < q < |p| && q <= index < |src|
    requires p[..q] == src[index - q..index] && LongestBorder(p, q - 1, next)
    ensures next < q && p[..next] == src[index - next..index]
  {
    assert src[index - next..index] == src[index - q..index][q - next..];
    assert p[q - next..q] == p[..q][q - next..];
  }

  /** find_pattern; 0 for found.  It looks at no more than 2 |src| pairs of characters. */
  method FindPattern(src: string, p: string, pmt: array<int>) returns (rt: int, ghost turns: nat)
    requires pmt.Length == |p| && TableFor(p, pmt[..])
    ensures rt == 0 || rt == 1
    ensures rt == 0 <==> Occurs(src, p)
    ensures turns <= 2 * |src|
  {
    var tfindex, index := 0, 0;
    turns := 0;
    while tfindex < |p|
      invariant 0 <= tfindex <= |p| && tfindex <= index <= |src|
      invariant p[..tfindex] == src[index - tfindex..index]
      invariant forall k :: 0 <= k < index - tfindex ==> !OccursAt(src, p, k)
      invariant turns <= 2 * index - tfindex
      decreases |src| - index, tfindex
    {
      if |p| - tfindex > |src| - index {
        return 1, turns;
      }
      turns := turns + 1;
      if src[index] == p[tfindex] {
        assert p[..tfindex + 1] == p[..tfindex] + [p[tfindex]];
        assert src[index - tfindex..index + 1] == src[index - tfindex..index] + [src[index]];
        index := index + 1;
        tfindex := tfindex + 1;
      } else if tfindex == 0 {
        NotHere(src, p, index);
        index := index + 1;
      } else {
        var next := pmt[tfindex - 1];
        assert pmt[..][tfindex - 1] == next;
        FallsBack(src, p, index, tfindex, next);
        forall k | index - tfindex <= k < index - next
          ensures !OccursAt(src, p, k)
        {
          NothingSkipped(src, p, index, tfindex, next, k);
        }
        tfindex := next;
      }
    }
    if tfindex == |p| {
      assert OccursAt(src, p, index - tfindex);
      return 0, turns;
    }
    return 1, turns;
  }

  /** main: the table, then the search. */
  method Search(src: string, p: string) returns (found: bool)
    requires p != []
    ensures found <==> Occurs(src, p)
  {
    var pmt := new int[|p|](_ => 0);
    InitTable(p, pmt);
    var rt, _ := FindPattern(src, p, pmt);
    found := rt == 0;
  }
}
