/** The source side's index of the chunks it has received, rsync/src.c: hash
    buckets of doubly linked lists, each sorted by checksum and without repeats. */
module ChunkIndex {
  const BUCKETS: nat := 256

  type Digest = seq<bv8>

  /** An end of a list points at itself. */
  class Chunk {
    const len: nat
    const checksum: nat
    const md5: Digest
    var pre: Chunk
    var next: Chunk

    constructor (len: nat, checksum: nat, md5: Digest)
      ensures this.len == len && this.checksum == checksum && this.md5 == md5
      ensures pre == this && next == this
    {
      this.len, this.checksum, this.md5 := len, checksum, md5;
      pre, next := this, this;
    }
  }

  function HashOf(checksum: nat): (h: nat)
    ensures h < BUCKETS
  {
    checksum % BUCKETS
  }

  predicate Has(c: Chunk, len: nat, checksum: nat, md5: Digest) {
    c.len == len && c.checksum == checksum && c.md5 == md5
  }

  predicate Same(c: Chunk, d: Chunk) {
    Has(c, d.len, d.checksum, d.md5)
  }

  // ---------- one list ----------

  ghost function At(ks: seq<Chunk>, i: int, end: Chunk): Chunk {
    if 0 <= i < |ks| then ks[i] else end
  }

  ghost predicate LinksOk(ks: seq<Chunk>)
    reads ks
  {
    forall i :: 0 <= i < |ks| ==> ks[i].pre == At(ks, i - 1, ks[i]) && ks[i].next == At(ks, i + 1, ks[i])
  }

  ghost predicate SortedApart(ks: seq<Chunk>) {
    && (forall i, j :: 0 <= i < j < |ks| ==> ks[i].checksum <= ks[j].checksum)
    && (forall i, j :: 0 <= i < j < |ks| ==> !Same(ks[i], ks[j]))
  }

  ghost predicate ListOk(h: nat, head: Chunk?, ks: seq<Chunk>)
    reads ks
  {
    && head == (if ks == [] then null else ks[0])
    && LinksOk(ks) && SortedApart(ks)
    && forall k <- ks :: HashOf(k.checksum) == h
  }

  /** Where the insertion loop stops. */
  datatype Stop = Identical | Before | AtTail

  ghost function Inserted(ks: seq<Chunk>, i: nat, c: Chunk): seq<Chunk>
    requires i <= |ks|
  {
    ks[..i] + [c] + ks[i..]
  }

  lemma InsertedSorted(ks: seq<Chunk>, i: nat, c: Chunk)
    requires SortedApart(ks) && i <= |ks|
    requires forall j :: 0 <= j < i ==> ks[j].checksum <= c.checksum && !Same(ks[j], c)
    requires i < |ks| ==> ks[i].checksum > c.checksum
    ensures SortedApart(Inserted(ks, i, c))
    ensures forall k :: k in Inserted(ks, i, c) <==> k == c || k in ks
  {
    var all := Inserted(ks, i, c);
    assert ks == ks[..i] + ks[i..];
    forall a, b | 0 <= a < b < |all|
      ensures all[a].checksum <= all[b].checksum && !Same(all[a], all[b])
    {
      InsertedPair(ks, i, c, a, b);
    }
  }

  lemma InsertedPair(ks: seq<Chunk>, i: nat, c: Chunk, a: nat, b: nat)
    requires SortedApart(ks) && i <= |ks| && a < b <= |ks|
    requires forall j :: 0 <= j < i ==> ks[j].checksum <= c.checksum && !Same(ks[j], c)
    requires i < |ks| ==> ks[i].checksum > c.checksum
    ensures var all := Inserted(ks, i, c); all[a].checksum <= all[b].checksum && !Same(all[a], all[b])
  {
    var all := Inserted(ks, i, c);
    assert all[a] == if a < i then ks[a] else if a == i then c else ks[a - 1];
    assert all[b] == if b < i then ks[b] else if b == i then c else ks[b - 1];
    assert a == i ==> ks[i].checksum <= ks[b - 1].checksum;
  }

  /** Same-checksum chunks all lie before the first greater one. */
  lemma NoneFurther(ks: seq<Chunk>, i: nat, len: nat, checksum: nat, md5: Digest)
    requires SortedApart(ks) && i < |ks| && ks[i].checksum > checksum
    requires forall j :: 0 <= j < i ==> !Has(ks[j], len, checksum, md5)
    ensures forall k <- ks :: !Has(k, len, checksum, md5)
  {
  }

  lemma InsertedLinks(ks: seq<Chunk>, i: nat, c: Chunk)
    requires i <= |ks|
    requires c.pre == At(ks, i - 1, c) && c.next == At(ks, i, c)
    requires forall j :: 0 <= j < |ks| ==> ks[j].pre == if j == i then c else At(ks, j - 1, ks[j])
    requires forall j :: 0 <= j < |ks| ==> ks[j].next == if j == i - 1 then c else At(ks, j + 1, ks[j])
    ensures LinksOk(Inserted(ks, i, c))
  {
    var all := Inserted(ks, i, c);
    forall j | 0 <= j < |all|
      ensures all[j].pre == At(all, j - 1, all[j]) && all[j].next == At(all, j + 1, all[j])
    {
      InsertedAt(ks, i, c, j - 1, all[j]);
      InsertedAt(ks, i, c, j, all[j]);
      InsertedAt(ks, i, c, j + 1, all[j]);
    }
  }

  lemma InsertedAt(ks: seq<Chunk>, i: nat, c: Chunk, j: int, end: Chunk)
    requires i <= |ks|
    ensures At(Inserted(ks, i, c), j, end) == if j < i then At(ks, j, end) else if j == i then c else At(ks, j - 1, end)
  {
  }

  /** The search of the insertion loop. */
  method FindPlace(ghost h: nat, head: Chunk, ghost ks: seq<Chunk>, c: Chunk) returns (stop: Stop, at: Chunk, ghost i: nat)
    requires ListOk(h, head, ks)
    ensures i < |ks| && ks[i] == at
    ensures stop == Identical <==> exists k <- ks :: Same(k, c)
    ensures stop == Identical ==> Same(at, c)
    ensures stop == Before ==> at.checksum > c.checksum && forall j :: 0 <= j < i ==> ks[j].checksum <= c.checksum && !Same(ks[j], c)
    ensures stop == AtTail ==> i == |ks| - 1 && forall j :: 0 <= j < |ks| ==> ks[j].checksum <= c.checksum && !Same(ks[j], c)
  {
    hide SortedApart, At, HashOf;
    at, i := head, 0;
    while true
      invariant i < |ks| && at == ks[i]
      invariant forall j :: 0 <= j < i ==> ks[j].checksum <= c.checksum && !Same(ks[j], c)
      decreases |ks| - i
    {
      if at.len == c.len && at.checksum == c.checksum && at.md5 == c.md5 {
        assert at in ks && Same(at, c);
        return Identical, at, i;
      }
      if at.checksum > c.checksum {
        NoneFurther(ks, i, c.len, c.checksum, c.md5);
        return Before, at, i;
      }
      assert at.next == At(ks, i + 1, at);
      AtIs(ks, i + 1, at);
      if at.next == at {
        LastIs(ks, i);
        return AtTail, at, i;
      }
      at, i := at.next, i + 1;
    }
  }

  lemma AtIs(ks: seq<Chunk>, i: int, end: Chunk)
    ensures At(ks, i, end) == if 0 <= i < |ks| then ks[i] else end
  {
  }

  lemma DistinctChunks(ks: seq<Chunk>)
    requires SortedApart(ks)
    ensures forall i, j :: 0 <= i < j < |ks| ==> ks[i] != ks[j]
    ensures forall i :: 0 <= i < |ks| ==> ks[i] in ks
  {
  }

  lemma LastIs(ks: seq<Chunk>, i: nat)
    requires SortedApart(ks) && i < |ks|
    ensures At(ks, i + 1, ks[i]) == ks[i] <==> i == |ks| - 1
    ensures At(ks, i - 1, ks[i]) == ks[i] <==> i == 0
  {
  }

  /** One turn of the receive loop on the chunk's own list. */
  method Insert(ghost h: nat, head: Chunk?, ghost ks: seq<Chunk>, c: Chunk) returns (newHead: Chunk, ghost ks': seq<Chunk>)
    requires ListOk(h, head, ks) && c !in ks && HashOf(c.checksum) == h && c.pre == c && c.next == c
    modifies ks, c
    ensures ListOk(h, newHead, ks')
    ensures (exists k <- ks :: Same(k, c)) ==> ks' == ks
    ensures !(exists k <- ks :: Same(k, c)) ==> forall k :: k in ks' <==> k == c || k in ks
  {
    hide SortedApart, At;
    if head == null {
      One(c);
      return c, [c];
    }
    var stop, at, i := FindPlace(h, head, ks, c);
    newHead, ks' := head, ks;
    match stop
    case Identical =>
    case Before =>
      newHead := LinkBefore(head, ks, i, at, c);
      InsertedLinks(ks, i, c);
      InsertedSorted(ks, i, c);
      ks' := Inserted(ks, i, c);
      InsertedAt(ks, i, c, 0, c);
    case AtTail =>
      LinkAfter(ks, at, c);
      InsertedLinks(ks, |ks|, c);
      InsertedSorted(ks, |ks|, c);
      ks' := Inserted(ks, |ks|, c);
  }

  lemma One(c: Chunk)
    requires c.pre == c && c.next == c
    ensures LinksOk([c]) && SortedApart([c])
  {
  }

  method LinkBefore(head: Chunk, ghost ks: seq<Chunk>, ghost i: nat, at: Chunk, c: Chunk) returns (newHead: Chunk)
    requires ks != [] && head == ks[0] && LinksOk(ks) && SortedApart(ks) && i < |ks| && at == ks[i]
    requires c !in ks && c.pre == c && c.next == c
    modifies ks, c
    ensures newHead == if i == 0 then c else head
    ensures c.pre == At(ks, i - 1, c) && c.next == At(ks, i, c)
    ensures forall j :: 0 <= j < |ks| ==> ks[j].pre == if j == i then c else At(ks, j - 1, ks[j])
    ensures forall j :: 0 <= j < |ks| ==> ks[j].next == if j == i - 1 then c else At(ks, j + 1, ks[j])
  {
    hide SortedApart, At;
    newHead := head;
    LastIs(ks, i);
    DistinctChunks(ks);
    AtIs(ks, i - 1, at);
    AtIs(ks, i - 1, c);
    AtIs(ks, i, c);
    assert at.pre == At(ks, i - 1, at);
    if at.pre == at {
      at.pre := c;
      c.next := at;
      newHead := c;
    } else {
      var before := at.pre;
      at.pre := c;
      c.next := at;
      before.next := c;
      c.pre := before;
    }
  }

  method LinkAfter(ghost ks: seq<Chunk>, at: Chunk, c: Chunk)
    requires ks != [] && LinksOk(ks) && SortedApart(ks) && at == ks[|ks| - 1]
    requires c !in ks && c.pre == c && c.next == c
    modifies ks, c
    ensures c.pre == At(ks, |ks| - 1, c) && c.next == At(ks, |ks|, c)
    ensures forall j :: 0 <= j < |ks| ==> ks[j].pre == At(ks, j - 1, ks[j])
    ensures forall j :: 0 <= j < |ks| ==> ks[j].next == if j == |ks| - 1 then c else At(ks, j + 1, ks[j])
  {
    hide SortedApart, At;
    DistinctChunks(ks);
    AtIs(ks, |ks| - 1, c);
    AtIs(ks, |ks|, c);
    at.next := c;
    c.pre := at;
  }

  /** The search for a block of the source file: it gives up at the first greater
      checksum. */
  method Lookup(ghost h: nat, head: Chunk?, ghost ks: seq<Chunk>, len: nat, checksum: nat, md5: Digest) returns (found: Chunk?)
    requires ListOk(h, head, ks)
    ensures found == null <==> forall k <- ks :: !Has(k, len, checksum, md5)
    ensures found != null ==> found in ks && Has(found, len, checksum, md5)
  {
    hide SortedApart, At, HashOf;
    if head == null {
      return null;
    }
    ghost var i := 0;
    var at := head;
    while true
      invariant i < |ks| && at == ks[i]
      invariant forall j :: 0 <= j < i ==> !Has(ks[j], len, checksum, md5)
      decreases |ks| - i
    {
      if at.len == len && at.checksum == checksum {
        if at.md5 == md5 {
          assert at in ks;
          return at;
        }
      }
      if at.checksum > checksum {
        NoneFurther(ks, i, len, checksum, md5);
        return null;
      }
      assert at.next == At(ks, i + 1, at);
      AtIs(ks, i + 1, at);
      if at.next == at {
        LastIs(ks, i);
        return null;
      }
      at, i := at.next, i + 1;
    }
  }

  // ---------- the index ----------

  /** Every chunk received so far is in its list, itself or one that reads the same. */
  ghost predicate Represents(lists: seq<seq<Chunk>>, received: seq<Chunk>) {
    && |lists| == BUCKETS
    && (forall h, k :: 0 <= h < BUCKETS && k in lists[h] ==> k in received)
    && (forall c <- received :: InList(lists[HashOf(c.checksum)], c))
  }

  ghost predicate InList(ks: seq<Chunk>, c: Chunk) {
    exists k <- ks :: Same(k, c)
  }

  lemma RepresentsMore(lists: seq<seq<Chunk>>, received: seq<Chunk>, c: Chunk, ks: seq<Chunk>)
    requires Represents(lists, received)
    requires var old0 := lists[HashOf(c.checksum)];
      if InList(old0, c) then ks == old0 else forall k :: k in ks <==> k == c || k in old0
    ensures Represents(lists[HashOf(c.checksum) := ks], received + [c])
  {
    var h, all := HashOf(c.checksum), received + [c];
    var lists' := lists[h := ks];
    forall d | d in all
      ensures InList(lists'[HashOf(d.checksum)], d)
    {
      if d in received {
        assert InList(lists[HashOf(d.checksum)], d);
        var k :| k in lists[HashOf(d.checksum)] && Same(k, d);
        assert k in lists'[HashOf(d.checksum)];
      } else {
        assert d == c && Same(c, c);
      }
    }
  }

  /** The list of a checksum's bucket finds what a search of all received would. */
  lemma SearchesAll(lists: seq<seq<Chunk>>, received: seq<Chunk>, len: nat, checksum: nat, md5: Digest)
    requires Represents(lists, received)
    ensures (exists k <- lists[HashOf(checksum)] :: Has(k, len, checksum, md5)) <==>
            (exists c <- received :: Has(c, len, checksum, md5))
  {
    if c :| c in received && Has(c, len, checksum, md5) {
      assert InList(lists[HashOf(c.checksum)], c);
      var k :| k in lists[HashOf(c.checksum)] && Same(k, c);
      assert Has(k, len, checksum, md5);
    }
  }

  /** Lists of different buckets share no chunk. */
  lemma ListsApart(g: nat, h: nat, xs: seq<Chunk>, ys: seq<Chunk>)
    requires g != h && (forall k <- xs :: HashOf(k.checksum) == g) && forall k <- ys :: HashOf(k.checksum) == h
    ensures forall k <- xs :: k !in ys
  {
  }

  lemma BucketsApart(lists: seq<seq<Chunk>>, heads: seq<Chunk?>)
    requires |lists| == |heads| == BUCKETS && forall h :: 0 <= h < BUCKETS ==> ListOk(h, heads[h], lists[h])
    ensures forall g, h, k :: 0 <= g < BUCKETS && 0 <= h < BUCKETS && g != h && k in lists[g] ==> k !in lists[h]
  {
    forall g, h, k | 0 <= g < BUCKETS && 0 <= h < BUCKETS && g != h && k in lists[g]
      ensures k !in lists[h]
    {
      ListsApart(g, h, lists[g], lists[h]);
    }
  }

  class Index {
    const buckets: array<Chunk?>
    ghost var lists: seq<seq<Chunk>>
    ghost var received: seq<Chunk>

    ghost predicate Valid()
      reads this, buckets, set c | c in received
    {
      && buckets.Length == BUCKETS && Represents(lists, received)
      && (forall h :: 0 <= h < BUCKETS ==> ListOk(h, buckets[h], lists[h]))
    }

    constructor ()
      ensures Valid() && received == [] && fresh(buckets)
    {
      buckets := new Chunk?[BUCKETS](_ => null);
      lists := seq(BUCKETS, _ => []);
      received := [];
    }

    /** One turn of the receive loop. */
    method Receive(c: Chunk)
      requires Valid() && c !in received
      modifies this, buckets, received, c
      ensures Valid() && received == old(received) + [c]
    {
      hide ListOk, Represents, HashOf;
      c.next := c;
      c.pre := c;
      var h := HashIs(c.checksum);
      Subsets(lists, received);
      BucketsApart(lists, buckets[..]);
      ghost var ks := lists[h];
      assert forall i :: 0 <= i < |ks| ==> ks[i] in lists[h] && ks[i] in received;
      ghost var ks';
      buckets[h], ks' := Insert(h, buckets[h], ks, c);
      RepresentsMore(lists, received, c, ks');
      lists := lists[h := ks'];
      received := received + [c];
      forall g | 0 <= g < BUCKETS && g != h
        ensures ListOk(g, buckets[g], lists[g])
      {
        assert forall k <- lists[g] :: k !in ks && k in old(received);
        assert old(ListOk(g, buckets[g], lists[g]));
      }
    }

    /** The lookup of the search loop: as good as a search of everything received. */
    method Find(len: nat, checksum: nat, md5: Digest) returns (found: Chunk?)
      requires Valid()
      ensures found != null <==> exists c <- received :: Has(c, len, checksum, md5)
      ensures found != null ==> found in received && Has(found, len, checksum, md5)
    {
      hide ListOk, Represents, HashOf, Has;
      Subsets(lists, received);
      var h := HashIs(checksum);
      found := Lookup(h, buckets[h], lists[h], len, checksum, md5);
      SearchesAll(lists, received, len, checksum, md5);
    }
  }

  lemma Subsets(lists: seq<seq<Chunk>>, received: seq<Chunk>)
    requires Represents(lists, received)
    ensures |lists| == BUCKETS && forall h, k :: 0 <= h < BUCKETS && k in lists[h] ==> k in received
  {
  }

  method HashIs(checksum: nat) returns (h: nat)
    ensures h == HashOf(checksum) && h < BUCKETS
  {
    h := checksum % BUCKETS;
  }
}
