/** The second lock server, md_distribute_mutex/new_md_mutex_server.c: mutexes in
    hashed, doubly linked chains.  Each operation is taken as a whole. */
module LockChains {
  type Name = seq<bv8>

  const NHASH: nat := 101

  // ---------- hash.c ----------

  /** The hash before its last reduction, in 32-bit unsigned arithmetic. */
  function Rolled(name: Name, hash: nat): nat
    decreases |name|
  {
    if name == [] then hash else Rolled(name[1..], (hash * 131 + name[0] as nat) % 0x1_0000_0000)
  }

  function Hash(name: Name): (h: nat)
    ensures h < NHASH
  {
    Rolled(name, 0) % NHASH
  }

  /** The bytes of the name as the digits of a number to the base 131. */
  function Number(name: Name): nat
    decreases |name|
  {
    if name == [] then 0 else Number(name[..|name| - 1]) * 131 + name[|name| - 1] as nat
  }

  lemma {:induction false} RolledLast(name: Name, hash: nat, c: bv8)
    ensures Rolled(name + [c], hash) == (Rolled(name, hash) * 131 + c as nat) % 0x1_0000_0000
    decreases |name|
  {
    if name == [] {
      assert name + [c] == [c] && [c][1..] == [];
      assert Rolled([], (hash * 131 + c as nat) % 0x1_0000_0000) == (hash * 131 + c as nat) % 0x1_0000_0000;
    } else {
      assert (name + [c])[1..] == name[1..] + [c];
      RolledLast(name[1..], (hash * 131 + name[0] as nat) % 0x1_0000_0000, c);
    }
  }

  /** Names are hashed by the numbers they are to the base 131, cut to 32 bits. */
  lemma {:induction false} HashIs(name: Name)
    ensures Rolled(name, 0) == Number(name) % 0x1_0000_0000
    ensures Hash(name) == Number(name) % 0x1_0000_0000 % 101
    decreases |name|
  {
    if name != [] {
      var front, c := name[..|name| - 1], name[|name| - 1];
      assert name == front + [c];
      HashIs(front);
      RolledLast(front, 0, c);
      Carried(Number(front), c as nat);
    }
  }

  lemma Carried(x: nat, c: nat)
    ensures (x % 0x1_0000_0000 * 131 + c) % 0x1_0000_0000 == (x * 131 + c) % 0x1_0000_0000
  {
    var q, r := x / 0x1_0000_0000, x % 0x1_0000_0000;
    assert x * 131 + c == (r * 131 + c) + q * 131 * 0x1_0000_0000;
  }

  method HashFunc(name: Name) returns (h: nat)
    ensures h == Hash(name)
  {
    var hash: nat, i := 0, 0;
    while i < |name|
      invariant i <= |name| && Rolled(name[i..], hash) == Rolled(name, 0)
    {
      assert name[i..][1..] == name[i + 1..];
      hash := (hash * 131 + name[i] as nat) % 0x1_0000_0000;
      i := i + 1;
    }
    h := hash % NHASH;
  }

  // ---------- what the table stands for ----------

  datatype Op = Lock | TryLock | Unlock

  type Counts = map<Name, nat>

  function Counted(m: Counts, name: Name): nat {
    if name in m then m[name] else 0
  }

  /** get_zz_mutex on a plain map of counts. */
  function Gotten(m: Counts, name: Name, op: Op): Counts {
    if op == Unlock then m else m[name := Counted(m, name) + 1]
  }

  /** put_zz_mutex on a plain map of counts. */
  function Returned(m: Counts, name: Name): Counts
    requires name in m && m[name] > 0
  {
    if m[name] == 1 then m - {name} else m[name := m[name] - 1]
  }

  // ---------- the chains ----------

  class ZMutex {
    const fileName: Name
    var count: int
    var pre: ZMutex?
    var next: ZMutex?

    constructor (name: Name)
      ensures fileName == name
    {
      fileName := name;
    }
  }

  ghost function At(ks: seq<ZMutex>, i: int): ZMutex? {
    if 0 <= i < |ks| then ks[i] else null
  }

  ghost predicate LinksOk(ks: seq<ZMutex>)
    reads ks
  {
    forall i :: 0 <= i < |ks| ==> ks[i].pre == At(ks, i - 1) && ks[i].next == At(ks, i + 1)
  }

  /** The chain of bucket h, from its head: linked both ways, names all different
      and all of this bucket. */
  ghost predicate BucketOk(h: nat, head: ZMutex?, ks: seq<ZMutex>)
    reads ks
  {
    && head == At(ks, 0) && LinksOk(ks) && NamesOk(h, ks)
  }

  ghost predicate NamesOk(h: nat, ks: seq<ZMutex>) {
    && (forall i :: 0 <= i < |ks| ==> Hash(ks[i].fileName) == h)
    && (forall i, j :: 0 <= i < j < |ks| ==> ks[i].fileName != ks[j].fileName)
  }

  /** The chain's counts are those of the map. */
  ghost predicate CountsOk(ks: seq<ZMutex>, m: Counts)
    reads ks
  {
    forall k <- ks :: k.fileName in m && k.count == m[k.fileName] > 0
  }

  ghost predicate Listed(ks: seq<ZMutex>, name: Name) {
    exists k <- ks :: k.fileName == name
  }

  ghost function Without(ks: seq<ZMutex>, i: nat): seq<ZMutex>
    requires i < |ks|
  {
    ks[..i] + ks[i + 1..]
  }

  lemma WithoutAt(ks: seq<ZMutex>, i: nat, j: int)
    requires i < |ks|
    ensures At(Without(ks, i), j) == if j < i then At(ks, j) else At(ks, j + 1)
  {
  }

  lemma NamesWithout(h: nat, ks: seq<ZMutex>, i: nat)
    requires NamesOk(h, ks) && i < |ks|
    ensures NamesOk(h, Without(ks, i))
    ensures forall k :: k in Without(ks, i) <==> k in ks && k != ks[i]
    ensures forall k <- Without(ks, i) :: k.fileName != ks[i].fileName
  {
    var rest := Without(ks, i);
    assert forall j :: 0 <= j < |rest| ==> rest[j] == if j < i then ks[j] else ks[j + 1];
    forall k | k in ks && k != ks[i]
      ensures k in rest
    {
      var j :| 0 <= j < |ks| && ks[j] == k;
      assert rest[if j < i then j else j - 1] == k;
    }
  }

  lemma NamesWith(h: nat, ks: seq<ZMutex>, k: ZMutex)
    requires NamesOk(h, ks) && Hash(k.fileName) == h && !Listed(ks, k.fileName)
    ensures NamesOk(h, [k] + ks)
  {
    assert forall j :: 0 <= j < |ks| ==> ks[j] in ks;
  }

  lemma ListedBy(ks: seq<ZMutex>, k: ZMutex)
    requires k in ks
    ensures Listed(ks, k.fileName)
  {
  }

  lemma ListedWithout(h: nat, ks: seq<ZMutex>, i: nat, name: Name)
    requires NamesOk(h, ks) && i < |ks|
    ensures Listed(Without(ks, i), name) <==> Listed(ks, name) && name != ks[i].fileName
  {
    NamesWithout(h, ks, i);
  }

  /** Every name counted is in its chain. */
  ghost predicate AllListed(chains: seq<seq<ZMutex>>, m: Counts) {
    |chains| == NHASH && forall name :: name in m ==> Listed(chains[Hash(name)], name)
  }

  lemma ListedAfter(chains: seq<seq<ZMutex>>, m: Counts, h: nat, i: nat)
    requires AllListed(chains, m) && h < NHASH && NamesOk(h, chains[h]) && i < |chains[h]|
    ensures AllListed(chains[h := Without(chains[h], i)], m - {chains[h][i].fileName})
  {
    hide Hash, Listed, Without;
    forall n | n in m - {chains[h][i].fileName}
      ensures Listed(chains[h := Without(chains[h], i)][Hash(n)], n)
    {
      ListedWithout(h, chains[h], i, n);
    }
  }

  lemma ListedFirst(chains: seq<seq<ZMutex>>, m: Counts, k: ZMutex)
    requires AllListed(chains, m)
    ensures AllListed(chains[Hash(k.fileName) := [k] + chains[Hash(k.fileName)]], m[k.fileName := 1])
  {
    hide Hash, Listed;
    var h := Hash(k.fileName);
    forall n | n in m[k.fileName := 1]
      ensures Listed(chains[h := [k] + chains[h]][Hash(n)], n)
    {
      ListedWith(chains[h], k, n);
    }
  }

  lemma ListedStill(chains: seq<seq<ZMutex>>, m: Counts, k: ZMutex, count: int)
    requires AllListed(chains, m) && count > 0 && k in chains[Hash(k.fileName)]
    ensures AllListed(chains, m[k.fileName := count])
  {
    hide Hash, Listed;
    ListedBy(chains[Hash(k.fileName)], k);
  }

  lemma ListedWith(ks: seq<ZMutex>, k: ZMutex, name: Name)
    ensures Listed([k] + ks, name) <==> k.fileName == name || Listed(ks, name)
  {
    assert Listed(ks, name) ==> exists j <- ks :: j in [k] + ks && j.fileName == name;
    assert k in [k] + ks;
  }

  /** In its own chain a name belongs to one mutex. */
  lemma SameName(h: nat, ks: seq<ZMutex>, m: ZMutex)
    requires NamesOk(h, ks) && m in ks
    ensures forall k <- ks :: k.fileName == m.fileName ==> k == m
  {
  }

  lemma OtherBucket(h: nat, ks: seq<ZMutex>)
    requires NamesOk(h, ks)
    ensures forall k <- ks :: Hash(k.fileName) == h
  {
  }

  lemma Apart(g: nat, h: nat, xs: seq<ZMutex>, ys: seq<ZMutex>)
    requires NamesOk(g, xs) && NamesOk(h, ys) && g != h
    ensures forall k <- xs :: k !in ys
  {
    OtherBucket(g, xs);
    OtherBucket(h, ys);
  }

  // ---------- one chain ----------

  lemma CountsOther(ks: seq<ZMutex>, m: Counts, m': Counts, name: Name)
    requires CountsOk(ks, m) && forall k <- ks :: k.fileName != name
    requires forall n :: n in m && n != name ==> n in m' && m'[n] == m[n]
    ensures CountsOk(ks, m')
  {
  }

  lemma CountIs(ks: seq<ZMutex>, m: Counts, k: ZMutex)
    requires CountsOk(ks, m) && k in ks
    ensures k.fileName in m && k.count == m[k.fileName] > 0
  {
  }

  lemma AtIs(ks: seq<ZMutex>, i: int)
    ensures At(ks, i) == if 0 <= i < |ks| then ks[i] else null
  {
  }

  /** The walk along a chain. */
  method FindIn(ghost h: nat, head: ZMutex?, ghost ks: seq<ZMutex>, name: Name) returns (found: ZMutex?)
    requires BucketOk(h, head, ks)
    ensures found == null <==> !Listed(ks, name)
    ensures found != null ==> found in ks && found.fileName == name
  {
    hide Hash, At, NamesOk;
    ghost var i := 0;
    found := head;
    AtIs(ks, 0);
    while found != null
      invariant i <= |ks| && found == At(ks, i) && (found == null <==> i == |ks|)
      invariant i < |ks| ==> found == ks[i]
      invariant forall j :: 0 <= j < i ==> ks[j].fileName != name
      decreases |ks| - i
    {
      if found.fileName == name {
        assert found in ks;
        return;
      }
      found := found.next;
      i := i + 1;
      AtIs(ks, i);
    }
  }

  method SetCount(ghost h: nat, ghost head: ZMutex?, ghost ks: seq<ZMutex>, ghost cs: Counts, m: ZMutex, count: int)
    requires BucketOk(h, head, ks) && CountsOk(ks, cs) && m in ks && count > 0
    modifies m`count
    ensures m.count == count
    ensures BucketOk(h, head, ks) && CountsOk(ks, cs[m.fileName := count])
  {
    SameName(h, ks, m);
    m.count := count;
  }

  /** The pointers get_zz_mutex changes to put m first. */
  method LinkFirst(head: ZMutex?, ghost ks: seq<ZMutex>, m: ZMutex)
    requires head == At(ks, 0) && LinksOk(ks) && m !in ks
    requires forall i, j :: 0 <= i < j < |ks| ==> ks[i] != ks[j]
    modifies m`next, m`pre, if head == null then {} else {head}
    ensures m.pre == null && m.next == head
    ensures forall i :: 0 <= i < |ks| ==> ks[i].pre == (if i == 0 then m else At(ks, i - 1)) && ks[i].next == At(ks, i + 1)
    ensures forall k <- ks :: k.count == old(k.count)
  {
    m.next := head;
    m.pre := null;
    if head != null {
      head.pre := m;
    }
  }

  method AddFirst(ghost h: nat, head: ZMutex?, ghost ks: seq<ZMutex>, ghost cs: Counts, name: Name) returns (m: ZMutex)
    requires BucketOk(h, head, ks) && CountsOk(ks, cs) && !Listed(ks, name) && Hash(name) == h
    modifies if head == null then {} else {head}
    ensures fresh(m) && m.fileName == name && m.count == 1
    ensures BucketOk(h, m, [m] + ks) && CountsOk([m] + ks, cs[name := 1])
  {
    hide Hash, NamesOk, At;
    DistinctMutexes(h, ks);
    m := new ZMutex(name);
    m.count := 1;
    LinkFirst(head, ks, m);
    NamesWith(h, ks, m);
    FirstLinks(ks, m);
    WithFirst(ks, m);
  }

  lemma WithFirst(ks: seq<ZMutex>, m: ZMutex)
    ensures At([m] + ks, 0) == m && forall k <- [m] + ks :: k == m || k in ks
  {
  }

  lemma HeadIn(h: nat, head: ZMutex?, ks: seq<ZMutex>)
    requires BucketOk(h, head, ks)
    ensures head == null <==> ks == []
    ensures head != null ==> head in ks
  {
  }

  lemma FirstLinks(ks: seq<ZMutex>, m: ZMutex)
    requires m.pre == null && m.next == At(ks, 0)
    requires forall i :: 0 <= i < |ks| ==> ks[i].pre == (if i == 0 then m else At(ks, i - 1)) && ks[i].next == At(ks, i + 1)
    ensures var all := [m] + ks;
      forall i :: 0 <= i < |all| ==> all[i].pre == At(all, i - 1) && all[i].next == At(all, i + 1)
  {
    var all := [m] + ks;
    assert forall i :: 0 <= i <= |ks| ==> At(all, i + 1) == At(ks, i);
    assert forall i :: 0 < i <= |ks| ==> all[i] == ks[i - 1];
  }

  /** The pointers put_zz_mutex changes to leave m out. */
  method Splice(head: ZMutex?, ghost ks: seq<ZMutex>, ghost i: nat, m: ZMutex) returns (newHead: ZMutex?)
    requires head == At(ks, 0) && LinksOk(ks) && i < |ks| && ks[i] == m
    requires forall i, j :: 0 <= i < j < |ks| ==> ks[i] != ks[j]
    modifies (if i > 0 then {ks[i - 1]} else {}) + (if i + 1 < |ks| then {ks[i + 1]} else {})
    ensures newHead == if i == 0 then At(ks, 1) else head
    ensures forall j :: 0 <= j < |ks| && j != i ==> ks[j].pre == if j == i + 1 then At(ks, i - 1) else At(ks, j - 1)
    ensures forall j :: 0 <= j < |ks| && j != i ==> ks[j].next == if j == i - 1 then At(ks, i + 1) else At(ks, j + 1)
    ensures forall k <- ks :: k.count == old(k.count)
  {
    newHead := head;
    if m.next != null {
      m.next.pre := m.pre;
    }
    if m.pre != null {
      m.pre.next := m.next;
    } else {
      newHead := m.next;
    }
  }

  method CutOut(ghost h: nat, head: ZMutex?, ghost ks: seq<ZMutex>, ghost cs: Counts, m: ZMutex) returns (newHead: ZMutex?, ghost i: nat)
    requires BucketOk(h, head, ks) && CountsOk(ks, cs) && m in ks
    modifies ks
    ensures i < |ks| && ks[i] == m && BucketOk(h, newHead, Without(ks, i)) && CountsOk(Without(ks, i), cs - {m.fileName})
  {
    hide Hash, NamesOk, At;
    i :| 0 <= i < |ks| && ks[i] == m;
    DistinctMutexes(h, ks);
    newHead := Splice(head, ks, i, m);
    CutLinks(ks, i);
    NamesWithout(h, ks, i);
    WithoutAt(ks, i, 0);
  }

  lemma DistinctMutexes(h: nat, ks: seq<ZMutex>)
    requires NamesOk(h, ks)
    ensures forall i, j :: 0 <= i < j < |ks| ==> ks[i] != ks[j]
  {
  }

  lemma CutLinks(ks: seq<ZMutex>, i: nat)
    requires i < |ks|
    requires forall j :: 0 <= j < |ks| && j != i ==> ks[j].pre == if j == i + 1 then At(ks, i - 1) else At(ks, j - 1)
    requires forall j :: 0 <= j < |ks| && j != i ==> ks[j].next == if j == i - 1 then At(ks, i + 1) else At(ks, j + 1)
    ensures var rest := Without(ks, i);
      forall j :: 0 <= j < |rest| ==> rest[j].pre == At(rest, j - 1) && rest[j].next == At(rest, j + 1)
  {
    var rest := Without(ks, i);
    forall j | 0 <= j < |rest|
      ensures rest[j].pre == At(rest, j - 1) && rest[j].next == At(rest, j + 1)
    {
      WithoutAt(ks, i, j - 1);
      WithoutAt(ks, i, j);
      WithoutAt(ks, i, j + 1);
    }
  }

  class MutexHash {
    const buckets: array<ZMutex?>
    ghost var chains: seq<seq<ZMutex>>
    ghost var counts: Counts
    ghost var nodes: set<ZMutex>

    ghost predicate Valid()
      reads this, buckets, nodes
    {
      && buckets.Length == |chains| == NHASH
      && (forall h, k :: 0 <= h < NHASH && k in chains[h] ==> k in nodes)
      && (forall h :: 0 <= h < NHASH ==> BucketOk(h, buckets[h], chains[h]))
      && (forall h :: 0 <= h < NHASH ==> CountsOk(chains[h], counts))
      && AllListed(chains, counts)
    }

    /** mutex_hash_init. */
    constructor ()
      ensures Valid() && counts == map[] && fresh(buckets)
    {
      buckets := new ZMutex?[NHASH](_ => null);
      chains := seq(NHASH, _ => []);
      counts, nodes := map[], {};
    }

    /** The search both kinds of request make. */
    method Find(name: Name) returns (found: ZMutex?)
      requires Valid()
      ensures found == null <==> name !in counts
      ensures found != null ==> found in chains[Hash(name)] && found.fileName == name && found.count == counts[name]
    {
      hide Hash, BucketOk, CountsOk, AllListed;
      var h := HashFunc(name);
      found := FindIn(h, buckets[h], chains[h], name);
      CountsListed(name);
      if found != null {
        CountIs(chains[h], counts, found);
      }
    }

    /** Sets the count of a mutex that stays in its chain. */
    method Recount(m: ZMutex, count: int)
      requires Valid() && m in chains[Hash(m.fileName)] && count > 0
      modifies this`counts, m`count
      ensures Valid() && counts == old(counts)[m.fileName := count] && m.count == count
    {
      hide Hash, BucketOk, CountsOk, Listed, AllListed;
      ghost var h := Hash(m.fileName);
      OthersApart(h, m.fileName);
      ListedStill(chains, counts, m, count);
      SetCount(h, buckets[h], chains[h], counts, m, count);
      ghost var was := counts;
      counts := counts[m.fileName := count];
      forall g | 0 <= g < NHASH && g != h
        ensures CountsOk(chains[g], counts)
      {
        CountsOther(chains[g], was, counts, m.fileName);
      }
    }

    /** Nothing in the other chains has the name or is in the name's chain. */
    lemma OthersApart(h: nat, name: Name)
      requires Valid() && h == Hash(name)
      ensures h < NHASH && NamesOk(h, chains[h])
      ensures forall g, k :: 0 <= g < NHASH && g != h && k in chains[g] ==> k.fileName != name && k !in chains[h]
    {
      forall g | 0 <= g < NHASH
        ensures forall k <- chains[g] :: Hash(k.fileName) == g
      {
        OtherBucket(g, chains[g]);
      }
    }

    lemma CountsListed(name: Name)
      requires Valid()
      ensures name in counts <==> Listed(chains[Hash(name)], name)
    {
    }

    /** A new mutex at the head of its chain. */
    method AddNew(name: Name, h: nat) returns (m: ZMutex)
      requires Valid() && h == Hash(name) && name !in counts
      modifies this, buckets, nodes
      ensures Valid() && counts == old(counts)[name := 1] && m.count == 1
      ensures m.fileName == name && fresh(m) && nodes == old(nodes) + {m} && chains[h] == [m] + old(chains[h])
    {
      hide Hash, BucketOk, CountsOk, Listed, AllListed;
      OthersApart(h, name);
      CountsListed(name);
      ghost var ks, was := chains[h], counts;
      HeadIn(h, buckets[h], ks);
      m := AddFirst(h, buckets[h], ks, counts, name);
      buckets[h] := m;
      chains := chains[h := [m] + ks];
      nodes := nodes + {m};
      counts := counts[name := 1];
      forall g | 0 <= g < NHASH && g != h
        ensures CountsOk(chains[g], counts)
      {
        CountsOther(chains[g], was, counts, name);
      }
      ListedFirst(old(chains), was, m);
    }

    /** Takes a mutex out of its chain. */
    method Unlink(m: ZMutex)
      requires Valid() && m in chains[Hash(m.fileName)]
      modifies this`chains, this`counts, buckets, chains[Hash(m.fileName)]
      ensures Valid() && counts == old(counts) - {m.fileName} && nodes == old(nodes)
      ensures m !in chains[Hash(m.fileName)]
    {
      hide Hash, BucketOk, CountsOk, Listed, AllListed, NamesOk, Without, LinksOk, At;
      var h := HashFunc(m.fileName);
      OthersApart(h, m.fileName);
      ghost var ks, was := chains[h], counts;
      ghost var i;
      buckets[h], i := CutOut(h, buckets[h], ks, counts, m);
      NamesWithout(h, ks, i);
      chains := chains[h := Without(ks, i)];
      counts := counts - {m.fileName};
      forall g | 0 <= g < NHASH && g != h
        ensures BucketOk(g, buckets[g], chains[g]) && CountsOk(chains[g], counts)
      {
        assert forall k <- chains[g] :: k !in ks && k.fileName != m.fileName;
        assert old(BucketOk(g, buckets[g], chains[g]));
        CountsOther(chains[g], was, counts, m.fileName);
      }
      ListedAfter(old(chains), was, h, i);
    }

    /** get_zz_mutex. */
    method Get(name: Name, op: Op) returns (m: ZMutex?)
      requires Valid()
      modifies this, buckets, nodes
      ensures Valid() && counts == Gotten(old(counts), name, op)
      ensures m == null <==> name !in counts
      ensures m != null ==> m in chains[Hash(name)] && m.fileName == name && m.count == counts[name]
      ensures op == Unlock ==> chains == old(chains)
      ensures forall k :: k in nodes - old(nodes) ==> fresh(k)
    {
      hide Hash, BucketOk, CountsOk, Listed, AllListed, NamesOk, LinksOk, At;
      var h := HashFunc(name);
      m := Find(name);
      if op == Lock || op == TryLock {
        if m == null {
          m := AddNew(name, h);
        } else {
          Recount(m, m.count + 1);
        }
      }
    }

    /** put_zz_mutex. */
    method Put(m: ZMutex)
      requires Valid() && m in chains[Hash(m.fileName)]
      modifies this, buckets, nodes
      ensures Valid() && m.fileName in old(counts) && counts == Returned(old(counts), m.fileName)
      ensures old(m.count) == 1 ==> m !in chains[Hash(m.fileName)]
      ensures old(m.count) > 1 ==> chains == old(chains)
    {
      hide Hash, BucketOk;
      if m.count - 1 == 0 {
        Unlink(m);
      } else {
        Recount(m, m.count - 1);
      }
    }
  }

  // ---------- sequences of calls ----------

  datatype Call = GetCall(name: Name, op: Op) | PutCall(name: Name)

  function Called(m: Counts, c: Call): Counts
    requires c.PutCall? ==> c.name in m && m[c.name] > 0
  {
    match c
    case GetCall(name, op) => Gotten(m, name, op)
    case PutCall(name) => Returned(m, name)
  }

  /** Only mutexes that were handed out are put back. */
  ghost predicate Legal(m: Counts, calls: seq<Call>)
    decreases |calls|
  {
    calls == [] ||
    ((calls[0].PutCall? ==> calls[0].name in m && m[calls[0].name] > 0) && Legal(Called(m, calls[0]), calls[1..]))
  }

  ghost function AllCalled(m: Counts, calls: seq<Call>): Counts
    requires Legal(m, calls)
    decreases |calls|
  {
    if calls == [] then m else AllCalled(Called(m, calls[0]), calls[1..])
  }

  function Gets(calls: seq<Call>, name: Name): nat {
    if calls == [] then 0
    else (if calls[0].GetCall? && calls[0].op != Unlock && calls[0].name == name then 1 else 0) + Gets(calls[1..], name)
  }

  function Puts(calls: seq<Call>, name: Name): nat {
    if calls == [] then 0
    else (if calls[0].PutCall? && calls[0].name == name then 1 else 0) + Puts(calls[1..], name)
  }

  ghost predicate Positive(m: Counts) {
    forall name :: name in m ==> m[name] > 0
  }

  /** A file has a mutex exactly while more lock requests than puts named it, and
      the mutex counts the difference. */
  lemma {:induction false} CountIsBalance(m: Counts, calls: seq<Call>, name: Name)
    requires Legal(m, calls) && Positive(m)
    ensures Counted(AllCalled(m, calls), name) == Counted(m, name) + Gets(calls, name) - Puts(calls, name)
    ensures Positive(AllCalled(m, calls))
    ensures name in AllCalled(m, calls) <==> Counted(m, name) + Gets(calls, name) > Puts(calls, name)
    decreases |calls|
  {
    if calls != [] {
      CountIsBalance(Called(m, calls[0]), calls[1..], name);
    }
  }

  /** Calls that put back all they get leave the table as it was. */
  lemma BalancedCalls(m: Counts, calls: seq<Call>)
    requires Legal(m, calls) && Positive(m) && forall name :: Gets(calls, name) == Puts(calls, name)
    ensures AllCalled(m, calls) == m
  {
    forall name
      ensures name in AllCalled(m, calls) <==> name in m
      ensures name in m ==> AllCalled(m, calls)[name] == m[name]
    {
      CountIsBalance(m, calls, name);
    }
  }

  /** The order of two operations on different files does not matter. */
  lemma FilesApart(m: Counts, c: Call, d: Call)
    requires c.name != d.name && Legal(m, [c]) && Legal(m, [d])
    ensures Legal(m, [c, d]) && Legal(m, [d, c]) && AllCalled(m, [c, d]) == AllCalled(m, [d, c])
  {
    assert [c, d][1..] == [d] && [d, c][1..] == [c];
    assert Legal(Called(m, c), [d]) && Legal(Called(m, d), [c]);
    assert [c][1..] == [] && [d][1..] == [];
    assert Called(Called(m, c), d) == Called(Called(m, d), c);
  }
}
