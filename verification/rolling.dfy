/** rsync's rolling checksum, rsync/rsync_utility.c, in the widths of C. */
module Rolling {
  import opened Files

  const M: nat := 0x1_0000

  function U32(x: int): nat {
    x % 0x1_0000_0000
  }

  function U64(x: int): nat {
    x % 0x1_0000_0000_0000_0000
  }

  // ---------- the two sums ----------

  /** n * x, by a name that proofs can leave closed. */
  function Times(n: nat, x: nat): nat {
    n * x
  }

  lemma TimesPlus(n: nat, z: nat, x: nat)
    ensures Times(n + z, x) == Times(n, x) + Times(z, x) && Times(z, n + x) == Times(z, n) + Times(z, x)
    ensures Times(1, x) == x && Times(z, 0) == 0
  {
  }

  function SumA(w: Bytes): nat {
    if w == [] then 0 else w[0] as nat + SumA(w[1..])
  }

  /** Each byte weighted by its distance from the end. */
  function SumB(w: Bytes): nat {
    if w == [] then 0 else Times(|w|, w[0] as nat) + SumB(w[1..])
  }

  datatype Sums = Sums(a: nat, b: nat)

  function SumsOf(w: Bytes): Sums {
    Sums(SumA(w) % M, SumB(w) % M)
  }

  function Checksum(s: Sums): nat {
    s.a + s.b * M
  }

  // ---------- arithmetic modulo M ----------

  lemma ModMultiple(x: int, q: int)
    ensures (x + q * M) % M == x % M
  {
  }

  /** The widths of C are multiples of M, so wrapping does not show modulo M. */
  lemma Wraps(x: int)
    ensures U32(x) % M == x % M && U64(x) % M == x % M
  {
    var q, p := x / 0x1_0000_0000, x / 0x1_0000_0000_0000_0000;
    ModMultiple(U32(x), 0x1_0000 * q);
    ModMultiple(U64(x), 0x1_0000_0000_0000 * p);
  }

  lemma ModPlus(x: int, y: int, z: int)
    requires x % M == y % M
    ensures (x + z) % M == (y + z) % M && (z - x) % M == (z - y) % M
  {
    var q := x / M - y / M;
    assert x == y + q * M;
    ModMultiple(y + z, q);
    ModMultiple(z - y, -q);
  }

  // ---------- the checksum of a block ----------

  /** cal_rollin_cksm. */
  method CalRollinCksm(block: Bytes) returns (skl: nat, akl: nat, bkl: nat)
    requires |block| < 0x1_0000_0000
    ensures Sums(akl, bkl) == SumsOf(block) && skl == Checksum(SumsOf(block)) == akl + bkl * 0x1_0000
  {
    akl, bkl := 0, 0;
    var i := 0;
    while i < |block|
      invariant i <= |block|
      invariant (akl + SumA(block[i..])) % M == SumA(block) % M
      invariant (bkl + SumB(block[i..])) % M == SumB(block) % M
    {
      hide SumA, SumB, U64, U32, Times;
      var p := block[i] as nat;
      var a1, b1 := akl + p, U32(Times(|block| - i, p));
      SumsTail(block, i);
      Wraps(a1);
      ModPlus(U64(a1), a1, SumA(block[i + 1..]));
      Wraps(Times(|block| - i, p));
      Wraps(bkl + b1);
      ModPlus(U64(bkl + b1), bkl + b1, SumB(block[i + 1..]));
      ModPlus(b1, Times(|block| - i, p), bkl + SumB(block[i + 1..]));
      akl := U64(a1);
      bkl := U64(bkl + b1);
      i := i + 1;
    }
    akl := akl % M;
    bkl := bkl % M;
    skl := U32(U64(akl + bkl * M));
    Fits(akl, bkl);
  }

  lemma SumsTail(block: Bytes, i: nat)
    requires i < |block|
    ensures SumA(block[i..]) == block[i] as nat + SumA(block[i + 1..])
    ensures SumB(block[i..]) == Times(|block| - i, block[i] as nat) + SumB(block[i + 1..])
  {
    hide Times;
    assert block[i..][1..] == block[i + 1..];
  }

  lemma Fits(a: nat, b: nat)
    requires a < M && b < M
    ensures a + b * M < 0x1_0000_0000 && U32(U64(a + b * M)) == a + b * M && U32(a + U32(b * M)) == a + b * M
  {
  }

  /** The 32-bit checksum holds both sums, the plain one in the low half. */
  lemma ChecksumHoldsBoth(s: Sums, t: Sums)
    requires s.a < M && s.b < M && t.a < M && t.b < M
    ensures Checksum(s) < 0x1_0000_0000
    ensures Checksum(s) == Checksum(t) <==> s == t
    ensures Checksum(s) % 0x1_0000 == s.a && Checksum(s) / 0x1_0000 == s.b
  {
    assert Checksum(s) % M == s.a && Checksum(s) / M == s.b;
    assert Checksum(t) % M == t.a && Checksum(t) / M == t.b;
  }

  // ---------- moving the window by one byte ----------

  /** cal_rollin_cksm_plus_1: o leaves the window, n enters it. */
  method CalRollinCksmPlus1(o: bv8, n: bv8, akl: nat, bkl: nat, len: nat) returns (skl: nat, newAkl: nat, newBkl: nat)
    requires akl < M && bkl < M && len < 0x1_0000_0000
    ensures Sums(newAkl, newBkl) == Moved(Sums(akl, bkl), o, n, len)
    ensures skl == Checksum(Sums(newAkl, newBkl)) == newAkl + newBkl * 0x1_0000
  {
    newAkl := U32(U32(akl - o as nat) + n as nat) % M;
    newBkl := U32(U32(bkl - U32(Times(len, o as nat))) + newAkl) % M;
    MovedWraps(o, n, akl, bkl, len, newAkl);
    skl := U32(newAkl + U32(newBkl * M));
    Fits(newAkl, newBkl);
  }

  function Moved(s: Sums, o: bv8, n: bv8, len: nat): (t: Sums)
    ensures t.a < M && t.b < M
  {
    var a := (s.a - o as nat + n as nat) % M;
    Sums(a, (s.b - Times(len, o as nat) + a) % M)
  }

  lemma MovedWraps(o: bv8, n: bv8, akl: nat, bkl: nat, len: nat, a: nat)
    ensures U32(U32(akl - o as nat) + n as nat) % M == (akl - o as nat + n as nat) % M
    ensures U32(U32(bkl - U32(Times(len, o as nat))) + a) % M == (bkl - Times(len, o as nat) + a) % M
  {
    hide U32, Times;
    Wraps(akl - o as nat);
    Wraps(U32(akl - o as nat) + n as nat);
    ModPlus(U32(akl - o as nat), akl - o as nat, n as nat);
    var x := Times(len, o as nat);
    var y := bkl - U32(x);
    Wraps(x);
    Wraps(y);
    Wraps(U32(y) + a);
    ModPlus(U32(y), y, a);
    ModPlus(U32(x), x, bkl + a);
    assert bkl + a - U32(x) == y + a;
  }

  lemma {:induction false} SumsAppend(v: Bytes, n: bv8)
    ensures SumA(v + [n]) == SumA(v) + n as nat
    ensures SumB(v + [n]) == SumB(v) + SumA(v) + n as nat
  {
    hide Times;
    if v == [] {
      assert v + [n] == [n];
      TimesPlus(1, 1, n as nat);
    } else {
      assert (v + [n])[1..] == v[1..] + [n];
      SumsAppend(v[1..], n);
      TimesPlus(|v|, 1, v[0] as nat);
    }
  }

  /** Rolling gives the sums of the window moved by one byte. */
  lemma RollOne(w: Bytes, n: bv8)
    requires w != []
    ensures Moved(SumsOf(w), w[0], n, |w|) == SumsOf(w[1..] + [n])
  {
    hide Times;
    var v := w[1..];
    SumsAppend(v, n);
    MovedSums(SumA(v), SumB(v), w[0] as nat, n as nat, Times(|w|, w[0] as nat));
  }

  lemma MovedSums(a: int, b: int, o: int, n: int, x: int)
    ensures ((o + a) % M - o + n) % M == (a + n) % M
    ensures ((x + b) % M - x + (a + n) % M) % M == (b + a + n) % M
  {
    ModPlus((o + a) % M, o + a, n - o);
    ModPlus((x + b) % M, x + b, (a + n) % M - x);
    ModPlus((a + n) % M, a + n, b);
    assert x + b + ((a + n) % M - x) == (a + n) % M + b;
  }

  // ---------- a whole search ----------

  /** len bytes of a file from an offset, zeros past its end. */
  function Window(file: Bytes, off: nat, len: nat): (w: Bytes)
    ensures |w| == len
  {
    seq(len, i requires 0 <= i < len => if off + i < |file| then file[off + i] else 0)
  }

  /** The bytes a search that starts at off sums: short at the end of the file. */
  function Begin(file: Bytes, off: nat, len: nat): (w: Bytes)
    requires off < |file|
    ensures |w| == len - Missing(file, off, len)
  {
    if off + len <= |file| then file[off..off + len] else file[off..]
  }

  function Missing(file: Bytes, off: nat, len: nat): (z: nat)
    requires off < |file|
    ensures z <= len && (z == 0 <==> off + len <= |file|)
  {
    if off + len <= |file| then 0 else off + len - |file|
  }

  /** The byte that enters: zero once fewer than len bytes are left. */
  function Entering(file: Bytes, now: nat, len: nat): bv8
    requires now < |file| && len > 0
  {
    if |file| - now < len then 0 else file[now + len - 1]
  }

  /** The sums after k one-byte moves from offset off, as rsync/src.c makes them. */
  function Rolled(file: Bytes, off: nat, len: nat, k: nat): (s: Sums)
    requires off + k < |file| && len > 0
    ensures s.a < M && s.b < M
  {
    if k == 0 then SumsOf(Begin(file, off, len))
    else Moved(Rolled(file, off, len, k - 1), file[off + k - 1], Entering(file, off + k, len), len)
  }

  /** A search from off that finds nothing for k bytes: the checksum it has then. */
  method SearchOn(file: Bytes, off: nat, len: nat, k: nat) returns (skl: nat)
    requires off + k < |file| && 0 < len < 0x1_0000_0000
    ensures skl == Checksum(Rolled(file, off, len, k))
  {
    var akl, bkl;
    skl, akl, bkl := CalRollinCksm(Begin(file, off, len));
    for i := 0 to k
      invariant Sums(akl, bkl) == Rolled(file, off, len, i) && skl == Checksum(Sums(akl, bkl))
    {
      var oc, nc := file[off + i], Entering(file, off + i + 1, len);
      skl, akl, bkl := CalRollinCksmPlus1(oc, nc, akl, bkl, len);
    }
  }

  function Zeros(z: nat): (zs: Bytes)
    ensures |zs| == z
  {
    seq(z, _ => 0)
  }

  lemma {:induction false} PaddedSums(w: Bytes, z: nat)
    ensures SumA(w + Zeros(z)) == SumA(w)
    ensures SumB(w + Zeros(z)) == SumB(w) + Times(z, SumA(w))
    decreases |w|
  {
    hide Times;
    if w == [] {
      ZeroSums(z);
      assert w + Zeros(z) == Zeros(z);
      TimesPlus(0, z, 0);
    } else {
      assert (w + Zeros(z))[1..] == w[1..] + Zeros(z);
      PaddedSums(w[1..], z);
      TimesPlus(|w|, z, w[0] as nat);
      TimesPlus(w[0] as nat, z, SumA(w[1..]));
    }
  }

  lemma {:induction false} ZeroSums(z: nat)
    ensures SumA(Zeros(z)) == 0 && SumB(Zeros(z)) == 0
  {
    if z > 0 {
      assert Zeros(z)[1..] == Zeros(z - 1);
      ZeroSums(z - 1);
    }
  }

  /** How far the second sum of a search that began short of bytes lags behind that
      of its window, all the way. */
  function Lag(file: Bytes, off: nat, len: nat): nat
    requires off < |file|
  {
    Times(Missing(file, off, len), SumA(Begin(file, off, len)))
  }

  lemma {:induction false} RolledLags(file: Bytes, off: nat, len: nat, k: nat)
    requires off + k < |file| && len > 0
    ensures Rolled(file, off, len, k).a == SumsOf(Window(file, off + k, len)).a
    ensures (Rolled(file, off, len, k).b + Lag(file, off, len)) % M == SumsOf(Window(file, off + k, len)).b
  {
    hide SumA, SumB, Lag, Moved, SumsOf;
    if k == 0 {
      BeginLags(file, off, len);
    } else {
      RolledLags(file, off, len, k - 1);
      var w := Window(file, off + k - 1, len);
      RollOne(w, Entering(file, off + k, len));
      assert w[1..] + [Entering(file, off + k, len)] == Window(file, off + k, len);
      var before := Rolled(file, off, len, k - 1);
      MovedLags(before, SumsOf(w), Lag(file, off, len), file[off + k - 1], Entering(file, off + k, len), len);
    }
  }

  lemma BeginLags(file: Bytes, off: nat, len: nat)
    requires off < |file|
    ensures SumsOf(Begin(file, off, len)).a == SumsOf(Window(file, off, len)).a
    ensures (SumsOf(Begin(file, off, len)).b + Lag(file, off, len)) % M == SumsOf(Window(file, off, len)).b
  {
    hide SumA, SumB, Times;
    var w, z := Begin(file, off, len), Missing(file, off, len);
    assert w + Zeros(z) == Window(file, off, len);
    PaddedSums(w, z);
    ModPlus(SumB(w) % M, SumB(w), Times(z, SumA(w)));
  }

  lemma MovedLags(s: Sums, w: Sums, lag: nat, o: bv8, n: bv8, len: nat)
    requires s.a == w.a && (s.b + lag) % M == w.b
    ensures Moved(s, o, n, len).a == Moved(w, o, n, len).a
    ensures (Moved(s, o, n, len).b + lag) % M == Moved(w, o, n, len).b
  {
    hide Moved;
    MovedIs(s, o, n, len);
    MovedIs(w, o, n, len);
    LagKept(s.b, w.b, lag, Shift(s.a, o, n, len));
  }

  /** What a move adds to the second sum. */
  function Shift(a: nat, o: bv8, n: bv8, len: nat): int {
    (a - o as nat + n as nat) % M - Times(len, o as nat)
  }

  lemma MovedIs(s: Sums, o: bv8, n: bv8, len: nat)
    ensures Moved(s, o, n, len).a == (s.a - o as nat + n as nat) % M
    ensures Moved(s, o, n, len).b == (s.b + Shift(s.a, o, n, len)) % M
  {
    hide Times;
  }

  lemma LagKept(b: int, c: int, lag: int, x: int)
    requires (b + lag) % M == c
    ensures ((b + x) % M + lag) % M == (c + x) % M
  {
    ModPlus((b + x) % M, b + x, lag);
    ModPlus(c, b + lag, x);
    assert b + x + lag == b + lag + x;
  }

  /** However far it is rolled, the checksum is that of the window it stands on
      exactly if the bytes missing where the search began, times the sum of those it
      had, is a multiple of M. */
  lemma RolledExact(file: Bytes, off: nat, len: nat, k: nat)
    requires off + k < |file| && len > 0
    ensures Rolled(file, off, len, k) == SumsOf(Window(file, off + k, len)) <==> Lag(file, off, len) % M == 0
  {
    hide Lag, SumsOf, Rolled;
    RolledLags(file, off, len, k);
    var b := Rolled(file, off, len, k).b;
    SumsSmall(Window(file, off + k, len));
    ModSame(b, Lag(file, off, len));
    assert b % M == b;
  }

  lemma SumsSmall(w: Bytes)
    ensures SumsOf(w).a < M && SumsOf(w).b < M
  {
  }

  lemma ModSame(b: nat, d: nat)
    ensures b % M == (b + d) % M <==> d % M == 0
  {
  }

  /** In particular when the search began on a full block. */
  lemma RolledIsDirect(file: Bytes, off: nat, len: nat, k: nat)
    requires off + k < |file| && 0 < len && off + len <= |file|
    ensures Rolled(file, off, len, k) == SumsOf(Window(file, off + k, len))
  {
    RolledExact(file, off, len, k);
  }

  /** A block of the other file that reads the same, zero padding included, has the
      checksum of the search under that condition and no other. */
  lemma EqualBlocksMatch(src: Bytes, off: nat, k: nat, dst: Bytes, i: nat, len: nat)
    requires off + k < |src| && len > 0 && Window(src, off + k, len) == Window(dst, i * len, len)
    ensures Checksum(Rolled(src, off, len, k)) == Checksum(SumsOf(Window(dst, i * len, len))) <==> Lag(src, off, len) % M == 0
  {
    hide Lag, SumsOf, Rolled;
    RolledExact(src, off, len, k);
    SumsSmall(Window(src, off + k, len));
    ChecksumHoldsBoth(Rolled(src, off, len, k), SumsOf(Window(src, off + k, len)));
  }

  /** A search that begins on a last byte 1 has another checksum than the equal last
      block of the other file. */
  lemma ShortBlockDiffers()
    ensures Window([1], 0, 32) == [1] + Zeros(31)
    ensures Checksum(Rolled([1], 0, 32, 0)) != Checksum(SumsOf(Window([1], 0 * 32, 32)))
  {
    hide Rolled, SumsOf, Checksum;
    EqualBlocksMatch([1], 0, 0, [1], 0, 32);
    OneLags();
  }

  lemma OneLags()
    ensures Lag([1], 0, 32) == 31 && Window([1], 0, 32) == [1] + Zeros(31)
  {
    assert SumA([1]) == 1 && Begin([1], 0, 32) == [1];
  }
}
