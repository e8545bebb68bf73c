/** data_sync: one file is brought up to date with a server's copy, block by
    block.  The client sends a digest of each of its blocks; the server answers
    each with "same" or with its own block; a second client thread writes those
    blocks into the file the first is still reading. */
module DataSync {
  import opened Files

  const BLK: nat := 32
  const WRAP: nat := 0x1_0000_0000       // the server computes offsets in 32 bits,
  const WRAP_BLOCK: nat := 0x800_0000    // which wrap at this block

  type Digest = seq<bv8>

  // rsync.h
  datatype Chunk = Chunk(offset: nat, len: nat, md5: Digest)
  datatype Delta = Delta(offset: nat, oldLen: nat, newLen: nat, same: bool, data: Bytes)

  datatype Option<T> = None | Some(value: T)

  /** What a session starts from: both files, the bytes the server's buffer
      happens to hold, and the digest function. */
  datatype Session = Session(server: Bytes, client: Bytes, stale: Bytes, md5: Bytes -> Digest)

  ghost predicate Proper(x: Session) {
    |x.stale| > BLK
  }

  // ---------- one block ----------

  function Blocks(size: nat): nat {
    size / BLK + if size % BLK != 0 then 1 else 0
  }

  lemma BlocksCover(size: nat, i: nat)
    ensures i < Blocks(size) <==> i * BLK < size
    ensures Blocks(size) * BLK >= size
  {
  }

  /** The client's file once it has been cut to the server's length. */
  function Cut(client: Bytes, size: nat): Bytes {
    if size < |client| then client[..size] else client
  }

  function ChunkLen(size: nat, i: nat): (n: nat)
    ensures n <= BLK
    ensures n > 0 <==> i * BLK < size
    ensures i * BLK < size ==> i * BLK + n <= size
  {
    if size <= i * BLK then 0
    else if size - i * BLK >= BLK then BLK
    else size - i * BLK
  }

  /** What the client reads of a block; size is its file's length at the start. */
  function ChunkData(file: Bytes, size: nat, i: nat): (data: Bytes)
    requires size <= |file|
    ensures |data| == ChunkLen(size, i)
  {
    if ChunkLen(size, i) == 0 then [] else file[i * BLK..i * BLK + ChunkLen(size, i)]
  }

  function MakeChunk(md5: Bytes -> Digest, file: Bytes, size: nat, i: nat): Chunk
    requires size <= |file|
  {
    Chunk(i * BLK, ChunkLen(size, i), if ChunkLen(size, i) == 0 then [] else md5(ChunkData(file, size, i)))
  }

  function ServerBlock(server: Bytes, i: nat): (block: Bytes)
    requires i * BLK < |server|
    ensures 0 < |block| <= BLK
    ensures i * BLK + |block| <= |server| && (|block| == BLK || i * BLK + |block| == |server|)
    ensures block == server[i * BLK..i * BLK + |block|]
  {
    if i == Blocks(|server|) - 1 then server[i * BLK..] else server[i * BLK..i * BLK + BLK]
  }

  /** Reading a block into the buffer and ending it with a zero byte. */
  function Refill(buf: Bytes, block: Bytes): (after: Bytes)
    requires |block| < |buf|
    ensures |after| == |buf|
  {
    block + [0] + buf[|block| + 1..]
  }

  /** The answer to the chunk of block i, the refilled buffer given; none when the
      server, which compares offsets modulo 2^32, gives up. */
  function Answer(md5: Bytes -> Digest, server: Bytes, buf: Bytes, i: nat, c: Chunk): Option<Delta>
    requires i * BLK < |server| && |buf| > BLK
  {
    var block := ServerBlock(server, i);
    if i * BLK % WRAP != c.offset then None
    else if c.len == 0 || c.md5 != md5(buf[..BLK]) then Some(Delta(c.offset, c.len, |block|, false, block))
    else Some(Delta(c.offset, c.len, |block|, true, []))
  }

  function Apply(file: Bytes, d: Delta): Bytes {
    if d.same then file else WriteAt(file, d.offset, d.data)
  }

  // ---------- the threads as steps ----------

  datatype State = State(
    file: Bytes,             // the client's file
    sent: nat,               // sender: chunks sent
    read: Option<Chunk>,     // sender: read from the file, not yet sent
    up: seq<Chunk>,          // client to server
    buf: Bytes,              // server: its buffer
    answered: nat,           // server: chunks answered
    answer: Option<Delta>,   // server: not yet sent
    down: seq<Delta>,        // server to client
    taken: Option<Delta>,    // writer: received, not yet applied
    applied: nat)            // writer: deltas dealt with

  datatype Action = ReadChunk | SendChunk | AnswerChunk | SendDelta | TakeDelta | ApplyDelta

  function Start(x: Session): State {
    State(Cut(x.client, |x.server|), 0, None, [], x.stale, 0, None, [], None, 0)
  }

  function ClientSize(x: Session): nat {
    |Cut(x.client, |x.server|)|
  }

  /** The state after an action, none when it cannot be taken. */
  function Step(x: Session, s: State, a: Action): Option<State>
  {
    var n := Blocks(|x.server|);
    match a
    case ReadChunk =>
      if s.read.None? && s.sent < n && ClientSize(x) <= |s.file|
      then Some(s.(read := Some(MakeChunk(x.md5, s.file, ClientSize(x), s.sent)))) else None
    case SendChunk =>
      if s.read.Some? then Some(s.(read := None, up := s.up + [s.read.value], sent := s.sent + 1)) else None
    case AnswerChunk =>
      if s.answer.None? && s.up != [] && s.answered < n && |s.buf| > BLK then
        BlocksCover(|x.server|, s.answered);
        var buf := Refill(s.buf, ServerBlock(x.server, s.answered));
        var d := Answer(x.md5, x.server, buf, s.answered, s.up[0]);
        if d.None? then None else Some(s.(buf := buf, up := s.up[1..], answered := s.answered + 1, answer := d))
      else None
    case SendDelta =>
      if s.answer.Some? then Some(s.(answer := None, down := s.down + [s.answer.value])) else None
    case TakeDelta =>
      if s.taken.None? && s.down != [] then Some(s.(taken := Some(s.down[0]), down := s.down[1..])) else None
    case ApplyDelta =>
      if s.taken.Some? && s.taken.value.offset % BLK == 0
      then Some(s.(file := Apply(s.file, s.taken.value), taken := None, applied := s.applied + 1)) else None
  }

  function Run(x: Session, s: State, actions: seq<Action>): Option<State>
    decreases |actions|
  {
    if actions == [] then Some(s)
    else
      var t := Step(x, s, actions[0]);
      if t.None? then None else Run(x, t.value, actions[1..])
  }

  // ---------- what the threads agree on ----------

  function Least(a: nat, b: nat): nat {
    if a < b then a else b
  }

  /** The blocks the server answers before its offset wraps. */
  function Served(x: Session): nat {
    Least(Blocks(|x.server|), WRAP_BLOCK)
  }

  lemma OffsetWraps(i: nat)
    ensures i * BLK % WRAP == i * BLK <==> i < WRAP_BLOCK
  {
  }

  /** The chunk of block i, whenever the sender gets to it. */
  function ChunkOf(x: Session, i: nat): Chunk {
    MakeChunk(x.md5, Cut(x.client, |x.server|), ClientSize(x), i)
  }

  /** The server's buffer after k blocks. */
  function Buffer(x: Session, k: nat): (buf: Bytes)
    requires Proper(x) && k <= Blocks(|x.server|)
    ensures |buf| == |x.stale|
  {
    if k == 0 then x.stale
    else
      BlocksCover(|x.server|, k - 1);
      Refill(Buffer(x, k - 1), ServerBlock(x.server, k - 1))
  }

  function DeltaOf(x: Session, i: nat): (d: Delta)
    requires Proper(x) && i < Served(x)
    ensures d.offset == i * BLK && (d.same || d.data == ServerBlock(x.server, i))
    ensures d.same ==> ChunkOf(x, i).len > 0 && ChunkOf(x, i).md5 == x.md5(Buffer(x, i + 1)[..BLK])
  {
    BlocksCover(|x.server|, i);
    OffsetWraps(i);
    Answer(x.md5, x.server, Buffer(x, i + 1), i, ChunkOf(x, i)).value
  }

  /** The client's file after the first k deltas. */
  function Patched(x: Session, k: nat): (file: Bytes)
    requires Proper(x) && k <= Served(x)
  {
    if k == 0 then Cut(x.client, |x.server|) else Apply(Patched(x, k - 1), DeltaOf(x, k - 1))
  }

  /** Blocks the writer has not reached are as they were. */
  lemma {:induction false} PatchedAhead(x: Session, k: nat)
    requires Proper(x) && k <= Served(x)
    ensures |Patched(x, k)| >= ClientSize(x)
    ensures k * BLK <= ClientSize(x) ==> Patched(x, k)[k * BLK..ClientSize(x)] == Patched(x, 0)[k * BLK..]
  {
    hide WriteAt, Answer, MakeChunk, ServerBlock, Refill, Buffer;
    if k > 0 {
      var before, d, from := Patched(x, k - 1), DeltaOf(x, k - 1), (k - 1) * BLK;
      PatchedAhead(x, k - 1);
      BlocksCover(|x.server|, k - 1);
      if from < ClientSize(x) {
        Suffix(before, Patched(x, 0), from, ClientSize(x));
        if !d.same {
          Written(before, from, d.data);
          if k * BLK <= ClientSize(x) {
            WrittenAfter(before, from, d.data, k * BLK);
            SuffixMore(before, WriteAt(before, from, d.data), k * BLK, ClientSize(x));
          }
        }
      } else if !d.same {
        LongerEver(before, from, d.data);
      }
    }
  }

  lemma LongerEver(content: Bytes, offset: nat, data: Bytes)
    ensures |WriteAt(content, offset, data)| >= |content|
  {
  }

  lemma Suffix(a: Bytes, b: Bytes, from: nat, size: nat)
    requires from <= size == |b| <= |a| && a[from..size] == b[from..]
    ensures from + BLK <= size ==> a[from + BLK..size] == b[from + BLK..]
  {
    if from + BLK <= size {
      assert a[from + BLK..size] == a[from..size][BLK..];
      assert b[from + BLK..] == b[from..][BLK..];
    }
  }

  lemma SuffixMore(a: Bytes, b: Bytes, from: nat, size: nat)
    requires from <= size <= |a| == |b| && a[from..] == b[from..]
    ensures a[from..size] == b[from..size]
  {
    assert a[from..size] == a[from..][..size - from];
    assert b[from..size] == b[from..][..size - from];
  }

  /** The sender, reading a block no delta has touched, sees its first content. */
  lemma ChunkAhead(x: Session, k: nat, i: nat)
    requires Proper(x) && k <= Served(x) && k <= i
    ensures ClientSize(x) <= |Patched(x, k)|
    ensures MakeChunk(x.md5, Patched(x, k), ClientSize(x), i) == ChunkOf(x, i)
  {
    hide Patched;
    PatchedAhead(x, k);
    PatchedNone(x);
    var size, n, from := ClientSize(x), ChunkLen(ClientSize(x), i), i * BLK;
    if n > 0 {
      assert k * BLK <= from;
      SameSlice(Patched(x, k), Patched(x, 0), k * BLK, size, from, n);
    }
  }

  lemma PatchedNone(x: Session)
    requires Proper(x)
    ensures Patched(x, 0) == Cut(x.client, |x.server|)
  {
  }

  lemma SameSlice(a: Bytes, b: Bytes, lo: nat, size: nat, from: nat, n: nat)
    requires lo <= from && from + n <= size == |b| <= |a|
    requires a[lo..size] == b[lo..]
    ensures a[from..from + n] == b[from..from + n]
  {
    forall k | from <= k < from + n
      ensures a[k] == b[k]
    {
      assert a[lo..size][k - lo] == b[lo..][k - lo];
    }
  }

  // ---------- the invariant ----------

  function OptSeq<T>(o: Option<T>): seq<T> {
    if o.None? then [] else [o.value]
  }

  /** The deltas on their way, oldest first. */
  function InFlight(s: State): seq<Delta> {
    OptSeq(s.taken) + s.down + OptSeq(s.answer)
  }

  ghost predicate Inv(x: Session, s: State)
    requires Proper(x)
  {
    && s.applied + |InFlight(s)| == s.answered
    && s.answered <= Served(x) && s.answered + |s.up| == s.sent <= Blocks(|x.server|)
    && s.file == Patched(x, s.applied)
    && s.buf == Buffer(x, s.answered)
    && (s.read.Some? ==> s.sent < Blocks(|x.server|) && s.read.value == ChunkOf(x, s.sent))
    && (forall k :: 0 <= k < |s.up| ==> s.up[k] == ChunkOf(x, s.answered + k))
    && (forall k :: 0 <= k < |InFlight(s)| ==> InFlight(s)[k] == DeltaOf(x, s.applied + k))
  }

  lemma StartInv(x: Session)
    requires Proper(x)
    ensures Inv(x, Start(x))
  {
  }

  lemma SenderInv(x: Session, s: State, a: Action)
    requires Proper(x) && Inv(x, s) && Step(x, s, a).Some? && (a.ReadChunk? || a.SendChunk?)
    ensures Inv(x, Step(x, s, a).value)
    ensures Work(Step(x, s, a).value) == Work(s) + 1
  {
    hide MakeChunk, Answer, ServerBlock, Refill, Apply, Patched, Buffer, DeltaOf, ChunkOf;
    var t := Step(x, s, a).value;
    if a.ReadChunk? {
      ChunkAhead(x, s.applied, s.sent);
    }
  }

  lemma ServerInv(x: Session, s: State, a: Action)
    requires Proper(x) && Inv(x, s) && Step(x, s, a).Some? && (a.AnswerChunk? || a.SendDelta?)
    ensures Inv(x, Step(x, s, a).value)
    ensures Work(Step(x, s, a).value) == Work(s) + 1
  {
    hide MakeChunk, Answer, ServerBlock, Refill, Apply, Patched, Buffer, DeltaOf, ChunkOf, InFlight;
    var t := Step(x, s, a).value;
    if a.AnswerChunk? {
      AnswerIs(x, s);
      AnswerFlight(s, t);
    } else {
      SendFlight(s, t);
    }
  }

  lemma WriterInv(x: Session, s: State, a: Action)
    requires Proper(x) && Inv(x, s) && Step(x, s, a).Some? && (a.TakeDelta? || a.ApplyDelta?)
    ensures Inv(x, Step(x, s, a).value)
    ensures Work(Step(x, s, a).value) == Work(s) + 1
  {
    hide MakeChunk, Answer, ServerBlock, Refill, Apply, Patched, Buffer, DeltaOf, ChunkOf, InFlight;
    var t := Step(x, s, a).value;
    if a.TakeDelta? {
      TakeFlight(s, t);
    } else {
      ApplyIs(x, s);
      ApplyFlight(s, t);
    }
  }

  lemma TakeFlight(s: State, t: State)
    requires s.taken.None? && s.down != [] && t.taken == Some(s.down[0]) && t.down == s.down[1..] && t.answer == s.answer
    ensures InFlight(t) == InFlight(s)
  {
  }

  lemma ApplyFlight(s: State, t: State)
    requires s.taken.Some? && t.taken.None? && t.down == s.down && t.answer == s.answer
    ensures |InFlight(s)| == |InFlight(t)| + 1 && InFlight(s)[0] == s.taken.value
    ensures forall k :: 0 <= k < |InFlight(t)| ==> InFlight(t)[k] == InFlight(s)[k + 1]
  {
    Shifted(s.taken.value, s.down, OptSeq(s.answer));
  }

  lemma Shifted(d: Delta, down: seq<Delta>, answer: seq<Delta>)
    ensures var whole, rest := [d] + down + answer, [] + down + answer;
      && |whole| == |rest| + 1 && whole[0] == d
      && forall k :: 0 <= k < |rest| ==> rest[k] == whole[k + 1]
  {
    var whole, rest := [d] + down + answer, [] + down + answer;
    assert [] + down == down;
    forall k | 0 <= k < |rest|
      ensures rest[k] == whole[k + 1]
    {
      if k < |down| {
        assert rest[k] == down[k] && whole[k + 1] == ([d] + down)[k + 1];
      } else {
        assert rest[k] == answer[k - |down|] && whole[k + 1] == answer[k - |down|];
      }
    }
  }

  lemma AnswerFlight(s: State, t: State)
    requires s.answer.None? && t.answer.Some? && t.down == s.down && t.taken == s.taken
    ensures InFlight(t) == InFlight(s) + [t.answer.value]
  {
  }

  lemma SendFlight(s: State, t: State)
    requires s.answer.Some? && t.answer.None? && t.down == s.down + [s.answer.value] && t.taken == s.taken
    ensures InFlight(t) == InFlight(s)
  {
  }

  /** Every action of every thread keeps the invariant. */
  lemma StepInv(x: Session, s: State, a: Action)
    requires Proper(x) && Inv(x, s) && Step(x, s, a).Some?
    ensures Inv(x, Step(x, s, a).value)
    ensures Work(Step(x, s, a).value) == Work(s) + 1
  {
    hide Inv, Step, Work;
    match a
    case ReadChunk | SendChunk => SenderInv(x, s, a);
    case AnswerChunk | SendDelta => ServerInv(x, s, a);
    case TakeDelta | ApplyDelta => WriterInv(x, s, a);
  }

  lemma ApplyIs(x: Session, s: State)
    requires Proper(x) && Inv(x, s) && s.taken.Some?
    ensures s.applied < Served(x) && s.taken.value == DeltaOf(x, s.applied)
    ensures Apply(s.file, s.taken.value) == Patched(x, s.applied + 1)
    ensures s.taken.value.offset % BLK == 0
  {
    hide Apply, MakeChunk, Answer, Buffer;
    assert InFlight(s)[0] == s.taken.value;
  }

  /** The server answers the chunk in hand, unless its offset has wrapped. */
  lemma AnswerIs(x: Session, s: State)
    requires Proper(x) && Inv(x, s) && s.up != [] && s.answer.None?
    ensures s.answered < Blocks(|x.server|)
    ensures s.answered * BLK < |x.server| && |s.buf| > BLK
    ensures Refill(s.buf, ServerBlock(x.server, s.answered)) == Buffer(x, s.answered + 1)
    ensures s.answered < Served(x) ==>
      Answer(x.md5, x.server, Buffer(x, s.answered + 1), s.answered, s.up[0]) == Some(DeltaOf(x, s.answered))
    ensures s.answered == Served(x) ==>
      Answer(x.md5, x.server, Buffer(x, s.answered + 1), s.answered, s.up[0]) == None
  {
    hide InFlight, MakeChunk;
    BlocksCover(|x.server|, s.answered);
    assert s.up[0] == ChunkOf(x, s.answered);
    ChunkOffset(x, s.answered);
    OffsetWraps(s.answered);
  }

  lemma ChunkOffset(x: Session, i: nat)
    ensures ChunkOf(x, i).offset == i * BLK
  {
  }

  /** Actions taken so far. */
  function Work(s: State): int {
    2 * s.sent + |OptSeq(s.read)| + 2 * s.answered - |OptSeq(s.answer)| + 2 * s.applied + |OptSeq(s.taken)|
  }

  /** All the actions there are to take. */
  function AllWork(x: Session): nat {
    2 * Blocks(|x.server|) + 4 * Served(x)
  }

  lemma WorkBound(x: Session, s: State)
    requires Proper(x) && Inv(x, s)
    ensures 0 <= Work(s) <= AllWork(x)
  {
  }

  lemma {:induction false} RunInv(x: Session, s: State, actions: seq<Action>)
    requires Proper(x) && Inv(x, s) && Run(x, s, actions).Some?
    ensures Inv(x, Run(x, s, actions).value)
    ensures Work(Run(x, s, actions).value) == Work(s) + |actions|
    decreases |actions|
  {
    hide Inv, Step, Work;
    if actions != [] {
      StepInv(x, s, actions[0]);
      RunInv(x, Step(x, s, actions[0]).value, actions[1..]);
    }
  }

  // ---------- what a session achieves ----------

  /** The digest tells the client's blocks from what the server digests: a full
      block of its buffer, whatever lies behind a short last block.  Every digest
      without collisions does. */
  ghost predicate Distinguishes(x: Session)
    requires Proper(x)
  {
    forall i :: 0 <= i < Served(x) ==> DigestTells(x, i)
  }

  ghost predicate DigestTells(x: Session, i: nat)
    requires Proper(x) && i < Blocks(|x.server|)
  {
    var mine := ChunkData(Cut(x.client, |x.server|), ClientSize(x), i);
    var theirs := Buffer(x, i + 1)[..BLK];
    x.md5(mine) == x.md5(theirs) ==> mine == theirs
  }

  lemma InjectiveDistinguishes(x: Session)
    requires Proper(x) && forall a, b :: x.md5(a) == x.md5(b) ==> a == b
    ensures Distinguishes(x)
  {
  }

  /** A block answered "same" is the server's block, the last one included. */
  lemma SameMeansEqual(x: Session, i: nat)
    requires Proper(x) && i < Served(x) && DigestTells(x, i) && DeltaOf(x, i).same
    ensures i * BLK + BLK <= ClientSize(x)
    ensures Cut(x.client, |x.server|)[i * BLK..i * BLK + BLK] == ServerBlock(x.server, i)
  {
    BlocksCover(|x.server|, i);
    var mine := ChunkData(Cut(x.client, |x.server|), ClientSize(x), i);
    assert mine == Buffer(x, i + 1)[..BLK];
    assert |ServerBlock(x.server, i)| == BLK;
    assert Refill(Buffer(x, i), ServerBlock(x.server, i))[..BLK] == ServerBlock(x.server, i);
  }

  /** What the server answers to block i: both lengths, and the block itself unless
      the client has a block there whose digest is that of the server's buffer. */
  lemma ServedDelta(x: Session, i: nat)
    requires Proper(x) && i < Served(x)
    ensures i * BLK < |x.server|
    ensures var d, block, n := DeltaOf(x, i), ServerBlock(x.server, i), ChunkLen(ClientSize(x), i);
      && d.offset == i * BLK && d.oldLen == n && d.newLen == |block|
      && n == (if i * BLK < |x.client| then Least(BLK, Least(|x.client|, |x.server|) - i * BLK) else 0)
      && (d.same <==> n > 0 && x.md5(x.client[i * BLK..i * BLK + n]) == x.md5(Buffer(x, i + 1)[..BLK]))
      && d.data == if d.same then [] else block
  {
    hide Buffer, Refill, ServerBlock;
    BlocksCover(|x.server|, i);
    OffsetWraps(i);
    CutSlice(x.client, |x.server|, i * BLK, ChunkLen(ClientSize(x), i));
  }

  lemma CutSlice(client: Bytes, size: nat, from: nat, n: nat)
    ensures from + n <= |Cut(client, size)| ==> Cut(client, size)[from..from + n] == client[from..from + n]
  {
  }

  /** What the buffer holds of a block, whatever it held before. */
  lemma BufferHolds(x: Session, i: nat)
    requires Proper(x) && i < Blocks(|x.server|)
    ensures i * BLK < |x.server|
    ensures var block := ServerBlock(x.server, i);
      && Buffer(x, i + 1)[..|block|] == block
      && (|block| < BLK ==> Buffer(x, i + 1)[|block|] == 0)
  {
    BlocksCover(|x.server|, i);
    var block := ServerBlock(x.server, i);
    assert Refill(Buffer(x, i), block)[..|block|] == block;
  }

  /** Cutting the client's file touches no full block of the server's. */
  lemma CutKeeps(x: Session, i: nat)
    requires (i + 1) * BLK <= |x.server|
    ensures (i + 1) * BLK <= ClientSize(x) <==> (i + 1) * BLK <= |x.client|
    ensures (i + 1) * BLK <= |x.client| ==>
      Cut(x.client, |x.server|)[i * BLK..(i + 1) * BLK] == x.client[i * BLK..(i + 1) * BLK]
  {
  }

  /** A block is answered "same" exactly if it is a full one and the client has the
      same bytes there; a short last block is always sent. */
  lemma SameIff(x: Session, i: nat)
    requires Proper(x) && i < Served(x) && DigestTells(x, i)
    ensures i * BLK < |x.server|
    ensures var block := ServerBlock(x.server, i);
      DeltaOf(x, i).same <==> |block| == BLK && (i + 1) * BLK <= |x.client| && x.client[i * BLK..(i + 1) * BLK] == block
  {
    ServedDelta(x, i);
    if |ServerBlock(x.server, i)| == BLK {
      CutKeeps(x, i);
    }
    BufferHolds(x, i);
    if DeltaOf(x, i).same {
      SameMeansEqual(x, i);
    }
  }

  /** After k deltas the first k blocks are the server's. */
  lemma {:induction false} PatchedIs(x: Session, k: nat)
    requires Proper(x) && k <= Served(x) && Distinguishes(x)
    ensures Least(k * BLK, |x.server|) <= |Patched(x, k)| <= |x.server|
    ensures Patched(x, k)[..Least(k * BLK, |x.server|)] == x.server[..Least(k * BLK, |x.server|)]
  {
    hide DeltaOf, Apply, Buffer, ServerBlock, DigestTells, ChunkOf;
    if k > 0 {
      PatchedIs(x, k - 1);
      PatchedAhead(x, k - 1);
      BlocksCover(|x.server|, k - 1);
      PatchBlock(x, k - 1);
    }
  }

  lemma PatchBlock(x: Session, i: nat)
    requires Proper(x) && i < Served(x) && DigestTells(x, i)
    requires i * BLK <= |Patched(x, i)| <= |x.server| && i * BLK < |x.server|
    requires Patched(x, i)[..i * BLK] == x.server[..i * BLK]
    requires ClientSize(x) <= |Patched(x, i)|
    requires i * BLK <= ClientSize(x) ==> Patched(x, i)[i * BLK..ClientSize(x)] == Patched(x, 0)[i * BLK..]
    ensures Least((i + 1) * BLK, |x.server|) <= |Patched(x, i + 1)| <= |x.server|
    ensures Patched(x, i + 1)[..Least((i + 1) * BLK, |x.server|)] == x.server[..Least((i + 1) * BLK, |x.server|)]
  {
    hide DigestTells, Buffer, Answer, ChunkOf, Cut, WriteAt;
    var before, from, to, block := Patched(x, i), i * BLK, Least((i + 1) * BLK, |x.server|), ServerBlock(x.server, i);
    if DeltaOf(x, i).same {
      SameMeansEqual(x, i);
      SameSlice(before, Patched(x, 0), from, ClientSize(x), from, BLK);
      Joined(before, x.server, from, to);
    } else {
      Written(before, from, block);
      WrittenSize(before, from, block);
      Joined(WriteAt(before, from, block), x.server, from, to);
    }
  }

  lemma WrittenSize(before: Bytes, from: nat, block: Bytes)
    requires from <= |before| && block != []
    ensures |WriteAt(before, from, block)| == if from + |block| > |before| then from + |block| else |before|
  {
  }

  lemma Joined(a: Bytes, b: Bytes, from: nat, to: nat)
    requires from <= to <= |a| && to <= |b|
    requires a[..from] == b[..from] && a[from..to] == b[from..to]
    ensures a[..to] == b[..to]
  {
    assert a[..to] == a[..from] + a[from..to];
    assert b[..to] == b[..from] + b[from..to];
  }

  /** The blocks dealt with are the server's; with every block dealt with, the file is. */
  ghost predicate UpToDate(x: Session, s: State) {
    var done := Least(s.applied * BLK, |x.server|);
    && done <= |s.file| && s.file[..done] == x.server[..done]
    && (s.applied == Blocks(|x.server|) ==> s.file == x.server)
  }

  lemma PatchedUpToDate(x: Session, s: State)
    requires Proper(x) && Distinguishes(x) && s.applied <= Served(x) && s.file == Patched(x, s.applied)
    ensures UpToDate(x, s)
  {
    hide Patched, Distinguishes;
    PatchedIs(x, s.applied);
    BlocksCover(|x.server|, 0);
  }

  /** However the threads interleave: what the client's file holds of the blocks
      dealt with is what the server's file holds, and once the writer has dealt
      with every block the files are equal. */
  lemma Synchronised(x: Session, actions: seq<Action>)
    requires Proper(x) && Distinguishes(x) && Run(x, Start(x), actions).Some?
    ensures UpToDate(x, Run(x, Start(x), actions).value)
  {
    hide Run, Start, Patched, Buffer, DeltaOf, ChunkOf, UpToDate, Distinguishes;
    StartInv(x);
    RunInv(x, Start(x), actions);
    PatchedUpToDate(x, Run(x, Start(x), actions).value);
  }

  /** A run takes at most so many actions.  If the server's offsets do not wrap, it
      can go no further exactly when it has taken them all, and exactly when every
      chunk is sent and every block dealt with; no thread waits for ever before. */
  lemma Finishes(x: Session, actions: seq<Action>)
    requires Proper(x) && Run(x, Start(x), actions).Some?
    ensures |actions| <= AllWork(x) <= 6 * Blocks(|x.server|)
    ensures |x.server| <= WRAP ==> AllWork(x) == 6 * Blocks(|x.server|)
    ensures var s := Run(x, Start(x), actions).value;
      && s.applied <= Served(x)
      && (|x.server| <= WRAP ==> (Stuck(x, s) <==> |actions| == AllWork(x)))
      && (|x.server| <= WRAP ==> (Stuck(x, s) <==> s.sent == Blocks(|x.server|) && s.applied == Blocks(|x.server|)))
  {
    hide Run, Start, Inv, Step, Work;
    var s := Run(x, Start(x), actions).value;
    StartInv(x);
    StartWork(x);
    RunInv(x, Start(x), actions);
    AppliedServed(x, s);
    ServedAll(x);
    StuckIs(x, s);
  }

  lemma StartWork(x: Session)
    ensures Work(Start(x)) == 0
  {
  }

  ghost predicate Stuck(x: Session, s: State) {
    forall a :: Step(x, s, a).None?
  }

  lemma StuckIs(x: Session, s: State)
    requires Proper(x) && Inv(x, s)
    ensures Work(s) <= AllWork(x)
    ensures Stuck(x, s) <==> Work(s) == AllWork(x)
    ensures Stuck(x, s) <==> s.sent == Blocks(|x.server|) && s.applied == Served(x)
  {
    WorkBound(x, s);
    DoneIsAllWork(x, s);
    if s.sent < Blocks(|x.server|) || s.applied < Served(x) {
      var a := NextAction(x, s);
    } else {
      forall a
        ensures Step(x, s, a).None?
      {
        if Step(x, s, a).Some? {
          StepInv(x, s, a);
          WorkBound(x, Step(x, s, a).value);
        }
      }
    }
  }

  lemma DoneIsAllWork(x: Session, s: State)
    requires Proper(x) && Inv(x, s)
    ensures Work(s) == AllWork(x) <==> s.sent == Blocks(|x.server|) && s.applied == Served(x)
  {
  }

  lemma NextAction(x: Session, s: State) returns (a: Action)
    requires Proper(x) && Inv(x, s) && (s.sent < Blocks(|x.server|) || s.applied < Served(x))
    ensures Step(x, s, a).Some?
  {
    a := if s.taken.Some? then ApplyDelta else if s.down != [] then TakeDelta
      else if s.answer.Some? then SendDelta else if s.up != [] && s.answered < Served(x) then AnswerChunk
      else if s.read.Some? then SendChunk else ReadChunk;
    if a.ApplyDelta? {
      ApplyIs(x, s);
    } else if a.AnswerChunk? {
      AnswerIs(x, s);
    } else if a.ReadChunk? {
      PatchedAhead(x, s.applied);
    }
  }

  /** From any state of a session some run deals with every block that the server
      answers. */
  lemma {:induction false} CanFinish(x: Session, s: State) returns (actions: seq<Action>)
    requires Proper(x) && Inv(x, s)
    ensures Run(x, s, actions).Some? && Run(x, s, actions).value.applied == Served(x)
    decreases AllWork(x) - Work(s)
  {
    hide Inv, Step, Work, AllWork;
    StuckIs(x, s);
    AppliedServed(x, s);
    if s.applied == Served(x) {
      actions := [];
    } else {
      var a := NextAction(x, s);
      StepInv(x, s, a);
      StuckIs(x, Step(x, s, a).value);
      var rest := CanFinish(x, Step(x, s, a).value);
      actions := [a] + rest;
      assert actions[1..] == rest;
    }
  }

  lemma ServedAll(x: Session)
    ensures Served(x) == Blocks(|x.server|) <==> |x.server| <= WRAP
  {
    BlocksCover(|x.server|, WRAP_BLOCK);
  }

  ghost predicate DealsWithAll(x: Session, actions: seq<Action>) {
    Run(x, Start(x), actions).Some? && Run(x, Start(x), actions).value.applied == Blocks(|x.server|)
  }

  /** Some run deals with every block exactly if the server's file has at most 2^32
      bytes.  Then every run that can go no further has; otherwise none has, the
      server having given up at the first offset that wraps. */
  lemma CompletesIff(x: Session)
    requires Proper(x)
    ensures (exists actions :: DealsWithAll(x, actions)) <==> |x.server| <= WRAP
    ensures forall actions :: Run(x, Start(x), actions).Some? && Stuck(x, Run(x, Start(x), actions).value) ==>
      (DealsWithAll(x, actions) <==> |x.server| <= WRAP)
  {
    hide Run, Start, Step, Served, Blocks;
    ServedAll(x);
    StartInv(x);
    var actions := CanFinish(x, Start(x));
    assert |x.server| <= WRAP ==> DealsWithAll(x, actions);
    forall actions | Run(x, Start(x), actions).Some?
      ensures Run(x, Start(x), actions).value.applied <= Served(x)
      ensures Stuck(x, Run(x, Start(x), actions).value) ==> Run(x, Start(x), actions).value.applied == Served(x)
    {
      RunInv(x, Start(x), actions);
      AppliedServed(x, Run(x, Start(x), actions).value);
      StuckIs(x, Run(x, Start(x), actions).value);
    }
    ServedFew(x);
  }

  lemma AppliedServed(x: Session, s: State)
    requires Proper(x) && Inv(x, s)
    ensures s.applied <= Served(x)
  {
  }

  lemma ServedFew(x: Session)
    ensures Served(x) <= Blocks(|x.server|)
  {
  }

  /** A server file one byte longer than 2^32 bytes: however a session runs, its
      last block, number 2^27, is never dealt with. */
  lemma OneByteTooLong(x: Session, actions: seq<Action>)
    requires Proper(x) && |x.server| == WRAP + 1 && Run(x, Start(x), actions).Some?
    ensures Blocks(|x.server|) == WRAP_BLOCK + 1
    ensures Run(x, Start(x), actions).value.applied <= WRAP_BLOCK
  {
    hide Run, Start;
    StartInv(x);
    RunInv(x, Start(x), actions);
  }

  // ---------- the two programs ----------

  /** The length of the last block is right although the offset may have wrapped. */
  lemma LastLength(size: nat, i: nat)
    requires i * BLK < size && i == Blocks(size) - 1
    ensures (size - i * BLK % WRAP) % WRAP == size - i * BLK
  {
    var q := i * BLK / WRAP;
    assert size - i * BLK % WRAP == size - i * BLK + q * WRAP;
    assert 0 < size - i * BLK <= BLK;
  }

  lemma BlockLength(server: Bytes, i: nat)
    requires i * BLK < |server|
    ensures |ServerBlock(server, i)| == if i == Blocks(|server|) - 1 then |server| - i * BLK else BLK
  {
    BlocksCover(|server|, i + 1);
  }

  /** The server's loop, its buffer an array refilled in place. */
  class Server {
    const md5: Bytes -> Digest
    const file: Bytes
    const buf: array<bv8>
    var i: nat               // blocks answered

    constructor (md5: Bytes -> Digest, file: Bytes, buf: array<bv8>)
      ensures this.md5 == md5 && this.file == file && this.buf == buf && i == 0
    {
      this.md5, this.file, this.buf, i := md5, file, buf, 0;
    }

    /** The next len bytes of the file go to the front of the buffer, and a zero byte
        behind them. */
    method Fill(len: nat)
      requires i * BLK < |file| && len == |ServerBlock(file, i)| && buf.Length > BLK
      modifies buf
      ensures buf[..] == Refill(old(buf[..]), ServerBlock(file, i))
      ensures buf[..len] == ServerBlock(file, i) && buf[len] == 0
      ensures forall k :: len < k < buf.Length ==> buf[k] == old(buf[k])
    {
      forall k | 0 <= k < len {
        buf[k] := file[i * BLK + k];    // the file is read in sequence
      }
      buf[len] := 0;
      assert buf[..len] == ServerBlock(file, i);
      assert buf[..] == Refill(old(buf[..]), ServerBlock(file, i));
    }

    /** One turn: the answer to a chunk, none when the server gives up. */
    method Serve(c: Chunk) returns (d: Option<Delta>)
      requires i < Blocks(|file|) && buf.Length > BLK
      modifies this`i, buf
      ensures old(i) * BLK < |file|
      ensures d == Answer(md5, file, Refill(old(buf[..]), ServerBlock(file, old(i))), old(i), c)
      ensures d.Some? ==> i == old(i) + 1 && buf[..] == Refill(old(buf[..]), ServerBlock(file, old(i)))
      ensures d.None? ==> i == old(i) && buf[..] == old(buf[..])
      ensures d.Some? <==> c.offset == old(i) * BLK % WRAP
      ensures d.Some? ==>
        var block := ServerBlock(file, old(i));
        && (d.value.same <==> c.len > 0 && c.md5 == md5(buf[..BLK]))
        && d.value == Delta(c.offset, c.len, |block|, d.value.same, if d.value.same then [] else block)
        && buf[..|block|] == block && buf[|block|] == 0
        && forall k :: |block| < k < buf.Length ==> buf[k] == old(buf[k])
    {
      hide ServerBlock, Refill;
      BlocksCover(|file|, i);
      var same := true;
      var off, len := i * BLK % WRAP, BLK;
      if off != c.offset {
        return None;
      }
      if i == Blocks(|file|) - 1 {
        len := (|file| - off) % WRAP;
        LastLength(|file|, i);
      }
      BlockLength(file, i);
      Fill(len);
      if c.len == 0 {
        same := false;
      } else if c.md5 != md5(buf[..BLK]) {
        same := false;
      }
      d := Some(Delta(c.offset, c.len, len, same, if same then [] else buf[..len]));
      i := i + 1;
    }
  }

  /** The client's file, shared by its two threads. */
  class ClientFile {
    const md5: Bytes -> Digest
    const size: nat          // once cut to the server's length
    var file: Bytes

    constructor (md5: Bytes -> Digest, content: Bytes, serverSize: nat)
      ensures this.md5 == md5 && file == Cut(content, serverSize) && size == |file|
      ensures file == if serverSize < |content| then content[..serverSize] else content
    {
      this.md5 := md5;
      var cut := content;
      if serverSize < |content| {
        cut := content[..serverSize];
      }
      file, size := cut, |cut|;
    }

    /** One turn of the sender's loop, up to the write to the socket. */
    method ReadBlock(i: nat) returns (c: Chunk)
      requires size <= |file|
      ensures c == MakeChunk(md5, file, size, i)
      ensures c.offset == i * BLK
      ensures if size <= i * BLK then c.len == 0
              else c.len == Least(BLK, size - i * BLK) && c.md5 == md5(file[i * BLK..i * BLK + c.len])
    {
      var off := i * BLK;
      if size <= off {
        return Chunk(off, 0, []);
      }
      var remaining, len := size - off, 0;
      if remaining >= BLK {
        len := BLK;
      } else {
        len := remaining;
      }
      var data := file[off..off + len];
      assert data == ChunkData(file, size, i);
      c := Chunk(off, len, md5(data));
    }

    /** One turn of the writer's loop; false when it stops over a bad offset. */
    method Deal(d: Delta) returns (ok: bool)
      modifies this`file
      ensures ok <==> d.offset % BLK == 0
      ensures file == if ok then Apply(old(file), d) else old(file)
      ensures file == if ok && !d.same then WriteAt(old(file), d.offset, d.data) else old(file)
    {
      if d.offset % BLK != 0 {
        return false;
      }
      ok := true;
      if d.same {
        return;
      }
      file := WriteAt(file, d.offset, d.data);
    }
  }
}
