/** The write-back log of 4xm: writes to a cached file are queued as a doubly
    linked list of records in a key-value store and later replayed, in order, to
    the file in the data center. */
module WriteBack {
  import opened Files

  type Key = string

  // md_type.h
  datatype MetaData = MetaData(dirty: bool, head: Key, tail: Key, mtime: int, atime: int)
  datatype IoNode = IoNode(time: int, offset: nat, length: nat, pre: Key, next: Key)

  datatype IoType = IoRead | IoWrite | IoOther

  // q_out_req
  datatype Request = Request(path: string, key: Key, time: int, io: IoType, offset: nat, length: nat)

  datatype Write = Write(offset: nat, data: Bytes)

  function Replay(content: Bytes, ws: seq<Write>): Bytes
    decreases |ws|
  {
    if ws == [] then content else Replay(WriteAt(content, ws[0].offset, ws[0].data), ws[1..])
  }

  lemma {:induction false} ReplayLast(content: Bytes, ws: seq<Write>, w: Write)
    ensures Replay(content, ws + [w]) == WriteAt(Replay(content, ws), w.offset, w.data)
    decreases |ws|
  {
    if ws == [] {
      assert ws + [w] == [w];
    } else {
      assert (ws + [w])[1..] == ws[1..] + [w];
      ReplayLast(WriteAt(content, ws[0].offset, ws[0].data), ws[1..], w);
    }
  }

  // ---------- the chain of one file ----------

  function NextKey(ks: seq<Key>, i: nat): Key {
    if i + 1 < |ks| then ks[i + 1] else ""
  }

  function PrevKey(ks: seq<Key>, i: nat): Key {
    if 0 < i <= |ks| then ks[i - 1] else ""
  }

  /** The records ks, in order, are the list the metadata points at: linked both
      ways, nonempty exactly when the file is dirty. */
  ghost predicate Chain(md: MetaData, ion: map<Key, IoNode>, ks: seq<Key>) {
    && (md.dirty <==> ks != [])
    && md.head == (if ks == [] then "" else ks[0])
    && md.tail == (if ks == [] then "" else ks[|ks| - 1])
    && forall i :: 0 <= i < |ks| ==>
         && ks[i] != "" && ks[i] in ion
         && ion[ks[i]].pre == PrevKey(ks, i) && ion[ks[i]].next == NextKey(ks, i)
  }

  ghost predicate DataFor(ion: map<Key, IoNode>, iod: map<Key, Bytes>, ks: seq<Key>) {
    forall k <- ks :: k in ion && k in iod && |iod[k]| == ion[k].length
  }

  /** The writes that records hold. */
  ghost function Writes(ion: map<Key, IoNode>, iod: map<Key, Bytes>, ks: seq<Key>): (ws: seq<Write>)
    requires DataFor(ion, iod, ks)
    ensures |ws| == |ks|
  {
    seq(|ks|, i requires 0 <= i < |ks| => Write(ion[ks[i]].offset, iod[ks[i]]))
  }

  datatype File = Absent | Present(content: Bytes)

  /** All that holds of one file: its chain, the data of its records, and what its
      data-center copy becomes once they are replayed. */
  ghost predicate FileOk(m: MetaData, ion: map<Key, IoNode>, iod: map<Key, Bytes>, ks: seq<Key>, want: Bytes, file: File) {
    && Chain(m, ion, ks) && DataFor(ion, iod, ks)
    && (forall i, j :: 0 <= i < j < |ks| ==> ks[i] != ks[j])
    && (file.Present? ==> want == Replay(file.content, Writes(ion, iod, ks)))
  }

  lemma FileFrame(m: MetaData, ion: map<Key, IoNode>, iod: map<Key, Bytes>, ks: seq<Key>, want: Bytes, file: File,
                  ion': map<Key, IoNode>, iod': map<Key, Bytes>)
    requires FileOk(m, ion, iod, ks, want, file)
    requires forall k <- ks :: k in ion && k in iod ==> k in ion' && ion'[k] == ion[k] && k in iod' && iod'[k] == iod[k]
    ensures FileOk(m, ion', iod', ks, want, file)
  {
    assert forall i :: 0 <= i < |ks| ==> ks[i] in ks;
    assert DataFor(ion', iod', ks);
    assert Writes(ion', iod', ks) == Writes(ion, iod, ks);
  }

  lemma CleanOk(m: MetaData, ion: map<Key, IoNode>, iod: map<Key, Bytes>, want: Bytes, file: File)
    requires !m.dirty && m.head == "" && m.tail == "" && (file.Present? ==> want == file.content)
    ensures FileOk(m, ion, iod, [], want, file)
  {
  }

  /** The state que_out_modify_md writes for a write to a file whose records are ks. */
  function Queued(m: MetaData, req: Request): MetaData {
    m.(dirty := true, head := if m.head == "" then req.key else m.head, tail := req.key, mtime := req.time)
  }

  function QueuedIon(m: MetaData, ion: map<Key, IoNode>, req: Request): map<Key, IoNode>
    requires m.tail != "" ==> m.tail in ion
  {
    var node := IoNode(req.time, req.offset, req.length, m.tail, "");
    if m.tail == "" then ion[req.key := node]
    else ion[m.tail := ion[m.tail].(next := req.key)][req.key := node]
  }

  lemma ChainShape(m: MetaData, ion: map<Key, IoNode>, ks: seq<Key>)
    requires Chain(m, ion, ks)
    ensures m.dirty <==> m.head != "" && m.tail != ""
    ensures !m.dirty <==> m.head == "" && m.tail == ""
    ensures m.dirty <==> ks != []
    ensures m.dirty ==> m.tail in ion && m.head in ion && m.head == ks[0] && m.tail == ks[|ks| - 1]
  {
  }

  lemma ChainQueued(m: MetaData, ion: map<Key, IoNode>, ks: seq<Key>, req: Request)
    requires Chain(m, ion, ks) && req.key != "" && req.key !in ion
    requires forall i, j :: 0 <= i < j < |ks| ==> ks[i] != ks[j]
    ensures m.tail != "" ==> m.tail in ion
    ensures Chain(Queued(m, req), QueuedIon(m, ion, req), ks + [req.key])
  {
    var ks', ion' := ks + [req.key], QueuedIon(m, ion, req);
    forall i | 0 <= i < |ks'|
      ensures ks'[i] != "" && ks'[i] in ion'
      ensures ion'[ks'[i]].pre == PrevKey(ks', i) && ion'[ks'[i]].next == NextKey(ks', i)
    {
      if i < |ks| {
        var k := ks[i];
        assert ks'[i] == k && k in ion && k != req.key;
        assert PrevKey(ks', i) == PrevKey(ks, i) && ion'[k].pre == ion[k].pre;
        assert i < |ks| - 1 ==> k != ks[|ks| - 1] && NextKey(ks', i) == NextKey(ks, i) && ion'[k] == ion[k];
      }
    }
  }

  lemma WritesQueued(m: MetaData, ion: map<Key, IoNode>, iod: map<Key, Bytes>, ks: seq<Key>, req: Request)
    requires Chain(m, ion, ks) && DataFor(ion, iod, ks) && req.key !in ion
    requires req.key in iod && |iod[req.key]| == req.length
    ensures m.tail != "" ==> m.tail in ion
    ensures DataFor(QueuedIon(m, ion, req), iod, ks + [req.key])
    ensures Writes(QueuedIon(m, ion, req), iod, ks + [req.key]) == Writes(ion, iod, ks) + [Write(req.offset, iod[req.key])]
  {
    var ks', ion' := ks + [req.key], QueuedIon(m, ion, req);
    forall k | k in ks'
      ensures k in ion' && k in iod && |iod[k]| == ion'[k].length && (k in ks ==> ion'[k].offset == ion[k].offset)
    {
      if k in ks {
        assert k in ion;
      }
    }
    forall i | 0 <= i < |ks'|
      ensures Writes(ion', iod, ks')[i] == (Writes(ion, iod, ks) + [Write(req.offset, iod[req.key])])[i]
    {
      if i < |ks| {
        assert ks'[i] == ks[i] && ks[i] in ks;
      }
    }
  }

  /** The metadata m' and the records ion' once a write to a file with metadata m is
      queued: it is the last record, the record that was last leads to it, and the
      access time and all other records are as they were. */
  ghost predicate Linked(req: Request, m: MetaData, ion: map<Key, IoNode>, m': MetaData, ion': map<Key, IoNode>) {
    && m' == MetaData(true, if m.dirty then m.head else req.key, req.key, req.time, m.atime)
    && req.key in ion' && ion'[req.key] == IoNode(req.time, req.offset, req.length, m.tail, "")
    && (m.dirty && m.tail != req.key ==>
          && m.tail in ion && m.tail in ion'
          && ion'[m.tail] == IoNode(ion[m.tail].time, ion[m.tail].offset, ion[m.tail].length, ion[m.tail].pre, req.key))
    && (forall k :: k in ion && k != req.key && !(m.dirty && k == m.tail) ==> k in ion' && ion'[k] == ion[k])
    && (forall k :: k in ion' ==> k in ion || k == req.key)
  }

  /** The two ways a write is queued. */
  lemma QueuedCases(m: MetaData, ion: map<Key, IoNode>, req: Request)
    requires m.tail != "" ==> m.tail in ion
    ensures m.head == "" && m.tail == "" ==>
      && Queued(m, req) == MetaData(true, req.key, req.key, req.time, m.atime)
      && QueuedIon(m, ion, req) == ion[req.key := IoNode(req.time, req.offset, req.length, "", "")]
    ensures m.head != "" && m.tail != "" ==>
      && Queued(m, req) == MetaData(true, m.head, req.key, req.time, m.atime)
      && QueuedIon(m, ion, req) ==
           ion[m.tail := ion[m.tail].(next := req.key)][req.key := IoNode(req.time, req.offset, req.length, m.tail, "")]
  {
  }

  /** Queueing a write: the file's copy, once replayed, has the write on top. */
  lemma QueuedOk(m: MetaData, ion: map<Key, IoNode>, iod: map<Key, Bytes>, ks: seq<Key>, want: Bytes, file: File, req: Request)
    requires FileOk(m, ion, iod, ks, want, file) && req.key != "" && req.key !in ion
    requires req.key in iod && |iod[req.key]| == req.length
    ensures m.tail != "" ==> m.tail in ion
    ensures FileOk(Queued(m, req), QueuedIon(m, ion, req), iod, ks + [req.key], WriteAt(want, req.offset, iod[req.key]), file)
  {
    hide WriteAt, Replay, Chain;
    ChainQueued(m, ion, ks, req);
    WritesQueued(m, ion, iod, ks, req);
    assert forall i :: 0 <= i < |ks| ==> ks[i] in ks;
    if file.Present? {
      ReplayLast(file.content, Writes(ion, iod, ks), Write(req.offset, iod[req.key]));
    }
  }

  lemma ReadOk(m: MetaData, ion: map<Key, IoNode>, iod: map<Key, Bytes>, ks: seq<Key>, want: Bytes, file: File, t: int)
    requires FileOk(m, ion, iod, ks, want, file)
    ensures FileOk(m.(atime := t), ion, iod, ks, want, file)
  {
    assert Chain(m.(atime := t), ion, ks);
  }

  /** Which file each record belongs to; records orphaned when a file was initialised
      anew belong to none. */
  ghost predicate Owned(ion: map<Key, IoNode>, chain: map<string, seq<Key>>, owner: map<Key, string>) {
    && owner.Keys <= ion.Keys
    && (forall p, k :: p in chain && k in chain[p] ==> k in owner && owner[k] == p)
    && (forall k :: k in owner ==> owner[k] in chain && k in chain[owner[k]])
  }

  lemma OwnedQueued(ion: map<Key, IoNode>, chain: map<string, seq<Key>>, owner: map<Key, string>, m: MetaData, req: Request)
    requires Owned(ion, chain, owner) && req.path in chain && req.key !in ion && Chain(m, ion, chain[req.path])
    ensures m.tail != "" ==> m.tail in ion && m.tail in owner && owner[m.tail] == req.path
    ensures Owned(QueuedIon(m, ion, req), chain[req.path := chain[req.path] + [req.key]], owner[req.key := req.path])
  {
    hide QueuedIon;
    var ks := chain[req.path];
    QueuedKeys(m, ion, req, ks);
    OwnerIs(ion, chain, owner, req.path);
    var chain', owner' := chain[req.path := ks + [req.key]], owner[req.key := req.path];
    forall p, k | p in chain' && k in chain'[p]
      ensures k in owner' && owner'[k] == p
    {
      if p != req.path {
        OwnerIs(ion, chain, owner, p);
      }
    }
    forall k | k in owner'
      ensures owner'[k] in chain' && k in chain'[owner'[k]]
    {
      if k == req.key {
        assert (ks + [req.key])[|ks|] == k;
      } else {
        assert k in chain[owner[k]];
      }
    }
  }

  lemma QueuedKeys(m: MetaData, ion: map<Key, IoNode>, req: Request, ks: seq<Key>)
    requires Chain(m, ion, ks)
    ensures m.tail != "" ==> m.tail in ion && m.tail in ks
    ensures QueuedIon(m, ion, req).Keys == ion.Keys + {req.key}
  {
    if m.tail != "" {
      assert m.tail == ks[|ks| - 1] && m.tail in ks;
    }
  }

  /** The records of one file are not those of another. */
  lemma OtherKeys(ion: map<Key, IoNode>, chain: map<string, seq<Key>>, owner: map<Key, string>, p: string, q: string, newKey: Key)
    requires Owned(ion, chain, owner) && p in chain && q in chain && p != q && newKey !in ion
    ensures forall k :: k in owner && owner[k] == p ==> k !in chain[q]
    ensures newKey !in chain[q]
  {
  }

  function FileIn(dtc: map<string, Bytes>, p: string): File {
    if p in dtc then Present(dtc[p]) else Absent
  }

  /** The databases, the data center and what is known about them. */
  datatype View = View(
    md: map<string, MetaData>, ion: map<Key, IoNode>, iod: map<Key, Bytes>, dtc: map<string, Bytes>,
    chain: map<string, seq<Key>>,   // the records queued for each file
    owner: map<Key, string>,        // the file each record is queued for
    want: map<string, Bytes>)       // what each file is to become

  ghost predicate FileOkIn(v: View, p: string)
    requires p in v.md && p in v.chain && p in v.want
  {
    FileOk(v.md[p], v.ion, v.iod, v.chain[p], v.want[p], FileIn(v.dtc, p))
  }

  /** The invariant of the whole store. */
  ghost predicate StoreOk(v: View) {
    && v.md.Keys == v.chain.Keys == v.want.Keys && Owned(v.ion, v.chain, v.owner)
    && forall p :: p in v.md ==> FileOkIn(v, p)
  }

  lemma StoreParts(v: View, path: string)
    requires StoreOk(v) && path in v.md
    ensures path in v.chain && path in v.want && FileOkIn(v, path)
    ensures FileOk(v.md[path], v.ion, v.iod, v.chain[path], v.want[path], FileIn(v.dtc, path))
    ensures Chain(v.md[path], v.ion, v.chain[path]) && DataFor(v.ion, v.iod, v.chain[path]) && Owned(v.ion, v.chain, v.owner)
  {
    hide Chain, DataFor, Writes, Replay;
  }

  /** A file keeps what holds of it while its own records and data stay. */
  lemma FileKeeps(v: View, v': View, p: string)
    requires p in v.md && p in v.chain && p in v.want && FileOkIn(v, p)
    requires p in v'.md && p in v'.chain && p in v'.want
    requires v'.md[p] == v.md[p] && v'.chain[p] == v.chain[p] && v'.want[p] == v.want[p] && FileIn(v'.dtc, p) == FileIn(v.dtc, p)
    requires forall k <- v.chain[p] :: k in v.ion && k in v.iod ==> k in v'.ion && v'.ion[k] == v.ion[k] && k in v'.iod && v'.iod[k] == v.iod[k]
    ensures FileOkIn(v', p)
  {
    hide FileOk;
    FileFrame(v.md[p], v.ion, v.iod, v.chain[p], v.want[p], FileIn(v.dtc, p), v'.ion, v'.iod);
  }

  /** The state after init_file on a file the data center holds. */
  function Initialised(v: View, path: string, m: MetaData): View
    requires path in v.dtc
  {
    var ks := if path in v.chain then v.chain[path] else [];
    v.(md := v.md[path := m], chain := v.chain[path := []], owner := v.owner - (set k | k in ks), want := v.want[path := v.dtc[path]])
  }

  lemma InitStoreOk(v: View, path: string, m: MetaData)
    requires StoreOk(v) && path in v.dtc && !m.dirty && m.head == "" && m.tail == ""
    ensures StoreOk(Initialised(v, path, m))
  {
    hide FileOk, Owned;
    var v' := Initialised(v, path, m);
    CleanOk(m, v.ion, v.iod, v.dtc[path], FileIn(v.dtc, path));
    OwnedForgotten(v.ion, v.chain, v.owner, path);
    forall p | p in v'.md && p != path
      ensures FileOkIn(v', p)
    {
      FileKeeps(v, v', p);
    }
  }

  lemma OwnedForgotten(ion: map<Key, IoNode>, chain: map<string, seq<Key>>, owner: map<Key, string>, path: string)
    requires Owned(ion, chain, owner)
    ensures var ks := if path in chain then chain[path] else [];
      Owned(ion, chain[path := []], owner - (set k | k in ks))
  {
    var ks := if path in chain then chain[path] else [];
    if path in chain {
      OwnerIs(ion, chain, owner, path);
    }
    var chain', owner' := chain[path := []], owner - (set k | k in ks);
    forall p, k | p in chain' && k in chain'[p]
      ensures k in owner' && owner'[k] == p
    {
      OwnerIs(ion, chain, owner, p);
    }
    forall k | k in owner'
      ensures owner'[k] in chain' && k in chain'[owner'[k]]
    {
      assert k in owner && k in chain[owner[k]];
    }
  }

  lemma PutStoreOk(v: View, key: Key, data: Bytes)
    requires StoreOk(v) && key !in v.ion
    ensures StoreOk(v.(iod := v.iod[key := data]))
  {
    hide FileOk, FileOkIn;
    var v' := v.(iod := v.iod[key := data]);
    forall p | p in v.md
      ensures FileOkIn(v', p)
    {
      FileKeeps(v, v', p);
    }
  }

  /** The state after que_out_modify_md on a write. */
  function WithWrite(v: View, req: Request): View
    requires req.path in v.md && req.path in v.chain && req.path in v.want && req.key in v.iod
    requires v.md[req.path].tail != "" ==> v.md[req.path].tail in v.ion
  {
    var r, m := req.path, v.md[req.path];
    v.(md := v.md[r := Queued(m, req)], ion := QueuedIon(m, v.ion, req), chain := v.chain[r := v.chain[r] + [req.key]],
       owner := v.owner[req.key := r], want := v.want[r := WriteAt(v.want[r], req.offset, v.iod[req.key])])
  }

  lemma QueuedStoreOk(v: View, req: Request)
    requires StoreOk(v) && req.path in v.md
    requires req.key != "" && req.key !in v.ion && req.key in v.iod && |v.iod[req.key]| == req.length
    ensures v.md[req.path].tail != "" ==> v.md[req.path].tail in v.ion
    ensures StoreOk(WithWrite(v, req))
  {
    hide FileOk, Owned, Chain, DataFor, WriteAt, Queued;
    var r, m := req.path, v.md[req.path];
    StoreParts(v, r);
    QueuedOk(m, v.ion, v.iod, v.chain[r], v.want[r], FileIn(v.dtc, r), req);
    OwnedQueued(v.ion, v.chain, v.owner, m, req);
    var v' := WithWrite(v, req);
    forall p | p in v.md && p != r
      ensures FileOkIn(v', p)
    {
      OtherKeys(v.ion, v.chain, v.owner, r, p, req.key);
      FileKeeps(v, v', p);
    }
  }

  function WithRead(v: View, path: string, t: int): View
    requires path in v.md
  {
    v.(md := v.md[path := v.md[path].(atime := t)])
  }

  lemma ReadStoreOk(v: View, path: string, t: int)
    requires StoreOk(v) && path in v.md
    ensures StoreOk(WithRead(v, path, t))
  {
    hide FileOk;
    ReadOk(v.md[path], v.ion, v.iod, v.chain[path], v.want[path], FileIn(v.dtc, path), t);
    forall p | p in v.md && p != path
      ensures FileOkIn(WithRead(v, path, t), p)
    {
      assert FileOkIn(v, p);
    }
  }

  // ---------- flushing ----------

  lemma EmptyWrite(content: Bytes, offset: nat, data: Bytes)
    ensures |data| == 0 ==> WriteAt(content, offset, data) == content
  {
  }

  /** Records ks, reached from head, hold the writes that turn content into want. */
  ghost predicate Pending(head: Key, ion: map<Key, IoNode>, iod: map<Key, Bytes>, ks: seq<Key>, want: Bytes, content: Bytes) {
    && ks != [] && head == ks[0] && DataFor(ion, iod, ks)
    && Links(ion, ks)
    && (forall i, j :: 0 <= i < j < |ks| ==> ks[i] != ks[j])
    && want == Replay(content, Writes(ion, iod, ks))
  }

  lemma PendingStart(m: MetaData, ion: map<Key, IoNode>, iod: map<Key, Bytes>, ks: seq<Key>, want: Bytes, content: Bytes)
    requires FileOk(m, ion, iod, ks, want, Present(content)) && m.dirty
    ensures Pending(m.head, ion, iod, ks, want, content) && m.head != "" && m.tail != ""
  {
    hide DataFor, Writes, Replay;
  }

  lemma PendingHead(head: Key, ion: map<Key, IoNode>, iod: map<Key, Bytes>, ks: seq<Key>, want: Bytes, content: Bytes)
    requires Pending(head, ion, iod, ks, want, content)
    ensures head == ks[0] && head != "" && head in ion && head in iod && |iod[head]| == ion[head].length
    ensures head !in ks[1..] && ks == [head] + ks[1..]
    ensures |ks| == 1 <==> ion[head].next == ""
  {
    hide Writes, Replay;
    assert ks[0] in ks;
    assert |ks| > 1 ==> ks[1] != "";
    assert forall i :: 0 <= i < |ks| - 1 ==> ks[1..][i] == ks[i + 1];
    assert ion[ks[0]].next == NextKey(ks, 0);
  }

  lemma WritesTail(ion: map<Key, IoNode>, iod: map<Key, Bytes>, ks: seq<Key>, ion': map<Key, IoNode>, iod': map<Key, Bytes>)
    requires DataFor(ion, iod, ks) && ks != [] && ks[0] !in ks[1..]
    requires ion' == ion - {ks[0]} && (iod' == iod || iod' == iod - {ks[0]})
    ensures ks[0] in ks && DataFor(ion', iod', ks[1..])
    ensures Writes(ion, iod, ks)[0] == Write(ion[ks[0]].offset, iod[ks[0]])
    ensures Writes(ion, iod, ks)[1..] == Writes(ion', iod', ks[1..])
  {
    assert ks[0] in ks;
    assert forall i :: 0 <= i < |ks| - 1 ==> ks[1..][i] == ks[i + 1] && ks[1..][i] in ks[1..];
    assert forall k <- ks[1..] :: k in ks;
  }

  ghost predicate Links(ion: map<Key, IoNode>, ks: seq<Key>) {
    forall i :: 0 <= i < |ks| ==>
      ks[i] != "" && ks[i] in ion && ion[ks[i]].next == NextKey(ks, i)
  }

  lemma LinksTail(ion: map<Key, IoNode>, ks: seq<Key>)
    requires Links(ion, ks) && ks != [] && ks[0] !in ks[1..]
    ensures Links(ion - {ks[0]}, ks[1..])
  {
    var rest := ks[1..];
    forall i | 0 <= i < |rest|
      ensures rest[i] != "" && rest[i] in ion - {ks[0]} && ion[rest[i]].next == NextKey(rest, i)
    {
      assert rest[i] == ks[i + 1] && rest[i] in rest;
      assert NextKey(rest, i) == NextKey(ks, i + 1);
    }
  }

  /** Writing the first record back and dropping it leaves the others pending. */
  lemma PendingStep(head: Key, ion: map<Key, IoNode>, iod: map<Key, Bytes>, ks: seq<Key>, want: Bytes, content: Bytes,
                    ion': map<Key, IoNode>, iod': map<Key, Bytes>)
    requires Pending(head, ion, iod, ks, want, content)
    requires ion' == ion - {head} && (iod' == iod || iod' == iod - {head})
    ensures head in ion && head in iod
    ensures |ks| == 1 ==> want == WriteAt(content, ion[head].offset, iod[head])
    ensures |ks| > 1 ==> Pending(ion[head].next, ion', iod', ks[1..], want, WriteAt(content, ion[head].offset, iod[head]))
  {
    hide WriteAt;
    PendingHead(head, ion, iod, ks, want, content);
    WritesTail(ion, iod, ks, ion', iod');
    var ws := Writes(ion, iod, ks);
    assert Replay(content, ws) == Replay(WriteAt(content, ws[0].offset, ws[0].data), ws[1..]);
    if |ks| > 1 {
      LinksTail(ion, ks);
    }
  }

  function Clean(m: MetaData): MetaData {
    m.(dirty := false, head := "", tail := "")
  }

  /** From v to v' the records done are gone, and nothing but the file's copy has
      changed beside. */
  ghost predicate Drained(path: string, done: set<Key>, v: View, v': View) {
    && path in v'.dtc && v'.dtc == v.dtc[path := v'.dtc[path]]
    && v'.ion == v.ion - done
    && (forall k :: k in v'.iod <==> k in v.iod && (k in done ==> k in v.ion && v.ion[k].length == 0))
    && (forall k :: k in v'.iod ==> k in v.iod && v'.iod[k] == v.iod[k])
    && v'.md == v.md && v'.chain == v.chain && v'.owner == v.owner && v'.want == v.want
  }

  lemma DrainedNone(path: string, v: View)
    requires path in v.dtc
    ensures Drained(path, {}, v, v)
  {
  }

  lemma DrainStep(path: string, done: set<Key>, v: View, v1: View, key: Key, v2: View)
    requires Drained(path, done, v, v1) && key in v1.ion
    requires v2.ion == v1.ion - {key} && v2.iod == if v1.ion[key].length > 0 then v1.iod - {key} else v1.iod
    requires path in v2.dtc && v2.dtc == v1.dtc[path := v2.dtc[path]]
    requires v2.md == v1.md && v2.chain == v1.chain && v2.owner == v1.owner && v2.want == v1.want
    ensures Drained(path, done + {key}, v, v2)
  {
    assert v.ion - done - {key} == v.ion - (done + {key});
  }

  lemma TakeHead(ks: seq<Key>, rest: seq<Key>, done: set<Key>)
    requires rest != [] && forall k :: k in ks <==> k in done || k in rest
    ensures forall k :: k in ks <==> k in done + {rest[0]} || k in rest[1..]
  {
    assert rest == [rest[0]] + rest[1..];
  }

  lemma OwnerIs(ion: map<Key, IoNode>, chain: map<string, seq<Key>>, owner: map<Key, string>, p: string)
    requires Owned(ion, chain, owner) && p in chain
    ensures forall k :: k in chain[p] ==> k in owner && owner[k] == p
  {
  }

  lemma OwnedApart(ion: map<Key, IoNode>, chain: map<string, seq<Key>>, owner: map<Key, string>, p: string, q: string)
    requires Owned(ion, chain, owner) && p in chain && q in chain && p != q
    ensures forall k :: k in chain[p] ==> k !in chain[q]
  {
    OwnerIs(ion, chain, owner, p);
    OwnerIs(ion, chain, owner, q);
  }

  lemma OwnedFlushed(ion: map<Key, IoNode>, chain: map<string, seq<Key>>, owner: map<Key, string>, path: string, done: set<Key>)
    requires Owned(ion, chain, owner) && path in chain
    requires forall k :: k in done <==> k in chain[path]
    ensures Owned(ion - done, chain[path := []], owner - done)
  {
    forall p, k | p in chain && p != path && k in chain[p]
      ensures k in owner - done && owner[k] == p
    {
      OwnedApart(ion, chain, owner, p, path);
      OwnerIs(ion, chain, owner, p);
    }
    forall k | k in owner - done
      ensures owner[k] in chain && owner[k] != path && k in chain[owner[k]]
    {
      assert k in owner && k in chain[owner[k]];
    }
  }

  /** The state once the file's metadata is put back clean. */
  function Settled(v: View, path: string, done: set<Key>): View
    requires path in v.md
  {
    v.(md := v.md[path := Clean(v.md[path])], chain := v.chain[path := []], owner := v.owner - done)
  }

  lemma FlushedStoreOk(v: View, v': View, path: string, done: set<Key>)
    requires StoreOk(v) && path in v.md && Drained(path, done, v, v')
    requires path in v.want && v'.dtc[path] == v.want[path]
    requires path in v.chain && forall k :: k in done <==> k in v.chain[path]
    ensures StoreOk(Settled(v', path, done))
  {
    hide FileOk, Owned;
    var u := Settled(v', path, done);
    OwnedFlushed(v.ion, v.chain, v.owner, path, done);
    CleanOk(u.md[path], u.ion, u.iod, v.want[path], Present(v.want[path]));
    forall p | p in v.md && p != path
      ensures FileOkIn(u, p)
    {
      OwnedApart(v.ion, v.chain, v.owner, p, path);
      FileKeeps(v, u, p);
    }
  }

  lemma ChainMirror(m: MetaData, ion: map<Key, IoNode>, ks: seq<Key>)
    requires Chain(m, ion, ks)
    ensures m.dirty ==> m.head in ion && ion[m.head].pre == "" && m.tail in ion && ion[m.tail].next == ""
    ensures forall k <- ks :: k in ion && (ion[k].next != "" ==> ion[k].next in ion && ion[ion[k].next].pre == k)
  {
    forall k | k in ks
      ensures k in ion && (ion[k].next != "" ==> ion[k].next in ion && ion[ion[k].next].pre == k)
    {
      var i :| 0 <= i < |ks| && ks[i] == k;
      assert i + 1 < |ks| ==> PrevKey(ks, i + 1) == ks[i];
    }
  }

  /** What the invariant says of a file: no record is met twice on its chain, the
      links mirror each other, nothing is pending exactly when it is clean, and
      replaying what is pending gives the content its writers are owed. */
  lemma FileMeans(m: MetaData, ion: map<Key, IoNode>, iod: map<Key, Bytes>, ks: seq<Key>, want: Bytes, content: Bytes)
    requires FileOk(m, ion, iod, ks, want, Present(content))
    ensures DataFor(ion, iod, ks) && Replay(content, Writes(ion, iod, ks)) == want
    ensures !m.dirty <==> ks == []
    ensures !m.dirty ==> content == want
    ensures m.dirty ==> m.head in ion && ion[m.head].pre == "" && m.tail in ion && ion[m.tail].next == ""
    ensures forall k <- ks :: k in ion && (ion[k].next != "" ==> ion[k].next in ion && ion[ion[k].next].pre == k)
    ensures forall i, j :: 0 <= i < j < |ks| ==> ks[i] != ks[j]
  {
    hide WriteAt;
    ChainMirror(m, ion, ks);
  }

  /** What a file is to become is what it first held with every write queued since,
      in the order of queueing. */
  ghost predicate HistoryOk(first: map<string, Bytes>, queued: map<string, seq<Write>>, want: map<string, Bytes>) {
    && first.Keys == queued.Keys == want.Keys
    && forall p :: p in want ==> want[p] == Replay(first[p], queued[p])
  }

  lemma HistoryFirst(first: map<string, Bytes>, queued: map<string, seq<Write>>, want: map<string, Bytes>, path: string, content: Bytes)
    requires HistoryOk(first, queued, want)
    ensures HistoryOk(first[path := content], queued[path := []], want[path := content])
  {
  }

  lemma HistoryWrite(first: map<string, Bytes>, queued: map<string, seq<Write>>, want: map<string, Bytes>, path: string, w: Write)
    requires HistoryOk(first, queued, want) && path in want
    ensures path in queued
    ensures HistoryOk(first, queued[path := queued[path] + [w]], want[path := WriteAt(want[path], w.offset, w.data)])
  {
    hide WriteAt, Replay;
    ReplayLast(first[path], queued[path], w);
  }

  lemma HistoryIs(first: map<string, Bytes>, queued: map<string, seq<Write>>, want: map<string, Bytes>, path: string)
    requires HistoryOk(first, queued, want) && path in want
    ensures path in first && path in queued && want[path] == Replay(first[path], queued[path])
  {
  }

  /** The whole new state after a write is queued: its record at the tail of its
      file's chain, its data last among the file's writes. */
  ghost predicate WriteQueued(req: Request, data: Bytes,
                              md: map<string, MetaData>, ion: map<Key, IoNode>, chain: map<string, seq<Key>>, queued: map<string, seq<Write>>,
                              md': map<string, MetaData>, ion': map<Key, IoNode>, chain': map<string, seq<Key>>, queued': map<string, seq<Write>>) {
    && req.path in md && req.path in chain && req.path in queued
    && (md[req.path].tail != "" ==> md[req.path].tail in ion)
    && md' == md[req.path := Queued(md[req.path], req)] && ion' == QueuedIon(md[req.path], ion, req)
    && chain' == chain[req.path := chain[req.path] + [req.key]]
    && queued' == queued[req.path := queued[req.path] + [Write(req.offset, data)]]
  }

  lemma FlushEnds(v: View, v': View, path: string, ks: seq<Key>, done: set<Key>)
    requires StoreOk(v) && path in v.md && Drained(path, done, v, v')
    requires path in v.want && v'.dtc[path] == v.want[path]
    requires path in v.chain && ks == v.chain[path] && forall k :: k in done <==> k in ks
    ensures StoreOk(Settled(v', path, done)) && Flushed(path, ks, v, Settled(v', path, done))
  {
    hide StoreOk;
    FlushedStoreOk(v, v', path, done);
    FlushedIs(path, ks, done, v, v');
  }

  /** What a flush does: the file is clean, its records are gone, with their data
      unless that is empty, and its copy is all else that has changed. */
  ghost predicate Flushed(path: string, ks: seq<Key>, v: View, v': View) {
    && path in v.md && path in v.chain && path in v'.dtc
    && v'.md == v.md[path := Clean(v.md[path])] && v'.chain == v.chain[path := []]
    && v'.dtc == v.dtc[path := v'.dtc[path]] && v'.want == v.want
    && (forall k :: k in v'.ion <==> k in v.ion && k !in ks)
    && (forall k :: k in v'.ion ==> v'.ion[k] == v.ion[k])
    && (forall k :: k in v'.iod <==> k in v.iod && (k in ks ==> k in v.ion && v.ion[k].length == 0))
    && (forall k :: k in v'.iod ==> k in v.iod && v'.iod[k] == v.iod[k])
  }

  lemma FlushedIs(path: string, ks: seq<Key>, done: set<Key>, v: View, v': View)
    requires Drained(path, done, v, v') && path in v.md && path in v.chain
    requires forall k :: k in done <==> k in ks
    ensures Flushed(path, ks, v, Settled(v', path, done))
  {
  }

  class Store {
    var md: map<string, MetaData>
    var ion: map<Key, IoNode>
    var iod: map<Key, Bytes>
    var dtc: map<string, Bytes>              // files of the data center
    ghost var chain: map<string, seq<Key>>   // the records queued for each file
    ghost var owner: map<Key, string>        // the file each record is queued for
    ghost var want: map<string, Bytes>       // what each file is to become
    ghost var first: map<string, Bytes>      // what each file held when it was initialised
    ghost var queued: map<string, seq<Write>>   // every write queued since, in order

    ghost predicate Valid()
      reads this
    {
      StoreOk(Now()) && HistoryOk(first, queued, want)
    }

    ghost function Now(): View
      reads this
    {
      View(md, ion, iod, dtc, chain, owner, want)
    }

    /** A store over the files of the data center. */
    constructor (files: map<string, Bytes>)
      ensures Valid() && md == map[] && dtc == files && ion == map[] && iod == map[] && queued == map[]
    {
      md, ion, iod, dtc, chain, owner, want := map[], map[], map[], files, map[], map[], map[];
      first, queued := map[], map[];
    }

    /** init_file; result 1 if the data center lacks the file.  Records still queued
        for a file known before are orphaned: their writes are lost. */
    method InitFile(path: string, mtime: int, atime: int) returns (rt: int)
      requires Valid()
      modifies this
      ensures Valid() && dtc == old(dtc) && ion == old(ion) && iod == old(iod)
      ensures path !in dtc ==> rt == 1 && md == old(md) && first == old(first) && queued == old(queued) && chain == old(chain)
      ensures path in dtc ==>
        && rt == 0 && md == old(md)[path := MetaData(false, "", "", mtime, atime)]
        && chain == old(chain)[path := []] && first == old(first)[path := dtc[path]] && queued == old(queued)[path := []]
    {
      hide StoreOk, HistoryOk;
      if path !in dtc {
        return 1;
      }
      var m := MetaData(false, "", "", mtime, atime);
      InitStoreOk(Now(), path, m);
      HistoryFirst(first, queued, want, path, dtc[path]);
      ghost var v := Initialised(Now(), path, m);
      md := md[path := m];
      chain, owner, want := v.chain, v.owner, v.want;
      first, queued := first[path := dtc[path]], queued[path := []];
      rt := 0;
    }

    /** The writer's iod_put, before its request is queued. */
    method PutData(key: Key, data: Bytes)
      requires Valid() && key !in ion
      modifies this`iod
      ensures Valid() && iod == old(iod)[key := data]
    {
      hide StoreOk, HistoryOk;
      PutStoreOk(Now(), key, data);
      iod := iod[key := data];
    }

    /** que_out_modify_md: a write is put at the end of the file's chain, a read
        only sets the access time.  Result 0, 1 for a file with no metadata, or 6
        for an unknown kind. */
    method QueueOut(req: Request) returns (rt: int)
      requires Valid()
      requires req.io == IoWrite ==> req.key != "" && req.key !in ion && req.key in iod && |iod[req.key]| == req.length
      modifies this`md, this`ion, this`chain, this`owner, this`want, this`queued
      ensures Valid()
      ensures req.path !in md ==> rt == 1 && chain == old(chain) && queued == old(queued) && ion == old(ion) && md == old(md)
      ensures req.io == IoWrite && req.path in old(md) ==>
        rt == 0 && WriteQueued(req, iod[req.key], old(md), old(ion), old(chain), old(queued), md, ion, chain, queued)
      ensures req.io == IoWrite && req.path in old(md) ==>
        && req.path in md && Linked(req, old(md)[req.path], old(ion), md[req.path], ion)
      ensures req.io != IoWrite ==> chain == old(chain) && queued == old(queued) && ion == old(ion)
      ensures req.io == IoRead && req.path in old(md) ==> rt == 0 && md == old(md)[req.path := old(md)[req.path].(atime := req.time)]
      ensures req.io == IoOther && req.path in old(md) ==> rt == 6 && md == old(md)
    {
      hide FileOk, Owned, Chain, WriteAt, HistoryOk, Replay, DataFor, NextKey, PrevKey, Writes, StoreOk, Queued, QueuedIon, Linked;
      if req.path !in md {
        return 1;
      }
      var m := md[req.path];
      StoreParts(Now(), req.path);
      ChainShape(m, ion, chain[req.path]);
      if req.io == IoWrite {
        QueuedStoreOk(Now(), req);
        HistoryWrite(first, queued, want, req.path, Write(req.offset, iod[req.key]));
        ghost var v := WithWrite(Now(), req);
        m := LinkRecord(m, req);
        chain, owner, want := v.chain, v.owner, v.want;
        queued := queued[req.path := queued[req.path] + [Write(req.offset, iod[req.key])]];
      } else if req.io == IoRead {
        ReadStoreOk(Now(), req.path, req.time);
        m := m.(atime := req.time);
      } else {
        return 6;
      }
      md := md[req.path := m];
      rt := 0;
    }

    /** The write branch of que_out_modify_md: the record and the links to it. */
    method LinkRecord(m0: MetaData, req: Request) returns (m: MetaData)
      requires (m0.dirty <==> m0.head != "" && m0.tail != "") && (!m0.dirty <==> m0.head == "" && m0.tail == "")
      requires m0.dirty ==> m0.tail in ion
      modifies this`ion
      ensures m == Queued(m0, req) && ion == QueuedIon(m0, old(ion), req)
      ensures Linked(req, m0, old(ion), m, ion)
    {
      hide Queued, QueuedIon;
      QueuedCases(m0, ion, req);
      m := m0;
      var node := IoNode(req.time, req.offset, req.length, "", "");
      if !m.dirty && m.head == "" && m.tail == "" {
        m := m.(head := req.key, tail := req.key);
      } else if m.dirty && m.head != "" && m.tail != "" {
        ion := ion[m.tail := ion[m.tail].(next := req.key)];
        node := node.(pre := m.tail);
        m := m.(tail := req.key);
      } else {
        assert false;    // the state it reports as unacceptable
      }
      ion := ion[m.tail := node];
      m := m.(mtime := req.time, dirty := true);
    }

    /** One turn of the flush loop: writes a record back, drops it, and returns the next. */
    method WriteRecord(path: string, key: Key) returns (next: Key)
      requires path in dtc && key in ion && key in iod && |iod[key]| == ion[key].length
      modifies this`ion, this`iod, this`dtc
      ensures next == old(ion)[key].next && ion == old(ion) - {key}
      ensures iod == if old(ion)[key].length > 0 then old(iod) - {key} else old(iod)
      ensures dtc == old(dtc)[path := WriteAt(old(dtc)[path], old(ion)[key].offset, old(iod)[key])]
    {
      hide WriteAt;
      var node := ion[key];
      EmptyWrite(dtc[path], node.offset, iod[key]);
      if node.length > 0 {
        dtc := dtc[path := WriteAt(dtc[path], node.offset, iod[key])];
        iod := iod - {key};
      }
      ion := ion - {key};
      next := node.next;
    }

    /** The per-file body of flush2data_center; true when the file was flushed. */
    method Flush(path: string) returns (flushed: bool)
      requires Valid()
      modifies this
      ensures queued == old(queued) && first == old(first)
      ensures flushed <==> path in old(md) && old(md)[path].dirty && path in old(dtc)
      ensures flushed ==>
        && path in old(chain) && path in first && path in queued
        && Flushed(path, old(chain)[path], old(Now()), Now()) && dtc[path] == Replay(first[path], queued[path])
      ensures flushed ==> md == old(md)[path := MetaData(false, "", "", old(md)[path].mtime, old(md)[path].atime)]
      ensures !flushed ==> Now() == old(Now())
      ensures Valid()
    {
      hide StoreOk, FileOk, Pending, Chain, WriteAt, DataFor, Drained, Replay, Links, Writes, Owned, NextKey, PrevKey, HistoryOk, Flushed, FileOkIn;
      if path !in md || !md[path].dirty {
        return false;
      }
      var m := md[path];
      StoreParts(Now(), path);
      ChainShape(m, ion, chain[path]);
      if !(m.head != "" && m.tail != "" && m.dirty) {
        return false;
      }
      if path !in dtc {
        return false;
      }
      ghost var ks, rest, done: set<Key> := chain[path], chain[path], {};
      ghost var v := Now();
      PendingStart(m, ion, iod, ks, want[path], dtc[path]);
      DrainedNone(path, v);
      var len := |m.head|;
      while len > 0
        modifies this`ion, this`iod, this`dtc
        invariant len > 0 && path in dtc
        invariant Pending(m.head, ion, iod, rest, want[path], dtc[path])
        invariant Drained(path, done, v, Now()) && m == md[path].(head := m.head)
        invariant forall k :: k in ks <==> k in done || k in rest
        decreases |rest|
      {
        PendingHead(m.head, ion, iod, rest, want[path], dtc[path]);
        ghost var head, v1 := m.head, Now();
        var next := WriteRecord(path, m.head);
        PendingStep(head, v1.ion, v1.iod, rest, want[path], v1.dtc[path], ion, iod);
        DrainStep(path, done, v, v1, head, Now());
        TakeHead(ks, rest, done);
        done, rest := done + {head}, rest[1..];
        len := |next|;
        if len == 0 {
          break;
        }
        m := m.(head := next);
      }
      FlushEnds(v, Now(), path, ks, done);
      HistoryIs(first, queued, want, path);
      m := Clean(m);
      md := md[path := m];
      chain := chain[path := []];
      owner := owner - done;
      flushed := true;
    }
  }
}
