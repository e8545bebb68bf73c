/** The buffer through which rsync/src.c reads the file it searches. */
module SourceBuffer {
  import opened Files

  const FILL: nat := 1024                       // EVERY_READ_BYTES
  const U64: nat := 0x1_0000_0000_0000_0000
  const SEEKABLE: nat := 0x8000_0000_0000_0000  // lseek refuses what is negative as a signed offset

  function Least(a: nat, b: nat): nat {
    if a < b then a else b
  }

  /** len bytes of a file from an offset, fewer at its end. */
  function Slice(file: Bytes, from: nat, len: nat): (s: Bytes)
    ensures from < |file| ==> |s| == Least(len, |file| - from)
  {
    if from >= |file| then [] else file[from..from + Least(len, |file| - from)]
  }

  class Buffer {
    const file: Bytes
    var pos: nat       // position of the descriptor
    var off: nat       // buf_file_off
    var bytes: nat     // buf_bytes
    var buf: Bytes     // what the last read put there

    /** The buffer holds the bytes of the file it says it holds. */
    ghost predicate Valid()
      reads this
    {
      && |file| < SEEKABLE && off + bytes <= |file| && bytes <= |buf| && buf[..bytes] == file[off..off + bytes]
    }

    /** The bytes asked for are in the buffer, as far as the file has them. */
    ghost predicate Covers(offset: nat, len: nat)
      reads this
    {
      off <= offset && (offset + len <= off + bytes || (offset < off + bytes && off + bytes == |file|))
    }

    /** buf_init on a newly opened file. */
    constructor (file: Bytes)
      requires |file| < SEEKABLE
      ensures Valid() && this.file == file && pos == 0 && off == 0 && bytes == 0
    {
      this.file := file;
      pos, off, bytes, buf := 0, 0, 0, [];
    }

    /** fill_buf; a seek that fails leaves the descriptor where it is. */
    method FillBuf(from: nat, len: nat) returns (rt: int)
      requires from < U64 && len < 0x1_0000_0000 && |file| < SEEKABLE
      modifies this
      ensures var at := if from < SEEKABLE then from else old(pos);
        var n := |Slice(file, at, len)|;
        && buf == Slice(file, at, len) && pos == at + n
        && (rt == 0 <==> n == len || (n < len && (n + from) % U64 == |file|))
        && (rt == 0 ==> off == from && bytes == n)
        && (rt != 0 ==> rt == 1 && off == old(off) && bytes == old(bytes))
    {
      if from < SEEKABLE {
        pos := from;
      }
      buf := Slice(file, pos, len);
      var n := |buf|;
      pos := pos + n;
      if n == len || (n < len && (n + from) % U64 == |file|) {
        off := from;
        bytes := n;
        return 0;
      }
      return 1;
    }

    /** The two accepted cases of read_from_buf. */
    method Held(offset: nat, len: nat) returns (ok: bool, data: Bytes)
      requires offset < |file| < SEEKABLE && 0 < len < FILL
      requires Valid() || (offset == 0 && off == U64 - 1 && bytes == FILL)
      ensures Valid() ==> (ok <==> Covers(offset, len))
      ensures off == U64 - 1 ==> !ok
      ensures ok ==> data == Slice(file, offset, len)
    {
      hide Slice;
      var bufLast, reqLast := (off + bytes) % U64, (offset + len) % U64;
      Wraps(off, bytes);
      Wraps(offset, len);
      if reqLast <= bufLast && offset >= off {
        HeldSlice(file, buf, off, bytes, offset, len);
        return true, buf[offset - off..offset - off + len];
      }
      if offset >= off && offset < bufLast && reqLast >= bufLast && bufLast == |file| {
        HeldTail(file, buf, off, bytes, offset, len);
        return true, buf[offset - off..bytes];
      }
      return false, [];
    }

    /** read_from_buf, for an offset inside the file.  It succeeds exactly if the
        offset is not 0 or the bytes are in the buffer already. */
    method ReadFromBuf(offset: nat, len: nat) returns (ok: bool, data: Bytes)
      requires Valid() && offset < |file| && 0 < len < FILL
      modifies this
      ensures ok <==> offset > 0 || old(Covers(offset, len))
      ensures ok ==> Valid() && Covers(offset, len) && data == Slice(file, offset, len)
    {
      hide Slice;
      ghost var filled := false;
      while true
        invariant !filled ==> Valid() && off == old(off) && bytes == old(bytes)
        invariant filled && offset > 0 ==> Valid() && Covers(offset, len)
        invariant filled && offset == 0 ==> !old(Covers(offset, len)) && off == U64 - 1 && bytes == FILL
        decreases !filled, if offset > 0 || pos > |file| then 0 else |file| - pos
      {
        ok, data := Held(offset, len);
        if ok {
          return;
        }
        FillsAhead(file, offset, len);
        FillsFirst(file, pos);
        var rt := FillBuf(if offset == 0 then U64 - 1 else offset - 1, FILL);
        if rt != 0 {
          return false, [];
        }
        filled := true;
      }
    }
  }

  lemma Wraps(a: nat, b: nat)
    ensures a + b < U64 ==> (a + b) % U64 == a + b
    ensures a == U64 - 1 && b == FILL ==> (a + b) % U64 == FILL - 1
  {
  }

  /** Filling from the byte before an offset: accepted, and enough. */
  lemma FillsAhead(file: Bytes, offset: nat, len: nat)
    requires offset < |file| < SEEKABLE && 0 < len < FILL
    ensures offset > 0 ==>
      var n := |Slice(file, offset - 1, FILL)|;
      && (n == FILL || (n < FILL && (n + (offset - 1)) % U64 == |file|))
      && offset - 1 + n <= |file| && Slice(file, offset - 1, FILL) == file[offset - 1..offset - 1 + n]
      && (offset + len <= offset - 1 + n || (offset < offset - 1 + n && offset - 1 + n == |file|))
  {
  }

  /** Filling after the seek to before offset 0 has failed: accepted only while whole
      pieces of the file go by. */
  lemma FillsFirst(file: Bytes, pos: nat)
    requires |file| < SEEKABLE
    ensures var n := |Slice(file, pos, FILL)|;
      && n <= FILL && (n == FILL ==> pos + FILL <= |file|)
      && (n < FILL ==> (n + (U64 - 1)) % U64 != |file|)
  {
    var n := |Slice(file, pos, FILL)|;
    Passes(n);
  }

  lemma Passes(n: nat)
    requires n <= FILL
    ensures (n + (U64 - 1)) % U64 == if n == 0 then U64 - 1 else n - 1
  {
    assert n > 0 ==> n + (U64 - 1) == U64 + (n - 1);
  }

  lemma HeldSlice(file: Bytes, buf: Bytes, off: nat, bytes: nat, offset: nat, len: nat)
    requires off + bytes <= |file| && bytes <= |buf| && buf[..bytes] == file[off..off + bytes]
    requires off <= offset < |file| && offset + len <= off + bytes
    ensures buf[offset - off..offset - off + len] == Slice(file, offset, len)
  {
    var a := offset - off;
    assert buf[a..a + len] == buf[..bytes][a..a + len];
    assert file[offset..offset + len] == file[off..off + bytes][a..a + len];
  }

  lemma HeldTail(file: Bytes, buf: Bytes, off: nat, bytes: nat, offset: nat, len: nat)
    requires off + bytes == |file| && bytes <= |buf| && buf[..bytes] == file[off..off + bytes]
    requires off <= offset < |file| && offset + len >= |file|
    ensures buf[offset - off..bytes] == Slice(file, offset, len)
  {
    var a := offset - off;
    assert buf[a..bytes] == buf[..bytes][a..];
    assert file[offset..] == file[off..off + bytes][a..];
  }

  /** The first turn of the search of rsync/src.c: whatever the file, its first read,
      at offset 0, fails, and the search ends. */
  method SearchBegins(file: Bytes, len: nat) returns (goesOn: bool)
    requires 0 < |file| < SEEKABLE && 0 < len < FILL
    ensures !goesOn
  {
    var b := new Buffer(file);
    var ok, _ := b.ReadFromBuf(0, len);
    goesOn := ok;
  }
}
