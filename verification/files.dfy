/** Files as byte sequences. */
module Files {
  type Bytes = seq<bv8>

  /** lseek and write: writing at an offset, past the end after a gap of zero bytes. */
  function WriteAt(content: Bytes, offset: nat, data: Bytes): (after: Bytes)
    ensures data != [] ==> |after| == if offset + |data| > |content| then offset + |data| else |content|
  {
    if data == [] then content
    else if offset > |content| then content + seq(offset - |content|, _ => 0) + data
    else if offset + |data| >= |content| then content[..offset] + data
    else content[..offset] + data + content[offset + |data|..]
  }

  /** What a write leaves of a file that reaches its offset. */
  lemma Written(content: Bytes, offset: nat, data: Bytes)
    requires offset <= |content|
    ensures |WriteAt(content, offset, data)| >= |content|
    ensures |WriteAt(content, offset, data)| >= offset + |data|
    ensures WriteAt(content, offset, data)[..offset] == content[..offset]
    ensures WriteAt(content, offset, data)[offset..offset + |data|] == data
    ensures offset + |data| <= |content| ==> WriteAt(content, offset, data)[offset + |data|..] == content[offset + |data|..]
  {
  }

  /** A write never shortens a file nor touches the bytes after it. */
  lemma WrittenAfter(content: Bytes, offset: nat, data: Bytes, from: nat)
    requires offset + |data| <= from <= |content|
    ensures |WriteAt(content, offset, data)| == |content|
    ensures WriteAt(content, offset, data)[from..] == content[from..]
  {
  }

  /** Every byte of the file after a write. */
  lemma WrittenBytes(content: Bytes, offset: nat, data: Bytes)
    ensures data == [] ==> WriteAt(content, offset, data) == content
    ensures data != [] ==> forall k :: 0 <= k < |WriteAt(content, offset, data)| ==>
      WriteAt(content, offset, data)[k] ==
        if offset <= k < offset + |data| then data[k - offset] else if k < |content| then content[k] else 0
  {
  }
}
