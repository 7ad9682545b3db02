/**
 What the `read` and `write` commands mean on the contents of one file, and how the
 kernel's `write` system call relates to it.
 */
module FileSpec {
  import opened Bytes

  const READ_LIMIT := 4096

  /** One byte of the file after `data` was written at `offset`; past the old end lie spaces. */
  function ByteAfter(file: seq<byte>, offset: nat, data: seq<byte>, k: nat): byte {
    if offset <= k < offset + |data| then data[k - offset]
    else if k < |file| then file[k]
    else SPACE
  }

  /** The whole file after a `write` command. */
  function Written(file: seq<byte>, offset: nat, data: seq<byte>): (r: seq<byte>) {
    seq(Max(|file|, offset + |data|), k requires 0 <= k => ByteAfter(file, offset, data, k))
  }

  /** What a `read` command returns. */
  function ReadBack(file: seq<byte>, offset: nat): (r: seq<byte>)
    requires offset <= |file|
  {
    file[offset..Min(offset + READ_LIMIT, |file|)]
  }

  /** The `write` system call at a file position; a gap past the end of file is filled with NULs. */
  function KernelWrite(file: seq<byte>, pos: nat, bytes: seq<byte>): (r: seq<byte>) {
    if bytes == [] then file
    else if pos > |file| then file + seq(pos - |file|, _ => NUL) + bytes
    else file[..pos] + bytes + if pos + |bytes| < |file| then file[pos + |bytes|..] else []
  }

  /** Nothing written at an offset inside the file changes nothing. */
  lemma WrittenNothing(file: seq<byte>, offset: nat)
    requires offset <= |file|
    ensures Written(file, offset, []) == file
  {
  }

  /** One iteration of the padding loop. */
  lemma PadOneMore(file: seq<byte>, i: nat)
    requires |file| <= i
    ensures KernelWrite(Written(file, i, []), i, [SPACE]) == Written(file, i + 1, [])
  {
  }

  /** The final `write` after padding (or after seeking inside the file) leaves no hole. */
  lemma DataAfterPadding(file: seq<byte>, offset: nat, data: seq<byte>)
    ensures |Written(file, offset, [])| >= offset
    ensures KernelWrite(Written(file, offset, []), offset, data) == Written(file, offset, data)
  {
    if data != [] {
      var padded := Written(file, offset, []);
      var l, r := KernelWrite(padded, offset, data), Written(file, offset, data);
      assert |l| == |r|;
      assert forall k :: 0 <= k < |l| ==> l[k] == r[k];
    }
  }

  /**
   Reading back at the offset of a write: the data, then whatever the old file had beyond
   it, cut at 4096 bytes.
   */
  lemma ReadAfterWrite(file: seq<byte>, offset: nat, data: seq<byte>)
    ensures offset <= |Written(file, offset, data)|
    ensures var tail := if offset + |data| < |file| then file[offset + |data|..] else [];
            ReadBack(Written(file, offset, data), offset)
            == (data + tail)[..Min(READ_LIMIT, |data + tail|)]
  {
    var tail := if offset + |data| < |file| then file[offset + |data|..] else [];
    var l := ReadBack(Written(file, offset, data), offset);
    var r := (data + tail)[..Min(READ_LIMIT, |data + tail|)];
    assert |l| == |r|;
    forall k | 0 <= k < |l| ensures l[k] == r[k] {
      assert l[k] == ByteAfter(file, offset, data, offset + k);
    }
  }

  /** A write of `data` at `offset` sets byte `k` of the file. */
  predicate Covers(offset: nat, data: seq<byte>, k: nat) {
    offset <= k < offset + |data|
  }

  /** Wherever the two ranges meet, both writes put the same byte. */
  ghost predicate AgreeOnOverlap(offset1: nat, data1: seq<byte>, offset2: nat, data2: seq<byte>) {
    forall k: nat :: Covers(offset1, data1, k) && Covers(offset2, data2, k)
      ==> data1[k - offset1] == data2[k - offset2]
  }

  /**
   Two writes may be swapped exactly when they agree where they overlap; in particular
   disjoint writes always commute, even when one or both start past the end of file and pad.
   */
  lemma WritesCommute(file: seq<byte>, offset1: nat, data1: seq<byte>, offset2: nat, data2: seq<byte>)
    ensures Written(Written(file, offset1, data1), offset2, data2)
            == Written(Written(file, offset2, data2), offset1, data1)
            <==> AgreeOnOverlap(offset1, data1, offset2, data2)
  {
    var l := Written(Written(file, offset1, data1), offset2, data2);
    var r := Written(Written(file, offset2, data2), offset1, data1);
    assert |l| == |r|;
    forall k: nat | k < |l|
      ensures l[k] != r[k] ==> Covers(offset1, data1, k) && Covers(offset2, data2, k)
      ensures Covers(offset1, data1, k) && Covers(offset2, data2, k)
        ==> l[k] == data2[k - offset2] && r[k] == data1[k - offset1]
    {
    }
    assert l == r ==> AgreeOnOverlap(offset1, data1, offset2, data2);
    assert AgreeOnOverlap(offset1, data1, offset2, data2) ==> l == r;
  }
}
