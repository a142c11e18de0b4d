/**
 The packetising loops of `videoBroadcastThread`, with `concat_and_insert` and `fec::encode`
 (src/stream.cpp), over real buffers: room for headers is left in a fresh frame buffer, the
 buffer is cut into FEC blocks, shards are pointers into that buffer or into the shard buffer
 of their block, and headers are written in place through those pointers.
 */
module Packetizer {
  import Fec
  import opened Framing

  // ----- concat_and_insert -----

  lemma Elements(size: nat, slice: nat) returns (n: nat)
    requires slice > 0
    ensures n == size / slice + (if size % slice != 0 then 1 else 0)
    ensures size <= n * slice && (size > 0 ==> n > 0 && (n - 1) * slice < size) && (size == 0 ==> n == 0)
  {
    n := size / slice + (if size % slice != 0 then 1 else 0);
    var q := size / slice;
    assert size == slice * q + size % slice;
    assert (q + 1) * slice == q * slice + slice && (q - 1) * slice == q * slice - slice;
    if size == 0 {
      assert q == 0;
    }
  }

  method Copy(target: array<Byte>, offset: nat, source: seq<Byte>)
    requires offset + |source| <= target.Length
    modifies target
    ensures target[..] == Stamped(old(target[..]), offset, source)
  {
    forall i | 0 <= i < |source| {
      target[offset + i] := source[i];
    }
    assert target[..offset] == old(target[..offset]);
    assert target[offset..offset + |source|] == source;
    assert target[offset + |source|..] == old(target[offset + |source|..]);
    assert target[..] == target[..offset] + target[offset..offset + |source|] + target[offset + |source|..];
  }

  /** Where `next` stands in the two buffers: in the first until a slice reaches past its end. */
  datatype Position = Position(second: bool, next: nat)

  function Consumed(p: Position, data1: seq<Byte>): nat {
    (if p.second then |data1| else 0) + p.next
  }

  function Window(data1: seq<Byte>, data2: seq<Byte>, start: nat, size: nat): (w: seq<Byte>)
    requires start + size <= |data1| + |data2|
    ensures |w| == size
  {
    (data1 + data2)[start..][..size]
  }

  /** Copies the next `size` bytes, from one buffer or from both. */
  method CopySlice(result: array<Byte>, offset: nat, size: nat, data1: seq<Byte>, data2: seq<Byte>, p: Position)
    returns (q: Position)
    requires offset + size <= result.Length && Consumed(p, data1) + size <= |data1| + |data2|
    requires !p.second ==> p.next <= |data1|
    modifies result
    ensures Consumed(q, data1) == Consumed(p, data1) + size && (!q.second ==> q.next <= |data1|)
    ensures result[..] == Stamped(old(result[..]), offset, Window(data1, data2, Consumed(p, data1), size))
  {
    hide Stamped;
    ghost var start, was := Consumed(p, data1), result[..];
    ghost var piece := (data1 + data2)[start..][..size];
    var current := if p.second then data2 else data1;
    if p.next + size > |current| {
      var copyLen := |current| - p.next;
      Copy(result, offset, current[p.next..]);
      Copy(result, offset + copyLen, data2[..size - copyLen]);
      q := Position(true, size - copyLen);
      SliceAcross(data1, data2, p.next, size);
      StampTwice(was, offset, current[p.next..], data2[..size - copyLen]);
    } else {
      Copy(result, offset, current[p.next..p.next + size]);
      q := Position(p.second, p.next + size);
      SliceWithin(data1, data2, p, size);
    }
  }

  lemma SliceAcross(data1: seq<Byte>, data2: seq<Byte>, next: nat, size: nat)
    requires next <= |data1| < next + size <= |data1| + |data2|
    ensures (data1 + data2)[next..][..size] == data1[next..] + data2[..size - (|data1| - next)]
  {
  }

  lemma SliceWithin(data1: seq<Byte>, data2: seq<Byte>, p: Position, size: nat)
    requires p.next + size <= if p.second then |data2| else |data1|
    ensures (data1 + data2)[Consumed(p, data1)..][..size]
         == (if p.second then data2 else data1)[p.next..p.next + size]
  {
  }

  lemma StampTwice(p: seq<Byte>, offset: nat, a: seq<Byte>, b: seq<Byte>)
    requires offset + |a| + |b| <= |p|
    ensures Stamped(Stamped(p, offset, a), offset + |a|, b) == Stamped(p, offset, a + b)
  {
  }

  /** The result holds what was filled so far, then zeros: so does it after the next slice. */
  lemma SliceFilled(filled: seq<Byte>, room: nat, insert: nat, piece: seq<Byte>)
    requires insert + |piece| <= room
    ensures Stamped(filled + Zeros(room), |filled| + insert, piece)
         == filled + Zeros(insert) + piece + Zeros(room - insert - |piece|)
  {
  }

  /** After `x` of `n` slices, `start` bytes are consumed and the result is filled up to and including them. */
  ghost predicate Filled(filled: seq<Byte>, x: nat, n: nat, insert: nat, slice: nat, all: seq<Byte>, start: nat)
    requires slice > 0
  {
    && start <= |all| && start == (if x < n then x * slice else |all|)
    && |filled| == x * insert + start
    && filled == Interleave(insert, slice, all[..start])
  }

  lemma FilledStep(filled: seq<Byte>, x: nat, n: nat, insert: nat, slice: nat, all: seq<Byte>, start: nat, size: int)
    requires slice > 0 && x < n && (n - 1) * slice < |all| <= n * slice
    requires Filled(filled, x, n, insert, slice, all, start)
    requires size == if x == n - 1 then |all| - x * slice else slice
    ensures 0 < size && start + size <= |all|
    ensures x * (insert + slice) == |filled|
    ensures |filled| + insert + size <= n * insert + |all|
    ensures Filled(filled + Zeros(insert) + all[start..][..size], x + 1, n, insert, slice, all, start + size)
  {
    hide Zeros, Interleave;
    StepBounds(x, n, insert, slice, |all|);
    var piece := all[start..][..size];
    assert all[..start] + piece == all[..start + size];
    InterleaveAppend(insert, slice, all[..start], piece, x);
  }

  lemma FilledStart(n: nat, insert: nat, slice: nat, all: seq<Byte>, total: nat)
    requires slice > 0 && Counted(n, insert, slice, |all|, total)
    ensures Filled([], 0, n, insert, slice, all, 0)
  {
    assert all[..0] == [];
  }

  function Times(a: nat, b: nat): nat {
    Product(a, b);
    a * b
  }

  /** `n` slices with their rooms take `total` bytes. */
  ghost predicate Counted(n: nat, insert: nat, slice: nat, size: nat, total: nat) {
    && (n == 0 <==> size == 0) && total == n * insert + size
    && (n > 0 ==> (n - 1) * slice < size <= n * slice)
  }

  /** `buffer` is filled so far, then zero. */
  ghost predicate ZeroFrom(buffer: seq<Byte>, filled: seq<Byte>) {
    |filled| <= |buffer| && buffer == filled + Zeros(|buffer| - |filled|)
  }

  /** One slice: where it goes, and what the result is afterwards. */
  lemma Advance(buffer: seq<Byte>, filled: seq<Byte>, x: nat, n: nat, insert: nat, slice: nat, data1: seq<Byte>, data2: seq<Byte>,
    start: nat, size: int)
    returns (next: seq<Byte>)
    requires slice > 0 && x < n && Counted(n, insert, slice, |data1| + |data2|, |buffer|)
    requires ZeroFrom(buffer, filled) && Filled(filled, x, n, insert, slice, data1 + data2, start)
    requires size == if x == n - 1 then |data1| + |data2| - Times(x, slice) else slice
    ensures 0 < size && start + size <= |data1| + |data2|
    ensures Times(x, insert + slice) + insert + size <= |buffer|
    ensures ZeroFrom(Stamped(buffer, Times(x, insert + slice) + insert, Window(data1, data2, start, size)), next)
    ensures Filled(next, x + 1, n, insert, slice, data1 + data2, start + size)
  {
    hide Filled, Zeros, Stamped;
    FilledStep(filled, x, n, insert, slice, data1 + data2, start, size);
    var piece := (data1 + data2)[start..][..size];
    SliceFilled(filled, |buffer| - |filled|, insert, piece);
    next := filled + Zeros(insert) + piece;
  }

  lemma FilledEnd(buffer: seq<Byte>, filled: seq<Byte>, n: nat, insert: nat, slice: nat, all: seq<Byte>, start: nat)
    requires slice > 0 && Counted(n, insert, slice, |all|, |buffer|)
    requires ZeroFrom(buffer, filled) && Filled(filled, n, n, insert, slice, all, start)
    ensures buffer == Interleave(insert, slice, all)
  {
    hide Interleave;
    assert all[..|all|] == all;
  }

  lemma StartsEmpty(buffer: seq<Byte>, data1: seq<Byte>)
    requires buffer == Zeros(|buffer|)
    ensures ZeroFrom(buffer, []) && Consumed(Position(false, 0), data1) == 0
  {
  }

  /** Slice `x` to its place behind its room; the last one takes what is left. */
  method InsertSlice(result: array<Byte>, x: nat, elements: nat, insert: nat, slice: nat, data1: seq<Byte>, data2: seq<Byte>,
    p: Position, ghost filled: seq<Byte>) returns (q: Position, ghost next: seq<Byte>)
    requires x < elements && slice > 0 && (!p.second ==> p.next <= |data1|)
    requires Counted(elements, insert, slice, |data1| + |data2|, result.Length)
    requires Filled(filled, x, elements, insert, slice, data1 + data2, Consumed(p, data1)) && ZeroFrom(result[..], filled)
    modifies result
    ensures !q.second ==> q.next <= |data1|
    ensures Filled(next, x + 1, elements, insert, slice, data1 + data2, Consumed(q, data1)) && ZeroFrom(result[..], next)
  {
    hide Interleave, Stamped, Zeros, Consumed, Filled, Times, Counted, ZeroFrom, Window;
    var size := if x == elements - 1 then |data1| + |data2| - Times(x, slice) else slice;
    next := Advance(result[..], filled, x, elements, insert, slice, data1, data2, Consumed(p, data1), size);
    q := CopySlice(result, Times(x, insert + slice) + insert, size, data1, data2, p);
  }

  /** Every slice to its place behind its room; the last one takes what is left. */
  method InsertSlices(result: array<Byte>, elements: nat, insert: nat, slice: nat, data1: seq<Byte>, data2: seq<Byte>)
    requires slice > 0 && Counted(elements, insert, slice, |data1| + |data2|, result.Length)
    requires result[..] == Zeros(result.Length)
    modifies result
    ensures result[..] == Interleave(insert, slice, data1 + data2)
  {
    ghost var all: seq<Byte> := data1 + data2;
    var p := Position(false, 0);
    ghost var filled: seq<Byte> := [];
    StartsEmpty(result[..], data1);
    hide Interleave, Stamped, Zeros, Consumed, Filled, Times, Counted, ZeroFrom, Window;
    FilledStart(elements, insert, slice, all, result.Length);
    for x := 0 to elements
      invariant !p.second ==> p.next <= |data1|
      invariant Filled(filled, x, elements, insert, slice, all, Consumed(p, data1))
      invariant ZeroFrom(result[..], filled)
    {
      p, filled := InsertSlice(result, x, elements, insert, slice, data1, data2, p, filled);
    }
    FilledEnd(result[..], filled, elements, insert, slice, all, Consumed(p, data1));
  }

  /** The frame header and the payload, one after the other, with room in front of every slice. */
  method ConcatAndInsert(insert: nat, slice: nat, data1: seq<Byte>, data2: seq<Byte>) returns (result: array<Byte>)
    requires slice > 0
    ensures fresh(result)
    ensures result[..] == Interleave(insert, slice, data1 + data2)
  {
    var dataSize := |data1| + |data2|;
    var elements := dataSize / slice + (if dataSize % slice != 0 then 1 else 0);
    ghost var n := Elements(dataSize, slice);
    Product(elements, insert);
    var total: nat := elements * insert + dataSize;
    result := new Byte[total](i => 0);
    InsertSlices(result, elements, insert, slice, data1, data2);
  }

  lemma StepBounds(x: nat, n: nat, insert: nat, slice: nat, size: nat)
    requires x < n && (n - 1) * slice < size <= n * slice && slice > 0
    ensures x * (insert + slice) == x * insert + x * slice
    ensures x + 1 < n ==> (x + 1) * slice == x * slice + slice < size && (x + 1) * insert == x * insert + insert
    ensures x + 1 == n ==> 0 < size - x * slice <= slice && (x + 1) * insert == x * insert + insert
    ensures (x + 1) * insert <= n * insert
  {
    assert (x + 1) * insert == x * insert + insert;
    assert (x + 1) * slice == x * slice + slice;
    Fec.MulMono(insert, x + 1, n);
    if x + 1 < n {
      Fec.MulMono(slice, x + 1, n - 1);
    } else {
      assert n * slice == (n - 1) * slice + slice;
    }
  }

  // ----- Cutting into FEC blocks -----

  /** A `string_view` into the frame buffer. */
  datatype View = View(start: nat, len: nat)

  /** The blocks follow one another from the front of the buffer to its end; all but the last hold whole shards. */
  ghost predicate Tiles(blocks: seq<View>, size: nat, blocksize: nat) {
    && |blocks| > 0 && blocks[0].start == 0
    && (forall i :: 0 <= i < |blocks| ==> blocks[i].len > 0)
    && (forall i :: 0 <= i < |blocks| - 1 ==>
      blocks[i].start + blocks[i].len == blocks[i + 1].start && Whole(blocks[i].len, blocksize))
    && blocks[|blocks| - 1].start + blocks[|blocks| - 1].len == size
  }

  ghost predicate Whole(len: nat, blocksize: nat) {
    exists n: nat :: len == n * blocksize
  }

  method CutBlocks(size: nat, blocksize: nat, percentage: nat) returns (blocks: seq<View>, split: Fec.Split)
    requires size > 0 && blocksize >= 3 && 1 <= percentage <= 255
    ensures split == Fec.SplitFor(size, blocksize, percentage)
    ensures |blocks| == split.count && 1 <= |blocks| <= Fec.MAX_FEC_BLOCKS
    ensures Tiles(blocks, size, blocksize)
    ensures forall i :: 0 <= i < |blocks| - 1 ==> blocks[i].len == split.aligned
  {
    hide Fec.CeilDiv, Fec.MaxData, Fec.SplitFor, Tiles;
    Fec.SplitIsSafe(size, blocksize, percentage);
    split := Fec.SplitFor(size, blocksize, percentage);
    var aligned := split.aligned;
    assert Whole(aligned, blocksize) by {
      assert aligned == (aligned / blocksize) * blocksize + aligned % blocksize;
    }
    var parts := new View[Fec.MAX_FEC_BLOCKS](i => View(0, 0));
    for x := 0 to split.count
      invariant forall i :: 0 <= i < x && i < split.count - 1 ==> parts[i] == View(i * aligned, aligned)
      invariant x == split.count ==> parts[x - 1] == View((x - 1) * aligned, size - (x - 1) * aligned)
    {
      Product(x, aligned);
      if x == split.count - 1 {
        parts[x] := View(x * aligned, size - x * aligned);
      } else {
        parts[x] := View(x * aligned, aligned);
      }
    }
    blocks := parts[..split.count];
    CutsTile(blocks, size, aligned, blocksize);
  }

  lemma CutsTile(blocks: seq<View>, size: nat, aligned: nat, blocksize: nat)
    requires |blocks| > 0 && aligned > 0 && Whole(aligned, blocksize) && (|blocks| - 1) * aligned < size
    requires forall i: nat :: i < |blocks| - 1 ==> blocks[i].start == i * aligned && blocks[i].len == aligned
    requires var n := |blocks| - 1; blocks[n].start == n * aligned && blocks[n].len == size - n * aligned
    ensures Tiles(blocks, size, blocksize)
  {
    forall i: nat | i < |blocks| - 1
      ensures blocks[i].start + blocks[i].len == blocks[i + 1].start
    {
      assert (i + 1) * aligned == i * aligned + aligned;
    }
  }

  // ----- Shards -----

  /** A pointer into one of the buffers. */
  datatype Ref = Ref(buffer: array<Byte>, offset: nat)

  function Pad(len: nat, size: nat): nat
    requires size > 0
  {
    if len % size != 0 then 1 else 0
  }

  function DataShards(len: nat, size: nat): nat
    requires size > 0
  {
    len / size + Pad(len, size)
  }

  lemma ShardCount(len: nat, size: nat)
    requires size > 0
    ensures len / size * size <= len <= DataShards(len, size) * size
    ensures len > 0 ==> DataShards(len, size) > 0 && (DataShards(len, size) - 1) * size < len
    ensures Pad(len, size) == 0 ==> len / size * size == len
    ensures Pad(len, size) == 1 ==> len < len / size * size + size
  {
    var n := Elements(len, size);
    assert len == len / size * size + len % size;
  }

  /** A block of the frame, cut into `total` shards of `size` bytes. */
  datatype Layout = Layout(start: nat, len: nat, size: nat, total: nat) {
    predicate Valid() {
      size > 0 && DataShards(len, size) <= total
    }
    function Aligned(): nat
      requires size > 0
    {
      len / size
    }
    /** The frame and the shard buffer are long enough. */
    ghost predicate Fits(frame: seq<Byte>, shards: seq<Byte>) {
      Valid() && start + len <= |frame| && |shards| == (total - Aligned()) * size
    }
    function Offset(k: nat): nat
      requires size > 0
    {
      if k < Aligned() then start + k * size else (k - Aligned()) * size
    }
    /** Shards from `Aligned()` on live in the shard buffer, the others in the frame itself. */
    ghost function Content(frame: seq<Byte>, shards: seq<Byte>, k: nat): seq<Byte>
      requires size > 0
    {
      Piece(if k < Aligned() then frame else shards, Offset(k), size)
    }
  }

  ghost function Piece(s: seq<Byte>, offset: nat, size: nat): seq<Byte> {
    if offset + size <= |s| then s[offset..offset + size] else []
  }

  lemma MulStep(j: nat, k: nat, size: nat)
    requires j < k
    ensures j * size + size <= k * size
  {
    Fec.MulMono(size, j + 1, k);
  }

  /** Every shard stays inside its buffer, and inside the block's part of the frame. */
  lemma InRange(l: Layout, k: nat)
    requires l.Valid() && k < l.total
    ensures k < l.Aligned() ==> l.start <= l.Offset(k) && l.Offset(k) + l.size <= l.start + l.len
    ensures k >= l.Aligned() ==> l.Offset(k) + l.size <= (l.total - l.Aligned()) * l.size
  {
    ShardCount(l.len, l.size);
    if k < l.Aligned() {
      MulStep(k, l.Aligned(), l.size);
      Product(k, l.size);
    } else {
      MulStep(k - l.Aligned(), l.total - l.Aligned(), l.size);
    }
  }

  /** Two shards in the same buffer never overlap. */
  lemma Apart(l: Layout, j: nat, k: nat)
    requires l.Valid() && j < k && (j < l.Aligned() <==> k < l.Aligned())
    ensures l.Offset(j) + l.size <= l.Offset(k)
  {
    MulStep(j, k, l.size);
    if l.Aligned() <= j {
      MulStep(j - l.Aligned(), k - l.Aligned(), l.size);
    }
  }

  /** The buffer of shard `k` after `h` is written to the start of the shard. */
  ghost function Written(l: Layout, buffer: seq<Byte>, k: nat, h: seq<Byte>, frame: bool): seq<Byte>
    requires l.Valid()
  {
    if (k < l.Aligned() <==> frame) && l.Offset(k) + |h| <= |buffer| then Stamped(buffer, l.Offset(k), h) else buffer
  }

  lemma PieceStamped(s: seq<Byte>, offset: nat, h: seq<Byte>, other: nat, size: nat)
    requires offset + |h| <= |s| && |h| <= size
    ensures |Stamped(s, offset, h)| == |s|
    ensures other + size <= offset || offset + size <= other ==> Piece(Stamped(s, offset, h), other, size) == Piece(s, other, size)
    ensures offset + size <= |s| ==> Piece(Stamped(s, offset, h), offset, size) == h + Piece(s, offset, size)[|h|..]
  {
    var t := Stamped(s, offset, h);
    if offset + size <= |s| {
      StampedHere(s, offset, h, size);
    }
    if other + size <= |s| && (other + size <= offset || offset + size <= other) {
      StampedElsewhere(s, offset, h, other, other + size);
    }
  }

  lemma StampedHere(s: seq<Byte>, offset: nat, h: seq<Byte>, size: nat)
    requires offset + size <= |s| && |h| <= size
    ensures Stamped(s, offset, h)[offset..offset + size] == h + s[offset..offset + size][|h|..]
  {
    var w := Stamped(s, offset, h);
    var t, u := w[offset..offset + size], h + s[offset..offset + size][|h|..];
    assert |t| == |u| == size;
    forall i | 0 <= i < size ensures t[i] == u[i] {
      if i < |h| {
        assert t[i] == w[offset + i] == h[i];
      } else {
        assert t[i] == w[offset + i] == s[offset + i];
        assert u[i] == s[offset..offset + size][i];
      }
    }
  }

  lemma StampedElsewhere(s: seq<Byte>, offset: nat, h: seq<Byte>, i: nat, j: nat)
    requires offset + |h| <= |s| && i <= j <= |s| && (j <= offset || offset + |h| <= i)
    ensures Stamped(s, offset, h)[i..j] == s[i..j]
  {
    var t, u := Stamped(s, offset, h)[i..j], s[i..j];
    assert |t| == |u| == j - i;
    forall k | 0 <= k < j - i ensures t[k] == u[k] {
    }
  }

  /** Writing to a shard changes the start of that shard and nothing else: no other shard, and no byte outside the block. */
  lemma WriteIsLocal(l: Layout, frame: seq<Byte>, shards: seq<Byte>, k: nat, h: seq<Byte>)
    requires l.Fits(frame, shards) && k < l.total && |h| <= l.size
    ensures var f, s := Written(l, frame, k, h, true), Written(l, shards, k, h, false);
      && l.Fits(f, s) && |f| == |frame|
      && |l.Content(frame, shards, k)| == l.size
      && l.Content(f, s, k) == h + l.Content(frame, shards, k)[|h|..]
      && (forall j: nat :: j != k ==> l.Content(f, s, j) == l.Content(frame, shards, j))
      && f[..l.start] == frame[..l.start] && f[l.start + l.len..] == frame[l.start + l.len..]
  {
    hide Stamped, Piece, DataShards, Pad;
    InRange(l, k);
    var f, s := Written(l, frame, k, h, true), Written(l, shards, k, h, false);
    var buffer := if k < l.Aligned() then frame else shards;
    PieceStamped(buffer, l.Offset(k), h, 0, l.size);
    forall j: nat | j != k ensures l.Content(f, s, j) == l.Content(frame, shards, j) {
      if j < l.Aligned() <==> k < l.Aligned() {
        Apart(l, if j < k then j else k, if j < k then k else j);
        PieceStamped(buffer, l.Offset(k), h, l.Offset(j), l.size);
      }
    }
    PieceLength(buffer, l.Offset(k), l.size);
    StampedAround(frame, l.Offset(k), h, l.start, l.start + l.len);
  }

  lemma PieceLength(s: seq<Byte>, offset: nat, size: nat)
    requires offset + size <= |s|
    ensures |Piece(s, offset, size)| == size
  {
  }

  lemma StampedAround(s: seq<Byte>, offset: nat, h: seq<Byte>, i: nat, j: nat)
    requires j <= |s|
    ensures i <= offset && offset + |h| <= j ==>
      |Stamped(s, offset, h)| == |s| && Stamped(s, offset, h)[..i] == s[..i] && Stamped(s, offset, h)[j..] == s[j..]
  {
    if i <= offset && offset + |h| <= j {
      SameFront(s[..offset], h + s[offset + |h|..], s[offset..], i);
      assert s == s[..offset] + s[offset..];
      assert Stamped(s, offset, h) == s[..offset] + (h + s[offset + |h|..]);
      assert Stamped(s, offset, h) == (s[..offset] + h) + s[offset + |h|..];
      assert s == s[..offset + |h|] + s[offset + |h|..];
      SameBack(s[..offset] + h, s[..offset + |h|], s[offset + |h|..], j);
    }
  }

  lemma SameFront(a: seq<Byte>, b: seq<Byte>, c: seq<Byte>, i: nat)
    requires i <= |a|
    ensures (a + b)[..i] == (a + c)[..i]
  {
  }

  lemma SameBack(a: seq<Byte>, b: seq<Byte>, c: seq<Byte>, j: nat)
    requires |a| == |b| <= j <= |a| + |c|
    ensures (a + c)[j..] == (b + c)[j..]
  {
  }

  // ----- fec::encode -----

  /** Shard `k` of a block of the frame: its slice, padded with zeros. */
  ghost function Shard(block: seq<Byte>, k: nat, size: nat): seq<Byte> {
    var i := k * size;
    PadTo(if i + size <= |block| then block[i..i + size] else if i <= |block| then block[i..] else [], size)
  }

  datatype Encoded = Encoded(layout: Layout, data: nat, percentage: nat, shards: array<Byte>, pointers: array<Ref>)

  ghost function BufferOf(l: Layout, frame: array<Byte>, shards: array<Byte>, k: nat): Ref
    requires l.size > 0
  {
    Ref(if k < l.Aligned() then frame else shards, l.Offset(k))
  }

  /** `shards_p`: pointers into the frame for whole shards, then into the shard buffer. */
  method Point(l: Layout, frame: array<Byte>, shards: array<Byte>, percentage: nat) returns (pointers: array<Ref>)
    requires l.Valid() && (percentage == 0 ==> l.total == DataShards(l.len, l.size))
    ensures fresh(pointers) && pointers.Length == l.total
    ensures forall k :: 0 <= k < l.total ==> pointers[k] == BufferOf(l, frame, shards, k)
  {
    var aligned, pad := l.len / l.size, Pad(l.len, l.size);
    pointers := new Ref[l.total](i => Ref(shards, 0));
    for x := 0 to aligned
      invariant forall k :: 0 <= k < x ==> pointers[k] == BufferOf(l, frame, shards, k)
    {
      Product(x, l.size);
      pointers[x] := Ref(frame, l.start + x * l.size);
    }
    if pad == 1 {
      pointers[aligned] := Ref(shards, 0);
    }
    var data := aligned + pad;
    if percentage != 0 {
      for x := 0 to l.total - data
        invariant forall k :: 0 <= k < data + x ==> pointers[k] == BufferOf(l, frame, shards, k)
      {
        Product(pad + x, l.size);
        pointers[data + x] := Ref(shards, (pad + x) * l.size);
      }
    }
  }

  /** Writes through the pointer of shard `k`. */
  method Write(l: Layout, frame: array<Byte>, e: Encoded, k: nat, h: seq<Byte>)
    requires l.Fits(frame[..], e.shards[..]) && frame != e.shards && k < l.total && |h| <= l.size
    requires e.pointers.Length == l.total && e.pointers[k] == BufferOf(l, frame, e.shards, k)
    modifies frame, e.shards
    ensures frame[..] == Written(l, old(frame[..]), k, h, true)
    ensures e.shards[..] == Written(l, old(e.shards[..]), k, h, false)
  {
    InRange(l, k);
    Copy(e.pointers[k].buffer, e.pointers[k].offset, h);
  }

  /** `reed_solomon_encode` writes the parity shards through their pointers; the bytes are a parameter. */
  method FillParity(l: Layout, frame: array<Byte>, e: Encoded, parity: nat -> seq<Byte>)
    requires l.Fits(frame[..], e.shards[..]) && frame != e.shards && e.pointers.Length == l.total
    requires e.data == DataShards(l.len, l.size)
    requires forall k :: 0 <= k < l.total ==> e.pointers[k] == BufferOf(l, frame, e.shards, k)
    requires forall x :: |parity(x)| == l.size
    modifies frame, e.shards
    ensures l.Fits(frame[..], e.shards[..])
    ensures frame[..] == old(frame[..])
    ensures forall k: nat :: k < e.data ==> l.Content(frame[..], e.shards[..], k) == l.Content(old(frame[..]), old(e.shards[..]), k)
    ensures forall k: nat :: e.data <= k < l.total ==> l.Content(frame[..], e.shards[..], k) == parity(k - e.data)
  {
    for x := 0 to l.total - e.data
      invariant l.Fits(frame[..], e.shards[..]) && frame[..] == old(frame[..])
      invariant forall k: nat :: k < e.data ==> l.Content(frame[..], e.shards[..], k) == l.Content(old(frame[..]), old(e.shards[..]), k)
      invariant forall k: nat :: e.data <= k < e.data + x ==> l.Content(frame[..], e.shards[..], k) == parity(k - e.data)
    {
      hide l.Content, l.Fits, Written;
      WriteIsLocal(l, frame[..], e.shards[..], e.data + x, parity(x));
      Write(l, frame, e, e.data + x, parity(x));
    }
  }

  lemma SliceOfSlice(s: seq<Byte>, a: nat, b: nat, i: nat, j: nat)
    requires a <= b <= |s| && i <= j <= b - a
    ensures s[a..b][i..j] == s[a + i..a + j]
  {
    var t, u := s[a..b][i..j], s[a + i..a + j];
    assert |t| == |u| == j - i;
    forall k | 0 <= k < j - i ensures t[k] == u[k] {
    }
  }

  lemma PaddedZeros(tail: seq<Byte>, size: nat, room: nat)
    requires |tail| < size <= room
    ensures |Stamped(Zeros(room), 0, tail)| == room
    ensures Stamped(Zeros(room), 0, tail)[0..size] == PadTo(tail, size)
  {
    var s := Stamped(Zeros(room), 0, tail);
    assert s[0..size] == tail + Zeros(size - |tail|);
  }

  lemma LastShard(block: seq<Byte>, k: nat, size: nat)
    requires 0 <= k * size <= |block| < k * size + size
    ensures Shard(block, k, size) == PadTo(block[k * size..], size)
  {
  }

  lemma FirstOfBuffer(l: Layout, frame: seq<Byte>, shards: seq<Byte>)
    requires 0 < l.size <= |shards|
    ensures l.Content(frame, shards, l.Aligned()) == shards[0..l.size]
  {
  }

  lemma TailLength(l: Layout)
    requires l.Valid() && Pad(l.len, l.size) == 1
    ensures 0 <= l.Aligned() * l.size <= l.len < l.Aligned() * l.size + l.size
    ensures l.size <= (l.total - l.Aligned()) * l.size
  {
    ShardCount(l.len, l.size);
    Product(l.Aligned(), l.size);
    MulStep(0, l.total - l.Aligned(), l.size);
  }

  /** The padded last shard is the first one of the shard buffer. */
  lemma Padded(l: Layout, frame: seq<Byte>, room: nat)
    requires l.Valid() && l.start + l.len <= |frame| && room == (l.total - l.Aligned()) * l.size && Pad(l.len, l.size) == 1
    ensures 0 <= l.Aligned() * l.size <= l.len
    ensures |frame[l.start + l.Aligned() * l.size..l.start + l.len]| < l.size <= room
    ensures l.Content(frame, Stamped(Zeros(room), 0, frame[l.start + l.Aligned() * l.size..l.start + l.len]), l.Aligned())
         == Shard(frame[l.start..l.start + l.len], l.Aligned(), l.size)
  {
    hide Stamped, PadTo, Zeros, Shard, l.Content;
    TailLength(l);
    var i := l.Aligned() * l.size;
    var block := frame[l.start..l.start + l.len];
    var tail := frame[l.start + i..l.start + l.len];
    SliceOfSlice(frame, l.start, l.start + l.len, i, l.len);
    assert block[i..l.len] == block[i..];
    LastShard(block, l.Aligned(), l.size);
    PaddedZeros(tail, l.size, room);
    FirstOfBuffer(l, frame, Stamped(Zeros(room), 0, tail));
  }

  lemma Unpadded(l: Layout, frame: seq<Byte>, shards: seq<Byte>, k: nat)
    requires l.Valid() && l.start + l.len <= |frame| && k < l.Aligned()
    ensures l.Content(frame, shards, k) == Shard(frame[l.start..l.start + l.len], k, l.size)
  {
    ShardCount(l.len, l.size);
    MulStep(k, l.Aligned(), l.size);
    Product(k, l.size);
    var i := k * l.size;
    SliceOfSlice(frame, l.start, l.start + l.len, i, i + l.size);
  }

  /** What `fec::encode` returns: the plan kept, pointers where `Layout` says, data shards padded slices, parity shards filled. */
  ghost predicate EncodedAs(e: Encoded, frame: array<Byte>, view: View, size: nat, percentage: nat, minimum: nat, parity: nat -> seq<Byte>)
    reads frame, e.shards, e.pointers
    requires size > 0 && view.len > 0 && view.start + view.len <= frame.Length
  {
    && e.layout == Layout(view.start, view.len, size, e.layout.total)
    && e.layout.Fits(frame[..], e.shards[..]) && e.shards != frame
    && e.data == DataShards(view.len, size)
    && Fec.Plan(e.data, e.layout.total - e.data, e.percentage) == Fec.PlanFor(e.data, percentage, minimum)
    && e.pointers.Length == e.layout.total
    && (forall k :: 0 <= k < e.layout.total ==> e.pointers[k] == BufferOf(e.layout, frame, e.shards, k))
    && (forall k: nat :: k < e.data ==>
      e.layout.Content(frame[..], e.shards[..], k) == Shard(frame[view.start..view.start + view.len], k, size))
    && (forall k: nat :: e.data <= k < e.layout.total ==> e.layout.Content(frame[..], e.shards[..], k) == parity(k - e.data))
  }

  method CopyTail(l: Layout, frame: array<Byte>, shards: array<Byte>)
    requires l.Valid() && l.start + l.len <= frame.Length && Pad(l.len, l.size) == 1 && frame != shards
    requires shards.Length == (l.total - l.Aligned()) * l.size && shards[..] == Zeros(shards.Length)
    modifies shards
    ensures l.Content(frame[..], shards[..], l.Aligned()) == Shard(frame[l.start..l.start + l.len], l.Aligned(), l.size)
  {
    hide Shard, l.Content, Stamped, Zeros;
    Padded(l, frame[..], shards.Length);
    Copy(shards, 0, frame[l.start + l.Aligned() * l.size..l.start + l.len]);
  }

  /** The shard buffer, with the padded last data shard in front if there is one. */
  method ShardBuffer(l: Layout, frame: array<Byte>) returns (shards: array<Byte>)
    requires l.Valid() && l.start + l.len <= frame.Length
    ensures fresh(shards) && l.Fits(frame[..], shards[..])
    ensures forall k: nat :: k < DataShards(l.len, l.size) ==>
      l.Content(frame[..], shards[..], k) == Shard(frame[l.start..l.start + l.len], k, l.size)
  {
    Product(l.total - l.Aligned(), l.size);
    var room: nat := (l.total - l.Aligned()) * l.size;
    shards := new Byte[room](i => 0);
    assert shards[..] == Zeros(room);
    hide Shard, l.Content, Stamped, Zeros;
    if Pad(l.len, l.size) == 1 {
      CopyTail(l, frame, shards);
    }
    forall k: nat | k < l.Aligned()
      ensures l.Content(frame[..], shards[..], k) == Shard(frame[l.start..l.start + l.len], k, l.size)
    {
      Unpadded(l, frame[..], shards[..], k);
    }
  }

  /** The percentage is raised for this block when the minimum of parity shards is not met. */
  method Decide(data: nat, percentage: nat, minimum: nat) returns (parities: nat, used: nat)
    requires data > 0
    ensures Fec.Plan(data, parities, used) == Fec.PlanFor(data, percentage, minimum)
  {
    parities := (data * percentage + 99) / 100;
    used := percentage;
    if parities < minimum && percentage != 0 {
      parities := minimum;
      used := 100 * parities / data;
    }
  }

  /** `fec::encode` decides the parity, lays the shards out and has the parity computed. */
  method Encode(frame: array<Byte>, view: View, size: nat, percentage: nat, minimum: nat, parity: nat -> seq<Byte>)
    returns (e: Encoded)
    requires size > 0 && view.len > 0 && view.start + view.len <= frame.Length
    requires forall x :: |parity(x)| == size
    modifies frame
    ensures frame[..] == old(frame[..])
    ensures fresh(e.shards) && fresh(e.pointers) && EncodedAs(e, frame, view, size, percentage, minimum, parity)
  {
    hide Fec.PlanFor, Shard, BufferOf;
    var data := view.len / size + Pad(view.len, size);
    ShardCount(view.len, size);
    var parities, used := Decide(data, percentage, minimum);
    PlanNeedsPointers(data, percentage, minimum);
    var l := Layout(view.start, view.len, size, data + parities);
    e := LayOut(l, frame, data, used, parity);
  }

  method LayOut(l: Layout, frame: array<Byte>, data: nat, percentage: nat, parity: nat -> seq<Byte>) returns (e: Encoded)
    requires l.Valid() && l.start + l.len <= frame.Length && data == DataShards(l.len, l.size)
    requires percentage == 0 ==> l.total == data
    requires forall x :: |parity(x)| == l.size
    modifies frame
    ensures frame[..] == old(frame[..])
    ensures fresh(e.shards) && fresh(e.pointers)
    ensures e.layout == l && e.data == data && e.percentage == percentage
    ensures l.Fits(frame[..], e.shards[..]) && e.pointers.Length == l.total
    ensures forall k :: 0 <= k < l.total ==> e.pointers[k] == BufferOf(l, frame, e.shards, k)
    ensures forall k: nat :: k < data ==>
      l.Content(frame[..], e.shards[..], k) == Shard(frame[l.start..l.start + l.len], k, l.size)
    ensures forall k: nat :: data <= k < l.total ==> l.Content(frame[..], e.shards[..], k) == parity(k - data)
  {
    hide Shard, l.Content, BufferOf;
    var shards := ShardBuffer(l, frame);
    var pointers := Point(l, frame, shards, percentage);
    e := Encoded(l, data, percentage, shards, pointers);
    FillParity(l, frame, e, parity);
  }

  /** Parity pointers are only set while the percentage is not zero: then there is no parity. */
  lemma PlanNeedsPointers(data: nat, percentage: nat, minimum: nat)
    requires data > 0
    ensures Fec.PlanFor(data, percentage, minimum).percentage == 0 ==> Fec.PlanFor(data, percentage, minimum).parity == 0
  {
    if Fec.Raised(data, percentage, minimum) {
      assert data * percentage + 99 < 100 * minimum;
      Fec.MulMono(data, 1, percentage);
    }
  }
}
