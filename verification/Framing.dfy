/**
 The byte layout of a video frame (src/stream.cpp): the short frame header, the room left in
 front of every slice for packet headers, the shards cut from that buffer, and how a receiver
 puts the frame together again.
 */
module Framing {
  import Fec

  newtype Byte = x: int | 0 <= x < 256

  function Zeros(n: nat): (r: seq<Byte>)
    ensures |r| == n
  {
    seq(n, i => 0)
  }

  // ----- Sizes -----

  /** The header sizes come from headers not modelled here; MAX_RTP_HEADER_SIZE is `rtp + 4`. */
  datatype Sizes = Sizes(rtp: nat, nv: nat, packetSize: nat) {
    function Head(): nat { rtp + 4 + nv }
    function Block(): nat { packetSize + (rtp + 4) }
    predicate Legal() { nv < packetSize }
  }

  // ----- Frame header -----

  /** Bytes of the frame in its last packet, as advertised before the cut to 16 bits. */
  function LastLen(size: nat, slice: nat): nat
    requires slice > 0
  {
    if size % slice == 0 then slice else size % slice
  }

  /** The field as it is stored: cut to 16 bits before it is tested for zero. */
  function LastField(size: nat, slice: nat): nat
    requires slice > 0
  {
    var field := size % slice % 65536;
    if field == 0 then slice % 65536 else field
  }

  lemma LastFieldIs(size: nat, slice: nat)
    requires slice > 0
    ensures LastField(size, slice) < 65536
    ensures LastField(size, slice) == 0 <==> size % slice % 65536 == 0 && slice % 65536 == 0
    ensures LastLen(size, slice) < 65536 ==> LastField(size, slice) == LastLen(size, slice)
  {
  }

  function FrameHeader(kind: Byte, latency: nat, last: nat): (h: seq<Byte>)
    ensures |h| == 8 && Read16(h, 4) == last % 65536
    ensures h[0] == 1 && Read16(h, 1) == latency % 65536 && h[3] == kind
  {
    LowWord(last);
    LowWord(latency);
    [1, (latency % 256) as Byte, (latency / 256 % 256) as Byte, kind, (last % 256) as Byte, (last / 256 % 256) as Byte, 0, 0]
  }

  lemma LowWord(n: nat)
    ensures n % 256 + 256 * (n / 256 % 256) == n % 65536
  {
    var q := n / 256;
    assert n == 256 * q + n % 256;
    assert q == 256 * (q / 256) + q % 256;
    assert n == 65536 * (q / 256) + (256 * (q % 256) + n % 256);
    Fec.QuotientIs(n, 65536, q / 256, 256 * (q % 256) + n % 256);
  }

  function Read16(s: seq<Byte>, i: nat): nat
    requires i + 1 < |s|
  {
    (s[i] as int) + 256 * (s[i + 1] as int)
  }

  /** What goes to the packetiser for a payload. */
  function FrameOf(kind: Byte, latency: nat, payload: seq<Byte>, slice: nat): seq<Byte>
    requires slice > 0
  {
    FrameHeader(kind, latency, LastField(|payload| + 8, slice)) + payload
  }

  // ----- Slices -----

  /** `d` cut into slices, with `insert` zero bytes in front of each. */
  function Interleave(insert: nat, slice: nat, d: seq<Byte>): seq<Byte>
    requires slice > 0
    decreases |d|
  {
    if d == [] then []
    else if |d| <= slice then Zeros(insert) + d
    else Zeros(insert) + d[..slice] + Interleave(insert, slice, d[slice..])
  }

  /** After whole slices, the next one is appended behind its room. */
  lemma {:induction false} InterleaveAppend(insert: nat, slice: nat, a: seq<Byte>, b: seq<Byte>, n: nat)
    requires slice > 0 && |a| == n * slice && 0 < |b| <= slice
    ensures Interleave(insert, slice, a + b) == Interleave(insert, slice, a) + Zeros(insert) + b
    decreases n
  {
    if n > 0 {
      assert n * slice == slice + (n - 1) * slice;
      assert (a + b)[..slice] == a[..slice];
      assert (a + b)[slice..] == a[slice..] + b;
      InterleaveAppend(insert, slice, a[slice..], b, n - 1);
      if n == 1 {
        assert a[..slice] == a;
      }
    } else {
      assert a + b == b;
    }
  }

  // ----- Shards -----

  function PadTo(c: seq<Byte>, size: nat): (r: seq<Byte>)
    ensures |r| >= size && |r| >= |c|
  {
    if |c| < size then c + Zeros(size - |c|) else c
  }

  /** The bytes behind the headers when `p` is cut into shards of `size`, the last one padded with zeros. */
  function Body(p: seq<Byte>, head: nat, size: nat): seq<Byte>
    requires head < size
    decreases |p|
  {
    if p == [] then []
    else if |p| <= size then PadTo(p, size)[head..]
    else p[head..size] + Body(p[size..], head, size)
  }

  lemma {:induction false} BodyAppend(a: seq<Byte>, b: seq<Byte>, head: nat, size: nat, n: nat)
    requires head < size && |a| == n * size
    ensures Body(a + b, head, size) == Body(a, head, size) + Body(b, head, size)
    decreases n
  {
    hide Body;
    NoBody(head, size);
    if b == [] {
      assert a + b == a;
    } else if n == 0 {
      assert a + b == b;
    } else {
      WholeRest(n, size);
      BodyFront(a, b, head, size);
      BodyAppend(a[size..], b, head, size, n - 1);
    }
  }

  lemma NoBody(head: nat, size: nat)
    requires head < size
    ensures Body([], head, size) == []
  {
  }

  lemma WholeRest(n: nat, size: nat)
    requires n > 0
    ensures n * size == size + (n - 1) * size && size <= n * size
  {
    Product(n - 1, size);
  }

  /** A whole shard at the front. */
  lemma BodyFront(a: seq<Byte>, b: seq<Byte>, head: nat, size: nat)
    requires head < size <= |a|
    ensures Body(a, head, size) == a[head..size] + Body(a[size..], head, size)
    ensures Body(a + b, head, size) == a[head..size] + Body(a[size..] + b, head, size)
  {
    assert (a + b)[head..size] == a[head..size];
    assert (a + b)[size..] == a[size..] + b;
  }

  /** `p` with `h` written over the start of shard `x`. */
  function Stamped(p: seq<Byte>, at: nat, h: seq<Byte>): seq<Byte>
    requires at + |h| <= |p|
  {
    p[..at] + h + p[at + |h|..]
  }

  /** Writing a header into its room leaves everything behind the headers as it was. */
  lemma StampKeepsBody(p: seq<Byte>, x: nat, h: seq<Byte>, head: nat, size: nat)
    requires |h| == head < size && x * size + head <= |p|
    ensures |Stamped(p, x * size, h)| == |p|
    ensures Body(Stamped(p, x * size, h), head, size) == Body(p, head, size)
  {
    var a, r := p[..x * size], p[x * size..];
    var s := h + r[head..];
    assert p == a + r;
    assert Stamped(p, x * size, h) == a + s;
    BodyAppend(a, r, head, size, x);
    BodyAppend(a, s, head, size, x);
    SameTail(r, s, head, size);
  }

  lemma SameTail(r: seq<Byte>, s: seq<Byte>, head: nat, size: nat)
    requires head < size && head <= |r| == |s| && r[head..] == s[head..]
    ensures Body(r, head, size) == Body(s, head, size)
  {
    if |r| <= size {
      assert PadTo(r, size)[head..] == r[head..] + Zeros(size - |r|);
      assert PadTo(s, size)[head..] == s[head..] + Zeros(size - |r|);
    } else {
      assert r[head..size] == r[head..][..size - head] && s[head..size] == s[head..][..size - head];
      assert r[size..] == r[head..][size - head..] && s[size..] == s[head..][size - head..];
    }
  }

  /** Behind the headers of an interleaved buffer lies the original, padded to whole slices. */
  lemma {:induction false} BodyOfInterleave(insert: nat, slice: nat, d: seq<Byte>)
    requires slice > 0 && d != []
    ensures LastLen(|d|, slice) <= slice && LastLen(|d|, slice) <= |d|
    ensures Body(Interleave(insert, slice, d), insert, insert + slice) == d + Zeros(slice - LastLen(|d|, slice))
    decreases |d|
  {
    if |d| <= slice {
      LastSlice(insert, slice, d);
    } else {
      var rest := d[slice..];
      FirstSlice(insert, slice, d);
      LastLenStep(|d|, slice);
      BodyOfInterleave(insert, slice, rest);
      hide Body, Interleave, LastLen, Zeros;
      assert d == d[..slice] + rest;
    }
  }

  lemma LastSlice(insert: nat, slice: nat, d: seq<Byte>)
    requires 0 < |d| <= slice
    ensures LastLen(|d|, slice) == |d|
    ensures Body(Interleave(insert, slice, d), insert, insert + slice) == d + Zeros(slice - |d|)
  {
    var p := Interleave(insert, slice, d);
    assert p[insert..] == d;
    assert PadTo(p, insert + slice)[insert..] == d + Zeros(slice - |d|);
  }

  lemma FirstSlice(insert: nat, slice: nat, d: seq<Byte>)
    requires 0 < slice < |d|
    ensures Body(Interleave(insert, slice, d), insert, insert + slice)
         == d[..slice] + Body(Interleave(insert, slice, d[slice..]), insert, insert + slice)
  {
    var p := Interleave(insert, slice, d);
    NotEmpty(insert, slice, d[slice..]);
    assert p[insert..insert + slice] == d[..slice];
    assert p[insert + slice..] == Interleave(insert, slice, d[slice..]);
    BodyFront(p, [], insert, insert + slice);
  }

  lemma NotEmpty(insert: nat, slice: nat, d: seq<Byte>)
    requires slice > 0 && d != []
    ensures Interleave(insert, slice, d) != []
  {
  }

  lemma LastLenStep(n: nat, slice: nat)
    requires slice > 0 && n > slice
    ensures LastLen(n - slice, slice) == LastLen(n, slice)
  {
    var q := (n - slice) / slice;
    assert n - slice == q * slice + (n - slice) % slice;
    assert (q + 1) * slice == q * slice + slice;
    ModIs(n, slice, q + 1, (n - slice) % slice);
  }

  lemma ModIs(x: nat, b: nat, q: nat, r: nat)
    requires b > 0 && r < b && x == q * b + r
    ensures x % b == r
  {
    Fec.QuotientIs(x, b, q, r);
  }

  /** Length of the interleaved buffer, and room for a header in front of every shard, the last one included. */
  lemma {:induction false} InterleaveLength(insert: nat, slice: nat, d: seq<Byte>, n: nat)
    requires slice > 0 && 0 < n && (n - 1) * slice < |d| <= n * slice
    ensures |Interleave(insert, slice, d)| == n * insert + |d|
    ensures (n - 1) * (insert + slice) + insert < |Interleave(insert, slice, d)| <= n * (insert + slice)
    decreases n
  {
    assert (n - 1) * (insert + slice) == (n - 1) * insert + (n - 1) * slice;
    assert n * (insert + slice) == n * insert + n * slice;
    assert n * insert == insert + (n - 1) * insert && n * slice == slice + (n - 1) * slice;
    if n > 1 {
      assert (n - 1) * slice == slice + (n - 2) * slice;
      Product(n - 2, slice);
      InterleaveLength(insert, slice, d[slice..], n - 1);
    }
  }

  lemma Product(a: nat, b: nat)
    ensures a * b >= 0
  {
  }

  // ----- The receiver -----

  /** A shard without its packet header. */
  function Tail(shard: seq<Byte>, head: nat): seq<Byte> {
    if |shard| < head then [] else shard[head..]
  }

  /** Shards in order, packet headers removed. */
  function Stripped(shards: seq<seq<Byte>>, head: nat): seq<Byte> {
    if shards == [] then []
    else Stripped(shards[..|shards| - 1], head) + Tail(shards[|shards| - 1], head)
  }

  lemma {:induction false} StrippedAppend(a: seq<seq<Byte>>, b: seq<seq<Byte>>, head: nat)
    ensures Stripped(a + b, head) == Stripped(a, head) + Stripped(b, head)
    decreases |b|
  {
    hide Tail;
    if b == [] {
      assert a + b == a;
    } else {
      var c, last := b[..|b| - 1], b[|b| - 1];
      StrippedAppend(a, c, head);
      assert a + b == (a + c) + [last];
      StrippedSnoc(a + c, last, head);
    }
  }

  lemma StrippedSnoc(a: seq<seq<Byte>>, last: seq<Byte>, head: nat)
    ensures Stripped(a + [last], head) == Stripped(a, head) + Tail(last, head)
  {
    assert (a + [last])[..|a|] == a;
  }

  /** The last slice cut to the length the frame header advertises. */
  function Cut(stream: seq<Byte>, slice: nat): seq<Byte>
    requires |stream| >= 8
  {
    var n := |stream| - slice + Read16(stream, 4);
    if 0 <= n <= |stream| then stream[..n] else stream
  }

  /**
   The receiver gets back exactly the frame, whenever the length of the last packet fits its
   16 bits; a longer one is always cut wrong.
   */
  lemma CutIsExactIff(kind: Byte, latency: nat, payload: seq<Byte>, insert: nat, slice: nat)
    requires slice > 0
    ensures var frame := FrameOf(kind, latency, payload, slice);
      var stream := Body(Interleave(insert, slice, frame), insert, insert + slice);
      && |stream| >= 8
      && (Cut(stream, slice) == frame <==> LastLen(|frame|, slice) <= 65535)
  {
    var frame := FrameOf(kind, latency, payload, slice);
    FieldRead(kind, latency, payload, slice);
    hide FrameOf, Body, Interleave, Cut;
    BodyOfInterleave(insert, slice, frame);
    LastFieldIs(|frame|, slice);
    CutIff(frame, LastLen(|frame|, slice), slice);
  }

  lemma FieldRead(kind: Byte, latency: nat, payload: seq<Byte>, slice: nat)
    requires slice > 0
    ensures var frame := FrameOf(kind, latency, payload, slice);
      |frame| == |payload| + 8 && Read16(frame, 4) == LastField(|frame|, slice)
  {
    LastFieldIs(|payload| + 8, slice);
  }

  lemma CutIff(frame: seq<Byte>, last: nat, slice: nat)
    requires |frame| >= 8 && last <= slice && last <= |frame| && Read16(frame, 4) < 65536
    requires last < 65536 ==> Read16(frame, 4) == last
    ensures Cut(frame + Zeros(slice - last), slice) == frame <==> last <= 65535
  {
    var stream := frame + Zeros(slice - last);
    assert Read16(stream, 4) == Read16(frame, 4);
    assert stream[..|frame|] == frame;
    if last > 65535 {
      assert |Cut(stream, slice)| < |frame|;
    }
  }
}
