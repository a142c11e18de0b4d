/**
 One frame through `videoBroadcastThread` (src/stream.cpp), end to end: frame header, room for
 packet headers, FEC blocks, headers written before and after the parity is computed, shards
 sent in order; and what a receiver gets back from the data shards.
 */
module VideoFrames {
  import opened Wrappers
  import Fec
  import opened Framing
  import opened Packetizer

  ghost predicate SameOutside(f: seq<Byte>, g: seq<Byte>, start: nat, len: nat) {
    |f| == |g| && start + len <= |f| && f[..start] == g[..start] && f[start + len..] == g[start + len..]
  }

  // ----- Headers before the parity -----

  lemma StampInBlock(f: seq<Byte>, start: nat, len: nat, offset: nat, h: seq<Byte>)
    requires start + len <= |f| && offset + |h| <= len
    ensures Stamped(f, start + offset, h)[start..start + len] == Stamped(f[start..start + len], offset, h)
    ensures SameOutside(f, Stamped(f, start + offset, h), start, len)
  {
    StampedAround(f, start + offset, h, start, start + len);
    var g, u := Stamped(f, start + offset, h), Stamped(f[start..start + len], offset, h);
    assert |u| == len && |g| == |f|;
    forall k | 0 <= k < len ensures g[start + k] == u[k] {
      if k < offset {
        assert u[k] == f[start + k];
      } else if k < offset + |h| {
        assert u[k] == h[k - offset];
      } else {
        assert u[k] == f[start + k];
      }
    }
  }

  lemma CountIs(len: nat, size: nat)
    requires size > 0
    ensures Fec.CeilDiv(len, size) == DataShards(len, size)
  {
    Fec.CeilDivBounds(len, size);
    ShardCount(len, size);
    if len > 0 {
      assert size * (Fec.CeilDiv(len, size) - 1) == (Fec.CeilDiv(len, size) - 1) * size;
      SameCount(len, size, Fec.CeilDiv(len, size), DataShards(len, size));
    }
  }

  lemma SameCount(len: nat, size: nat, a: nat, b: nat)
    requires size > 0 && (a - 1) * size < len <= a * size && (b - 1) * size < len <= b * size
    ensures a == b
  {
    assert (a - 1) * size == a * size - size && (b - 1) * size == b * size - size;
    assert size * (a - b) == a * size - b * size;
    Fec.SmallMultiple(size, a - b);
  }

  /** The packet headers of a block are written in place; no byte behind a header and none outside the block changes. */
  method StampHeaders(frame: array<Byte>, view: View, size: nat, head: nat, early: nat -> seq<Byte>)
    requires head < size && view.len > 0 && view.start + view.len <= frame.Length
    requires (DataShards(view.len, size) - 1) * size + head <= view.len
    requires forall x :: |early(x)| == head
    modifies frame
    ensures SameOutside(old(frame[..]), frame[..], view.start, view.len)
    ensures Body(frame[view.start..view.start + view.len], head, size)
         == Body(old(frame[view.start..view.start + view.len]), head, size)
  {
    hide Stamped, Body, DataShards, Fec.CeilDiv;
    CountIs(view.len, size);
    var packets := Fec.CeilDiv(view.len, size);
    for x := 0 to packets
      invariant SameOutside(old(frame[..]), frame[..], view.start, view.len)
      invariant Body(frame[view.start..view.start + view.len], head, size)
             == Body(old(frame[view.start..view.start + view.len]), head, size)
    {
      Fec.MulMono(size, x, packets - 1);
      Product(x, size);
      StampInBlock(frame[..], view.start, view.len, x * size, early(x));
      StampKeepsBody(frame[view.start..view.start + view.len], x, early(x), head, size);
      Copy(frame, view.start + x * size, early(x));
    }
  }

  // ----- Sending the shards of a block -----

  /** The shards of a block in the order they were sent; the first `planned` of them are its data shards. */
  datatype SentBlock = SentBlock(shards: seq<seq<Byte>>, planned: nat) {
    function Data(): seq<seq<Byte>> {
      if |shards| <= planned then shards else shards[..planned]
    }
    function Parity(): seq<seq<Byte>> {
      if |shards| <= planned then [] else shards[planned..]
    }
  }

  /** The part of a block that its first `x` shards hold. */
  function Upto(block: seq<Byte>, x: nat, size: nat): seq<Byte> {
    Product(x, size);
    if x * size <= |block| then block[..x * size] else block
  }

  lemma BodyStep(block: seq<Byte>, x: nat, head: nat, size: nat)
    requires head < size && x * size < |block|
    ensures Body(Upto(block, x + 1, size), head, size) == Body(Upto(block, x, size), head, size) + Shard(block, x, size)[head..]
  {
    Product(x, size);
    assert (x + 1) * size == x * size + size;
    var i := x * size;
    var j := if i + size <= |block| then i + size else |block|;
    assert Upto(block, x + 1, size) == block[..i] + block[i..j];
    BodyAppend(block[..i], block[i..j], head, size, x);
    assert block[i..j] == if i + size <= |block| then block[i..i + size] else block[i..];
  }

  lemma UptoEnds(block: seq<Byte>, size: nat, head: nat)
    requires head < size
    ensures Stripped([], head) == Body(Upto(block, 0, size), head, size)
    ensures Upto(block, DataShards(|block|, size), size) == block
  {
    ShardCount(|block|, size);
    assert Upto(block, 0, size) == [];
  }

  lemma ShardStarts(len: nat, x: nat, size: nat)
    requires size > 0 && len > 0 && x < DataShards(len, size)
    ensures x * size < len
  {
    ShardCount(len, size);
    Fec.MulMono(size, x, DataShards(len, size) - 1);
  }

  /** The encoded block still to be sent from shard `x` on. */
  ghost predicate Waiting(e: Encoded, frame: array<Byte>, x: nat, block: seq<Byte>, parity: nat -> seq<Byte>)
    reads frame, e.shards, e.pointers
  {
    && e.layout.Fits(frame[..], e.shards[..]) && e.shards != frame
    && e.data == DataShards(e.layout.len, e.layout.size)
    && e.pointers.Length == e.layout.total
    && (forall k :: 0 <= k < e.layout.total ==> e.pointers[k] == BufferOf(e.layout, frame, e.shards, k))
    && (forall k: nat :: x <= k < e.data ==> e.layout.Content(frame[..], e.shards[..], k) == Shard(block, k, e.layout.size))
    && (forall k: nat :: x <= k && e.data <= k < e.layout.total ==>
      e.layout.Content(frame[..], e.shards[..], k) == parity(k - e.data))
  }

  ghost function Original(e: Encoded, x: nat, block: seq<Byte>, parity: nat -> seq<Byte>): seq<Byte> {
    if x < e.data then Shard(block, x, e.layout.size) else parity(x - e.data)
  }

  /** The header of shard `x` is written through its pointer, and the shard goes out. */
  method SendShard(e: Encoded, frame: array<Byte>, x: nat, h: seq<Byte>, ghost block: seq<Byte>, ghost parity: nat -> seq<Byte>)
    returns (bytes: seq<Byte>)
    requires Waiting(e, frame, x, block, parity) && x < e.layout.total && |h| <= e.layout.size
    modifies frame, e.shards
    ensures Waiting(e, frame, x + 1, block, parity)
    ensures SameOutside(old(frame[..]), frame[..], e.layout.start, e.layout.len)
    ensures |h| <= |Original(e, x, block, parity)| == e.layout.size
    ensures bytes == h + Original(e, x, block, parity)[|h|..]
  {
    hide Written, Shard, e.layout.Content;
    var l := e.layout;
    WriteIsLocal(l, frame[..], e.shards[..], x, h);
    Write(l, frame, e, x, h);
    bytes := ReadShard(l, frame, e, x);
  }

  method ReadShard(l: Layout, frame: array<Byte>, e: Encoded, x: nat) returns (bytes: seq<Byte>)
    requires l.Fits(frame[..], e.shards[..]) && x < l.total && e.pointers.Length == l.total
    requires e.pointers[x] == BufferOf(l, frame, e.shards, x)
    ensures bytes == l.Content(frame[..], e.shards[..], x)
  {
    InRange(l, x);
    var p := e.pointers[x];
    bytes := p.buffer[..][p.offset..p.offset + l.size];
  }

  /** Every shard sent is whole, and starts with its header. */
  ghost predicate Headed(shards: seq<seq<Byte>>, first: nat, size: nat, late: nat -> seq<Byte>) {
    forall k :: 0 <= k < |shards| ==> |shards[k]| == size && late(first + k) <= shards[k]
  }

  /** Every parity shard carries its parity bytes behind its header. */
  ghost predicate Carries(shards: seq<seq<Byte>>, first: nat, head: nat, late: nat -> seq<Byte>, parity: nat -> seq<Byte>) {
    forall k: nat :: k < |shards| ==> |parity(k)| >= head && shards[k] == late(first + k) + parity(k)[head..]
  }

  /** After `x` shards: data shards first, then parity, nothing skipped, nothing twice. */
  ghost predicate SentSoFar(sent: SentBlock, e: Encoded, x: nat, block: seq<Byte>, head: nat, late: nat -> seq<Byte>,
    parity: nat -> seq<Byte>)
    requires head < e.layout.size
  {
    && |sent.shards| == x && sent.planned == e.data
    && Stripped(sent.Data(), head) == Body(Upto(block, |sent.Data()|, e.layout.size), head, e.layout.size)
    && Headed(sent.Data(), 0, e.layout.size, late) && Headed(sent.Parity(), e.data, e.layout.size, late)
    && Carries(sent.Parity(), e.data, head, late, parity)
  }

  lemma SentOneMore(sent: SentBlock, e: Encoded, x: nat, block: seq<Byte>, head: nat, late: nat -> seq<Byte>, parity: nat -> seq<Byte>, bytes: seq<Byte>)
    requires head < e.layout.size && SentSoFar(sent, e, x, block, head, late, parity)
    requires |block| == e.layout.len > 0 && e.data == DataShards(|block|, e.layout.size) && x < e.layout.total
    requires |late(x)| == head && head <= |Original(e, x, block, parity)| == e.layout.size
    requires bytes == late(x) + Original(e, x, block, parity)[head..]
    ensures SentSoFar(sent.(shards := sent.shards + [bytes]), e, x + 1, block, head, late, parity)
  {
    hide Body, Shard, Upto, Stripped, DataShards;
    assert bytes[head..] == Original(e, x, block, parity)[head..];
    if x < e.data {
      StrippedSnoc(sent.Data(), bytes, head);
      ShardStarts(|block|, x, e.layout.size);
      BodyStep(block, x, head, e.layout.size);
    } else {
      NextParity(sent, bytes);
    }
  }

  lemma NextParity(sent: SentBlock, bytes: seq<Byte>)
    requires |sent.shards| >= sent.planned
    ensures var more := sent.(shards := sent.shards + [bytes]);
      more.Data() == sent.Data() && more.Parity() == sent.Parity() + [bytes]
  {
  }

  method SendShards(e: Encoded, frame: array<Byte>, head: nat, late: nat -> seq<Byte>,
    ghost block: seq<Byte>, ghost parity: nat -> seq<Byte>) returns (sent: SentBlock)
    requires Waiting(e, frame, 0, block, parity) && head < e.layout.size && |block| == e.layout.len > 0
    requires forall x :: |late(x)| == head
    modifies frame, e.shards
    ensures SameOutside(old(frame[..]), frame[..], e.layout.start, e.layout.len)
    ensures Stripped(sent.Data(), head) == Body(block, head, e.layout.size)
    ensures sent.planned == |sent.Data()| == e.data && |sent.Parity()| == e.layout.total - e.data
    ensures Headed(sent.Data(), 0, e.layout.size, late) && Headed(sent.Parity(), e.data, e.layout.size, late)
    ensures Carries(sent.Parity(), e.data, head, late, parity)
  {
    var l := e.layout;
    assert l.Valid() && e.data == DataShards(l.len, l.size) && l.start + l.len <= frame.Length;
    UptoEnds(block, l.size, head);
    sent := SentBlock([], e.data);
    assert SentSoFar(sent, e, 0, block, head, late, parity);
    hide Body, Shard, Upto, Stripped, Waiting, DataShards, Headed, Carries;
    for x := 0 to e.layout.total
      invariant Waiting(e, frame, x, block, parity)
      invariant SameOutside(old(frame[..]), frame[..], l.start, l.len)
      invariant SentSoFar(sent, e, x, block, head, late, parity)
    {
      var bytes := SendShard(e, frame, x, late(x), block, parity);
      hide SentSoFar, Original;
      SentOneMore(sent, e, x, block, head, late, parity, bytes);
      sent := sent.(shards := sent.shards + [bytes]);
    }
  }

  // ----- One block -----

  /** Data and parity shards as planned, each whole and behind its own header. */
  ghost predicate SentAs(sent: SentBlock, len: nat, size: nat, head: nat, percentage: nat, minimum: nat,
    late: nat -> seq<Byte>, parity: nat -> seq<Byte>)
    requires size > 0 && len > 0
  {
    ShardCount(len, size);
    && sent.planned == |sent.Data()| == DataShards(len, size)
    && |sent.Parity()| == Fec.PlanFor(DataShards(len, size), percentage, minimum).parity
    && Headed(sent.Data(), 0, size, late) && Headed(sent.Parity(), |sent.Data()|, size, late)
    && Carries(sent.Parity(), |sent.Data()|, head, late, parity)
  }

  method SendBlock(frame: array<Byte>, view: View, size: nat, head: nat, percentage: nat, minimum: nat,
    early: nat -> seq<Byte>, late: nat -> seq<Byte>, parity: nat -> seq<Byte>) returns (sent: SentBlock)
    requires head < size && view.len > 0 && view.start + view.len <= frame.Length
    requires (DataShards(view.len, size) - 1) * size + head <= view.len
    requires forall x :: |early(x)| == head && |late(x)| == head && |parity(x)| == size
    modifies frame
    ensures SameOutside(old(frame[..]), frame[..], view.start, view.len)
    ensures Stripped(sent.Data(), head) == Body(old(frame[view.start..view.start + view.len]), head, size)
    ensures SentAs(sent, view.len, size, head, percentage, minimum, late, parity)
  {
    hide Body, Shard, DataShards, Fec.PlanFor, Headed, Stripped, Carries;
    StampHeaders(frame, view, size, head, early);
    ghost var block := frame[view.start..view.start + view.len];
    var e := Encode(frame, view, size, percentage, minimum, parity);
    sent := SendShards(e, frame, head, late, block, parity);
  }

  // ----- One frame -----

  function AllData(sent: seq<SentBlock>): seq<seq<Byte>> {
    if sent == [] then [] else AllData(sent[..|sent| - 1]) + sent[|sent| - 1].Data()
  }

  lemma AllDataSnoc(sent: seq<SentBlock>, b: SentBlock, head: nat)
    ensures Stripped(AllData(sent + [b]), head) == Stripped(AllData(sent), head) + Stripped(b.Data(), head)
  {
    assert (sent + [b])[..|sent|] == sent;
    StrippedAppend(AllData(sent), b.Data(), head);
  }

  /** Every shard of a buffer of this length has room for its header. */
  ghost predicate Roomy(len: nat, size: nat, head: nat) {
    exists n: nat :: n > 0 && (n - 1) * size + head < len <= n * size
  }

  lemma RoomIs(len: nat, size: nat, head: nat, n: nat)
    requires size > 0 && n > 0 && (n - 1) * size + head < len <= n * size
    ensures DataShards(len, size) == n
  {
    ShardCount(len, size);
    SameCount(len, size, DataShards(len, size), n);
  }

  /** So does every shard of a block: all blocks but the last hold whole shards. */
  lemma BlockRoom(total: nat, size: nat, head: nat, m: nat, len: nat)
    requires head < size && len > 0 && Roomy(total, size, head)
    requires m * size + len == total || (Whole(len, size) && m * size + len <= total)
    ensures (DataShards(len, size) - 1) * size + head <= len
  {
    if m * size + len == total {
      var n: nat :| n > 0 && (n - 1) * size + head < total <= n * size;
      if n <= m {
        Fec.MulMono(size, n, m);
        assert false;
      }
      assert (n - m) * size == n * size - m * size;
      assert (n - m - 1) * size == (n - 1) * size - m * size;
      RoomIs(len, size, head, n - m);
    } else {
      var n: nat :| len == n * size;
      assert (n - 1) * size == n * size - size;
      RoomIs(len, size, head, n);
    }
  }

  /** Blocks start at whole shards. */
  lemma BlockStarts(blocks: seq<View>, total: nat, size: nat, i: nat) returns (m: nat)
    requires Tiles(blocks, total, size) && i < |blocks|
    ensures blocks[i].start == m * size
    decreases i
  {
    if i == 0 {
      m := 0;
    } else {
      var n := BlockStarts(blocks, total, size, i - 1);
      var k: nat :| blocks[i - 1].len == k * size;
      m := n + k;
      assert m * size == n * size + k * size;
    }
  }

  function StartOf(blocks: seq<View>, i: nat, total: nat): nat {
    if i < |blocks| then blocks[i].start else total
  }

  lemma {:induction false} TilesInside(blocks: seq<View>, total: nat, size: nat, i: nat)
    requires Tiles(blocks, total, size) && i < |blocks|
    ensures blocks[i].start + blocks[i].len == StartOf(blocks, i + 1, total) <= total
    decreases |blocks| - i
  {
    if i + 1 < |blocks| {
      TilesInside(blocks, total, size, i + 1);
    }
  }

  /** The blocks sent so far carry the buffer up to the next one; the rest of the buffer is as it was. */
  ghost predicate FrameSoFar(p: seq<Byte>, frame: seq<Byte>, start: nat, sent: seq<SentBlock>, head: nat, size: nat)
    requires head < size
  {
    && start <= |p| == |frame| && frame[start..] == p[start..]
    && Stripped(AllData(sent), head) == Body(p[..start], head, size)
  }

  lemma FrameStep(p: seq<Byte>, before: seq<Byte>, after: seq<Byte>, view: View, m: nat, sent: seq<SentBlock>, b: SentBlock, head: nat, size: nat)
    requires head < size && view.start == m * size && view.start + view.len <= |before|
    requires FrameSoFar(p, before, view.start, sent, head, size)
    requires SameOutside(before, after, view.start, view.len)
    requires Stripped(b.Data(), head) == Body(before[view.start..view.start + view.len], head, size)
    ensures FrameSoFar(p, after, view.start + view.len, sent + [b], head, size)
  {
    hide Body, Stripped, AllData;
    var i, j := view.start, view.start + view.len;
    AllDataSnoc(sent, b, head);
    BodyAppend(p[..i], p[i..j], head, size, m);
    assert p[..j] == p[..i] + p[i..j];
    assert before[i..j] == before[i..][..view.len] && p[i..j] == p[i..][..view.len];
    assert before[j..] == before[i..][view.len..] && p[j..] == p[i..][view.len..];
  }

  ghost predicate AllSentAs(sent: seq<SentBlock>, blocks: seq<View>, size: nat, head: nat, percentage: nat, minimum: nat,
    late: (nat, nat) -> seq<Byte>, parity: (nat, nat) -> seq<Byte>)
    requires size > 0
  {
    |sent| <= |blocks| && forall i: nat :: i < |sent| ==>
      blocks[i].len > 0 && SentAs(sent[i], blocks[i].len, size, head, percentage, minimum, Of(late, i), Of(parity, i))
  }

  /** The bytes of one block's shards. */
  function Of(f: (nat, nat) -> seq<Byte>, i: nat): (g: nat -> seq<Byte>)
    ensures forall x :: g(x) == f(i, x)
  {
    (x: nat) => f(i, x)
  }

  ghost predicate Widths(early: (nat, nat) -> seq<Byte>, late: (nat, nat) -> seq<Byte>, parity: (nat, nat) -> seq<Byte>, size: nat, head: nat) {
    forall b, x :: |early(b, x)| == head && |late(b, x)| == head && |parity(b, x)| == size
  }

  lemma NextView(blocks: seq<View>, i: nat, total: nat, size: nat, head: nat) returns (m: nat)
    requires head < size && Tiles(blocks, total, size) && Roomy(total, size, head) && i < |blocks|
    ensures blocks[i].len > 0 && blocks[i].start == m * size && blocks[i].start == StartOf(blocks, i, total)
    ensures blocks[i].start + blocks[i].len == StartOf(blocks, i + 1, total) <= total
    ensures (DataShards(blocks[i].len, size) - 1) * size + head <= blocks[i].len
  {
    hide Roomy, DataShards;
    TilesInside(blocks, total, size, i);
    m := BlockStarts(blocks, total, size, i);
    BlockRoom(total, size, head, m, blocks[i].len);
  }

  method SendNextBlock(frame: array<Byte>, blocks: seq<View>, i: nat, size: nat, head: nat, percentage: nat, minimum: nat,
    early: (nat, nat) -> seq<Byte>, late: (nat, nat) -> seq<Byte>, parity: (nat, nat) -> seq<Byte>,
    sent: seq<SentBlock>, ghost p: seq<Byte>) returns (more: seq<SentBlock>)
    requires head < size && Tiles(blocks, |p|, size) && Roomy(|p|, size, head) && |sent| == i < |blocks|
    requires Widths(early, late, parity, size, head)
    requires FrameSoFar(p, frame[..], StartOf(blocks, i, |p|), sent, head, size)
    requires AllSentAs(sent, blocks, size, head, percentage, minimum, late, parity)
    modifies frame
    ensures |more| == i + 1
    ensures FrameSoFar(p, frame[..], StartOf(blocks, i + 1, |p|), more, head, size)
    ensures AllSentAs(more, blocks, size, head, percentage, minimum, late, parity)
  {
    hide Body, Stripped, AllData, DataShards, SentAs, Tiles, Of, Roomy;
    var view := blocks[i];
    ghost var m := NextView(blocks, i, |p|, size, head);
    assert |p| == frame.Length;
    hide FrameSoFar, StartOf;
    ghost var before := frame[..];
    var b := SendBlock(frame, view, size, head, percentage, minimum, Of(early, i), Of(late, i), Of(parity, i));
    FrameStep(p, before, frame[..], view, m, sent, b, head, size);
    more := sent + [b];
  }

  method SendBlocks(frame: array<Byte>, blocks: seq<View>, size: nat, head: nat, percentage: nat, minimum: nat,
    early: (nat, nat) -> seq<Byte>, late: (nat, nat) -> seq<Byte>, parity: (nat, nat) -> seq<Byte>) returns (sent: seq<SentBlock>)
    requires head < size && Tiles(blocks, frame.Length, size) && Roomy(frame.Length, size, head)
    requires Widths(early, late, parity, size, head)
    modifies frame
    ensures |sent| == |blocks|
    ensures Stripped(AllData(sent), head) == Body(old(frame[..]), head, size)
    ensures AllSentAs(sent, blocks, size, head, percentage, minimum, late, parity)
  {
    ghost var p := frame[..];
    sent := [];
    FrameStart(p, head, size);
    hide Body, Stripped, AllData, DataShards, SentAs, FrameSoFar, Roomy, Widths;
    for i := 0 to |blocks|
      invariant |sent| == i
      invariant FrameSoFar(p, frame[..], StartOf(blocks, i, |p|), sent, head, size)
      invariant AllSentAs(sent, blocks, size, head, percentage, minimum, late, parity)
    {
      sent := SendNextBlock(frame, blocks, i, size, head, percentage, minimum, early, late, parity, sent, p);
    }
    FrameEnd(p, frame[..], sent, head, size);
  }

  lemma FrameStart(p: seq<Byte>, head: nat, size: nat)
    requires head < size
    ensures FrameSoFar(p, p, 0, [], head, size)
  {
    assert p[..0] == [];
  }

  lemma FrameEnd(p: seq<Byte>, frame: seq<Byte>, sent: seq<SentBlock>, head: nat, size: nat)
    requires head < size && FrameSoFar(p, frame, |p|, sent, head, size)
    ensures Stripped(AllData(sent), head) == Body(p, head, size)
  {
    assert p[..|p|] == p;
  }

  lemma FrameRoom(z: Sizes, kind: Byte, latency: nat, payload: seq<Byte>)
    requires z.Legal()
    ensures z.Block() >= 3 && z.Head() < z.Block() && z.Block() - z.Head() == z.packetSize - z.nv
    ensures var slice := z.packetSize - z.nv;
      var p := Interleave(z.Head(), slice, FrameOf(kind, latency, payload, slice));
      Roomy(|p|, z.Block(), z.Head()) && |p| > 0
  {
    var slice := z.packetSize - z.nv;
    FrameSize(kind, latency, payload, slice);
    var frame := FrameOf(kind, latency, payload, slice);
    hide FrameOf;
    var n := Elements(|frame|, slice);
    InterleaveLength(z.Head(), slice, frame, n);
    assert z.Head() + slice == z.Block();
  }

  /**
   The whole way of a frame. The data shards, headers removed, in the order sent, with the last
   one cut to the advertised length, give back the frame header and the payload, exactly when
   the length of the last packet fits its 16 bits.
   */
  method SendFrame(z: Sizes, kind: Byte, latency: nat, payload: seq<Byte>, percentage: nat, minimum: nat,
    early: (nat, nat) -> seq<Byte>, late: (nat, nat) -> seq<Byte>, parity: (nat, nat) -> seq<Byte>)
    returns (sent: seq<SentBlock>, blocks: seq<View>, split: Fec.Split)
    requires z.Legal() && 1 <= percentage <= 255
    requires Widths(early, late, parity, z.Block(), z.Head())
    ensures Arrives(z, kind, latency, payload, sent)
    ensures CutAsPlanned(z, kind, latency, payload, percentage, blocks, split)
    ensures |sent| == |blocks| == split.count <= Fec.MAX_FEC_BLOCKS
    ensures AllSentAs(sent, blocks, z.Block(), z.Head(), split.percentage, minimum, late, parity)
  {
    hide Body, Stripped, AllData, Interleave, FrameOf, Arrives, AllSentAs, Roomy, Tiles, Widths, Fec.SplitFor;
    var slice := z.packetSize - z.nv;
    var header := HeaderFor(kind, latency, payload, slice);
    var frame := ConcatAndInsert(z.Head(), z.Block() - z.Head(), header, payload);
    FrameRoom(z, kind, latency, payload);
    blocks, split := CutBlocks(frame.Length, z.Block(), percentage);
    sent := SendBlocks(frame, blocks, z.Block(), z.Head(), split.percentage, minimum, early, late, parity);
    ArrivesIf(z, kind, latency, payload, sent);
  }

  /** The blocks are those of this frame: its interleaved buffer, cut as the percentage asks for. */
  ghost predicate CutAsPlanned(z: Sizes, kind: Byte, latency: nat, payload: seq<Byte>, percentage: nat, blocks: seq<View>, split: Fec.Split)
    requires z.Legal()
  {
    var slice := z.packetSize - z.nv;
    var total := |Interleave(z.Head(), slice, FrameOf(kind, latency, payload, slice))|;
    && total > 0 && 1 <= percentage <= 255
    && split == Fec.SplitFor(total, z.Block(), percentage)
    && Tiles(blocks, total, z.Block())
    && forall i :: 0 <= i < |blocks| - 1 ==> blocks[i].len == split.aligned
  }

  method HeaderFor(kind: Byte, latency: nat, payload: seq<Byte>, slice: nat) returns (header: seq<Byte>)
    requires slice > 0
    ensures header + payload == FrameOf(kind, latency, payload, slice)
  {
    var last := (|payload| + 8) % slice % 65536;
    if last == 0 {
      last := slice % 65536;
    }
    header := FrameHeader(kind, latency, last);
  }

  /** The data shards, headers removed, with the last one cut, are the frame exactly when the length of the last one fits 16 bits. */
  ghost predicate Arrives(z: Sizes, kind: Byte, latency: nat, payload: seq<Byte>, sent: seq<SentBlock>)
    requires z.Legal()
  {
    var slice := z.packetSize - z.nv;
    var stream := Stripped(AllData(sent), z.Head());
    && |stream| >= 8
    && (Cut(stream, slice) == FrameOf(kind, latency, payload, slice) <==> LastLen(|payload| + 8, slice) <= 65535)
  }

  lemma ArrivesIf(z: Sizes, kind: Byte, latency: nat, payload: seq<Byte>, sent: seq<SentBlock>)
    requires z.Legal()
    requires Stripped(AllData(sent), z.Head())
          == Body(Interleave(z.Head(), z.packetSize - z.nv, FrameOf(kind, latency, payload, z.packetSize - z.nv)), z.Head(), z.Block())
    ensures Arrives(z, kind, latency, payload, sent)
  {
    hide Stripped, AllData, Body, Interleave, FrameOf, Cut, LastLen;
    FrameSize(kind, latency, payload, z.packetSize - z.nv);
    CutIsExactIff(kind, latency, payload, z.Head(), z.packetSize - z.nv);
  }

  lemma FrameSize(kind: Byte, latency: nat, payload: seq<Byte>, slice: nat)
    requires slice > 0
    ensures |FrameOf(kind, latency, payload, slice)| == |payload| + 8
  {
  }

  // ----- Two ways to the socket -----

  datatype Descriptor = Descriptor(ref: Ref, len: nat)

  /** The batched send finds a shard by its offset in the concatenated buffers. */
  function BufferFor(buffers: seq<Descriptor>, offset: nat): Option<Descriptor> {
    if buffers == [] then None
    else if offset < buffers[0].len then
      Some(Descriptor(Ref(buffers[0].ref.buffer, buffers[0].ref.offset + offset), buffers[0].len - offset))
    else BufferFor(buffers[1..], offset - buffers[0].len)
  }

  /** The payload buffers `fec::encode` describes. */
  function Buffers(l: Layout, frame: array<Byte>, shards: array<Byte>): seq<Descriptor>
    requires l.size > 0
  {
    Product(l.Aligned(), l.size);
    [Descriptor(Ref(frame, l.start), l.Aligned() * l.size), Descriptor(Ref(shards, 0), shards.Length)]
  }

  /** A batched send and the fallback that follows the pointers send the same bytes for every shard. */
  lemma BatchSendsTheShards(l: Layout, frame: array<Byte>, shards: array<Byte>, k: nat)
    requires l.Valid() && k < l.total && shards.Length == (l.total - l.Aligned()) * l.size
    ensures 0 <= k * l.size
    ensures BufferFor(Buffers(l, frame, shards), k * l.size).Some?
    ensures BufferFor(Buffers(l, frame, shards), k * l.size).value.ref == BufferOf(l, frame, shards, k)
    ensures BufferFor(Buffers(l, frame, shards), k * l.size).value.len >= l.size
  {
    Product(k, l.size);
    Product(l.Aligned(), l.size);
    var buffers := Buffers(l, frame, shards);
    if k < l.Aligned() {
      MulStep(k, l.Aligned(), l.size);
    } else {
      var j := k - l.Aligned();
      assert k * l.size == l.Aligned() * l.size + j * l.size;
      Product(j, l.size);
      MulStep(j, l.total - l.Aligned(), l.size);
      assert BufferFor(buffers, k * l.size) == BufferFor(buffers[1..], j * l.size);
    }
  }
}
