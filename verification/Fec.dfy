/**
 Forward error correction in `videoBroadcastThread` and `fec::encode` (src/stream.cpp): how a
 frame is cut into FEC blocks, how much parity a block gets, and what the receiver can compute
 back from the header fields.
 */
module Fec {

  const DATA_SHARDS_MAX := 255
  const MAX_FEC_BLOCKS := 4

  function CeilDiv(n: nat, d: nat): nat
    requires d > 0
  {
    (n + (d - 1)) / d
  }

  /** The largest number of data shards that leaves room for their parity. */
  function MaxData(percentage: nat): nat {
    DATA_SHARDS_MAX * 100 / (100 + percentage)
  }

  // ----- Cutting a frame into blocks -----

  /** `count` blocks of `aligned` bytes, the last one up to the end; `percentage` is 0 when FEC is turned off. */
  datatype Split = Split(count: nat, aligned: nat, percentage: nat)

  function SplitFor(size: nat, blocksize: nat, percentage: nat): Split
    requires blocksize > 0 && size > 0 && 1 <= percentage <= 255
  {
    MaxDataRange(percentage);
    ProductPositive(MaxData(percentage), blocksize);
    var needed := CeilDiv(size, MaxData(percentage) * blocksize);
    CeilDivPositive(size, MaxData(percentage) * blocksize);
    var count := if needed > MAX_FEC_BLOCKS then MAX_FEC_BLOCKS else needed;
    Split(count, CeilDiv(size / count, blocksize) * blocksize, if needed > MAX_FEC_BLOCKS then 0 else percentage)
  }

  lemma ProductPositive(a: nat, b: nat)
    requires a > 0 && b > 0
    ensures a * b > 0
  {
  }

  lemma CeilDivPositive(n: nat, d: nat)
    requires d > 0 && n > 0
    ensures CeilDiv(n, d) > 0
  {
    CeilDivBounds(n, d);
  }

  lemma CeilDivBounds(n: nat, d: nat)
    requires d > 0
    ensures d * CeilDiv(n, d) >= n
    ensures n > 0 ==> d * (CeilDiv(n, d) - 1) < n
    ensures d * CeilDiv(n, d) < n + d
  {
    var x := n + (d - 1);
    assert x == d * (x / d) + x % d;
    assert d * (x / d - 1) == d * (x / d) - d;
  }

  lemma MaxDataRange(percentage: nat)
    requires 1 <= percentage <= 255
    ensures 71 <= MaxData(percentage) <= 252
    ensures MaxData(percentage) * (100 + percentage) <= 25500
  {
    var d := 100 + percentage;
    var q := 25500 / d;
    assert d * q <= 25500 < d * q + d;
    if q < 71 {
      QuotientLow(d, q);
    } else if q > 252 {
      QuotientHigh(d, q);
    }
  }

  lemma QuotientLow(d: nat, q: nat)
    requires d <= 355 && q < 71
    ensures d * q + d <= 25205
  {
    assert d * q <= 355 * q by { MulMono(q, d, 355); }
  }

  lemma QuotientHigh(d: nat, q: nat)
    requires d >= 101 && q > 252
    ensures d * q > 25500
  {
    MulMono(q, 101, d);
  }

  lemma MulMono(k: nat, a: nat, b: nat)
    requires a <= b
    ensures k * a <= k * b && a * k <= b * k
  {
  }

  /** A multiple of `b` that bounds `n` bounds `n` rounded up to a multiple of `b`. */
  lemma RoundUpWithin(n: nat, b: nat, d: nat)
    requires b > 0 && n <= d * b
    ensures CeilDiv(n, b) <= d
  {
    CeilDivBounds(n, b);
    if CeilDiv(n, b) > d {
      MulMono(b, d, CeilDiv(n, b) - 1);
    }
  }

  /** The arithmetic of the cut for at most four blocks: `aligned` is `size / count` rounded up to a multiple of `b`. */
  lemma CutArith(size: nat, count: nat, aligned: nat, limit: nat, b: nat)
    requires 1 <= count <= 4 && b >= 3
    requires (count - 1) * limit < size <= count * limit
    requires size / count <= aligned <= limit
    requires aligned == limit || aligned + b <= limit
    ensures (count - 1) * aligned < size
    ensures size - (count - 1) * aligned <= limit
  {
    if count == 1 {
    } else if count == 2 {
    } else if count == 3 {
    } else if count == 4 {
    }
  }

  /** Two multiples of `b`, one not above the other: equal or at least `b` apart. */
  lemma MultiplesApart(c: nat, d: nat, b: nat)
    requires c <= d
    ensures c * b == d * b || c * b + b <= d * b
  {
    if c < d {
      MulMono(b, c + 1, d);
      assert (c + 1) * b == c * b + b;
    }
  }

  /**
   The cut is safe for every frame, block size and configured percentage: one to four blocks,
   all but the last whole numbers of shards, none empty, so no `substr` starts out of range,
   and unless FEC is turned off no block holds more than MaxData shards.
   */
  lemma SplitIsSafe(size: nat, blocksize: nat, percentage: nat)
    requires size > 0 && blocksize >= 3 && 1 <= percentage <= 255
    ensures var s := SplitFor(size, blocksize, percentage);
      && 1 <= s.count <= MAX_FEC_BLOCKS
      && s.aligned > 0 && s.aligned % blocksize == 0
      && (s.count - 1) * s.aligned < size
      && (s.percentage != 0 ==>
        && s.percentage == percentage
        && (s.count > 1 ==> s.aligned / blocksize <= MaxData(percentage))
        && CeilDiv(size - (s.count - 1) * s.aligned, blocksize) <= MaxData(percentage))
  {
    MaxDataRange(percentage);
    var d := MaxData(percentage);
    var limit := d * blocksize;
    ProductPositive(d, blocksize);
    CeilDivPositive(size, limit);
    var s := SplitFor(size, blocksize, percentage);
    var shards := CeilDiv(size / s.count, blocksize);
    AlignedShards(shards, blocksize);
    if CeilDiv(size, limit) > MAX_FEC_BLOCKS {
      HugeFrame(size, blocksize, d, s);
    } else {
      SmallFrame(size, blocksize, d, s);
    }
  }

  lemma AlignedShards(shards: nat, b: nat)
    requires b > 0
    ensures (shards * b) % b == 0 && (shards * b) / b == shards
  {
    QuotientIs(shards * b, b, shards, 0);
  }

  lemma QuotientIs(x: int, b: nat, q: int, r: nat)
    requires b > 0 && r < b && x == q * b + r
    ensures x / b == q && x % b == r
  {
    var e := x / b - q;
    assert x == b * (x / b) + x % b;
    assert b * e == b * (x / b) - q * b;
    assert 0 - b < b * e < b;
    SmallMultiple(b, e);
  }

  lemma SmallMultiple(b: int, e: int)
    requires b > 0 && -b < b * e < b
    ensures e == 0
  {
  }

  lemma DividedBounds(size: nat, count: nat, limit: nat)
    requires 1 <= count <= 4 && size <= count * limit
    ensures size / count <= limit
  {
    if count == 1 {
    } else if count == 2 {
    } else if count == 3 {
    } else if count == 4 {
    }
  }

  lemma SmallFrame(size: nat, b: nat, d: nat, s: Split)
    requires size > 0 && b >= 3 && d > 0 && d * b > 0
    requires s.count == CeilDiv(size, d * b) && 1 <= s.count <= 4
    requires s.aligned == CeilDiv(size / s.count, b) * b
    ensures s.aligned > 0
    ensures CeilDiv(size / s.count, b) <= d
    ensures (s.count - 1) * s.aligned < size
    ensures CeilDiv(size - (s.count - 1) * s.aligned, b) <= d
  {
    var limit, c := d * b, CeilDiv(size / s.count, b);
    CeilDivBounds(size, limit);
    MulComm(limit, s.count);
    MulComm(limit, s.count - 1);
    DividedBounds(size, s.count, limit);
    RoundUpWithin(size / s.count, b, d);
    MultiplesApart(c, d, b);
    CeilDivBounds(size / s.count, b);
    MulComm(b, c);
    CutArith(size, s.count, s.aligned, limit, b);
    RoundUpWithin(size - (s.count - 1) * s.aligned, b, d);
    EnoughForAll(size, s.count, limit);
  }

  lemma MulComm(a: int, b: int)
    ensures a * b == b * a
  {
  }

  /** Every block gets at least a byte. */
  lemma EnoughForAll(size: nat, count: nat, limit: nat)
    requires 1 <= count <= 4 && limit >= 3 && (count - 1) * limit < size
    ensures size / count > 0
  {
    if count == 1 {
    } else if count == 2 {
    } else if count == 3 {
    } else if count == 4 {
    }
  }

  lemma HugeFrame(size: nat, b: nat, d: nat, s: Split)
    requires b >= 3 && d >= 71 && d * b > 0 && CeilDiv(size, d * b) > 4
    requires s.count == 4 && s.aligned == CeilDiv(size / 4, b) * b
    ensures s.aligned > 0 && 3 * s.aligned < size
  {
    var limit, c := d * b, CeilDiv(size / 4, b);
    CeilDivBounds(size, limit);
    MulMono(limit, 4, CeilDiv(size, limit) - 1);
    assert limit * 4 < size;
    MulMono(b, 71, d);
    CeilDivBounds(size / 4, b);
    MulComm(b, c);
  }

  /**
   FEC is turned off exactly for frames that four blocks of the largest allowed size cannot hold;
   otherwise the number of blocks is the least that holds the frame.
   */
  lemma FecOffIff(size: nat, blocksize: nat, percentage: nat)
    requires size > 0 && blocksize > 0 && 1 <= percentage <= 255
    ensures SplitFor(size, blocksize, percentage).percentage
         == if size > 4 * (25500 / (100 + percentage) * blocksize) then 0 else percentage
  {
    var limit := 25500 / (100 + percentage) * blocksize;
    MaxDataRange(percentage);
    ProductPositive(MaxData(percentage), blocksize);
    EnoughBlocks(size, limit, 4);
    hide CeilDiv;
  }

  /** So many blocks of the limit hold the size exactly when they are no fewer than the rounded quotient. */
  lemma EnoughBlocks(size: nat, limit: nat, n: nat)
    requires limit > 0
    ensures size <= n * limit <==> CeilDiv(size, limit) <= n
  {
    CeilDivBounds(size, limit);
    var k := CeilDiv(size, limit);
    if k <= n {
      MulMono(limit, k, n);
    } else {
      MulMono(limit, n, k - 1);
    }
  }

  lemma CountIsLeast(size: nat, blocksize: nat, percentage: nat, n: nat)
    requires size > 0 && blocksize > 0 && 1 <= percentage <= 255
    ensures var s := SplitFor(size, blocksize, percentage);
      if s.percentage == 0 then s.count == 4
      else size <= n * (25500 / (100 + percentage) * blocksize) <==> n >= s.count
  {
    var limit := 25500 / (100 + percentage) * blocksize;
    MaxDataRange(percentage);
    ProductPositive(MaxData(percentage), blocksize);
    EnoughBlocks(size, limit, n);
    hide CeilDiv;
  }

  /** A block is its share of the frame, rounded up to whole shards and no further. */
  lemma AlignedIsLeast(size: nat, blocksize: nat, percentage: nat)
    requires size > 0 && blocksize > 0 && 1 <= percentage <= 255
    ensures var s := SplitFor(size, blocksize, percentage);
      s.count > 0 && s.aligned % blocksize == 0 && size / s.count <= s.aligned < size / s.count + blocksize
  {
    MaxDataRange(percentage);
    ProductPositive(MaxData(percentage), blocksize);
    CeilDivPositive(size, MaxData(percentage) * blocksize);
    var s := SplitFor(size, blocksize, percentage);
    hide MaxData;
    CeilDivBounds(size / s.count, blocksize);
    AlignedShards(CeilDiv(size / s.count, blocksize), blocksize);
    MulComm(blocksize, CeilDiv(size / s.count, blocksize));
    hide CeilDiv;
  }

  // ----- Parity -----

  datatype Plan = Plan(data: nat, parity: nat, percentage: nat)

  function ParityFor(data: nat, percentage: nat): nat {
    (data * percentage + 99) / 100
  }

  predicate Raised(data: nat, percentage: nat, minimum: nat) {
    ParityFor(data, percentage) < minimum && percentage != 0
  }

  /** What `fec::encode` decides: the percentage is raised when the minimum of parity shards is not met. */
  function PlanFor(data: nat, percentage: nat, minimum: nat): Plan
    requires data > 0
  {
    if Raised(data, percentage, minimum) then Plan(data, minimum, 100 * minimum / data)
    else Plan(data, ParityFor(data, percentage), percentage)
  }

  /** The parity planned is the least that covers the percentage and, unless FEC is off, the minimum. */
  lemma PlanIsLeast(data: nat, percentage: nat, minimum: nat, n: nat)
    requires data > 0
    ensures n >= PlanFor(data, percentage, minimum).parity
      <==> 100 * n >= data * percentage && (percentage != 0 ==> n >= minimum)
  {
    if percentage == 0 {
      assert data * percentage == 0;
    }
  }

  lemma PlanFits(data: nat, percentage: nat, minimum: nat)
    requires 1 <= percentage <= 255 && 0 < data <= MaxData(percentage) && minimum <= 3
    ensures PlanFor(data, percentage, minimum).data + PlanFor(data, percentage, minimum).parity <= DATA_SHARDS_MAX
  {
    MaxDataRange(percentage);
    MulMono(100 + percentage, data, MaxData(percentage));
    assert data * (100 + percentage) == 100 * data + data * percentage;
  }

  /** A parity minimum keeps every allowed block within 255 shards exactly when it is at most three. */
  lemma MinimumFitsIff(minimum: nat)
    ensures minimum <= 3 <==>
      (forall data, percentage :: 1 <= percentage <= 255 && 0 < data <= MaxData(percentage) ==>
        PlanFor(data, percentage, minimum).data + PlanFor(data, percentage, minimum).parity <= DATA_SHARDS_MAX)
  {
    if minimum <= 3 {
      forall data: nat, percentage: nat | 1 <= percentage <= 255 && 0 < data <= MaxData(percentage)
        ensures PlanFor(data, percentage, minimum).data + PlanFor(data, percentage, minimum).parity <= DATA_SHARDS_MAX
      {
        PlanFits(data, percentage, minimum);
      }
    } else {
      assert MaxData(1) == 252 && ParityFor(252, 1) == 3;
      assert PlanFor(252, 1, minimum) == Plan(252, minimum, 100 * minimum / 252);
    }
  }

  /** Data shards of the last block; all others have `aligned / blocksize`. */
  function LastShards(size: nat, blocksize: nat, s: Split): nat
    requires blocksize > 0 && s.count > 0
  {
    var rest := size - (s.count - 1) * s.aligned;
    if rest < 0 then 0 else CeilDiv(rest, blocksize)
  }

  predicate FitsCode(data: nat, percentage: nat, minimum: nat) {
    data > 0 && data + PlanFor(data, percentage, minimum).parity <= DATA_SHARDS_MAX
  }

  predicate SplitFitsCode(size: nat, blocksize: nat, s: Split, minimum: nat) {
    && blocksize > 0 && s.count > 0
    && FitsCode(LastShards(size, blocksize, s), s.percentage, minimum)
    && (s.count > 1 ==> FitsCode(s.aligned / blocksize, s.percentage, minimum))
  }

  /**
   Without FEC turned off, every block of every frame fits the Reed-Solomon code when the
   parity minimum is at most three.
   */
  lemma BlocksFit(size: nat, blocksize: nat, percentage: nat, minimum: nat)
    requires size > 0 && blocksize >= 3 && 1 <= percentage <= 255 && minimum <= 3
    ensures var s := SplitFor(size, blocksize, percentage);
      s.percentage != 0 ==> SplitFitsCode(size, blocksize, s, minimum)
  {
    hide ParityFor, CeilDiv, MaxData, SplitFor;
    SplitIsSafe(size, blocksize, percentage);
    var s := SplitFor(size, blocksize, percentage);
    if s.percentage != 0 {
      CeilDivPositive(size - (s.count - 1) * s.aligned, blocksize);
      PlanFits(LastShards(size, blocksize, s), percentage, minimum);
      if s.count > 1 {
        WholeShards(s.aligned, blocksize);
        PlanFits(s.aligned / blocksize, percentage, minimum);
      }
    }
  }

  lemma WholeShards(aligned: nat, b: nat)
    requires b > 0 && aligned > 0 && aligned % b == 0
    ensures aligned / b > 0
  {
  }

  // ----- Bits -----

  function Or(a: nat, b: nat): nat {
    if a == 0 then b
    else if b == 0 then a
    else 2 * Or(a / 2, b / 2) + (if a % 2 == 1 || b % 2 == 1 then 1 else 0)
  }

  function Shl(n: nat, k: nat): nat {
    if k == 0 then n else 2 * Shl(n, k - 1)
  }

  function Shr(n: nat, k: nat): nat {
    if k == 0 then n else Shr(n / 2, k - 1)
  }

  /** The lowest `k` bits. */
  function Low(n: nat, k: nat): nat {
    if k == 0 then 0 else 2 * Low(n / 2, k - 1) + n % 2
  }

  lemma OrHalves(a: nat, b: nat)
    ensures Or(a, b) / 2 == Or(a / 2, b / 2)
    ensures Or(a, b) % 2 == if a % 2 == 1 || b % 2 == 1 then 1 else 0
  {
  }

  lemma {:induction false} ShrOr(a: nat, b: nat, k: nat)
    ensures Shr(Or(a, b), k) == Or(Shr(a, k), Shr(b, k))
    decreases k
  {
    if k > 0 {
      OrHalves(a, b);
      ShrOr(a / 2, b / 2, k - 1);
    }
  }

  lemma {:induction false} LowOr(a: nat, b: nat, k: nat)
    ensures Low(Or(a, b), k) == Or(Low(a, k), Low(b, k))
    decreases k
  {
    if k > 0 {
      OrHalves(a, b);
      LowOr(a / 2, b / 2, k - 1);
      OrHalves(Low(a, k), Low(b, k));
      Halves(Low(a / 2, k - 1), a % 2);
      Halves(Low(b / 2, k - 1), b % 2);
    }
  }

  lemma Halves(h: nat, bit: nat)
    requires bit < 2
    ensures (2 * h + bit) / 2 == h && (2 * h + bit) % 2 == bit
  {
  }

  lemma {:induction false} ShrShl(n: nat, j: nat, k: nat)
    ensures j <= k ==> Shr(Shl(n, j), k) == Shr(n, k - j)
    ensures j >= k ==> Shr(Shl(n, j), k) == Shl(n, j - k)
    decreases j
  {
    if j > 0 && k > 0 {
      ShrShl(n, j - 1, k - 1);
      Halves(Shl(n, j - 1), 0);
    }
  }

  lemma {:induction false} LowShl(n: nat, j: nat, k: nat)
    requires k <= j
    ensures Low(Shl(n, j), k) == 0
    decreases k
  {
    if k > 0 {
      Halves(Shl(n, j - 1), 0);
      LowShl(n, j - 1, k - 1);
    }
  }

  lemma {:induction false} ShrLow(n: nat, m: nat, k: nat)
    requires k <= m
    ensures Shr(Low(n, m), k) == Low(Shr(n, k), m - k)
    decreases k
  {
    if k > 0 {
      Halves(Low(n / 2, m - 1), n % 2);
      ShrLow(n / 2, m - 1, k - 1);
    }
  }

  lemma {:induction false} LowLow(n: nat, a: nat, b: nat)
    requires a <= b
    ensures Low(Low(n, b), a) == Low(n, a)
    decreases a
  {
    if a > 0 {
      Halves(Low(n / 2, b - 1), n % 2);
      LowLow(n / 2, a - 1, b - 1);
    }
  }

  function Pow2(k: nat): nat {
    if k == 0 then 1 else 2 * Pow2(k - 1)
  }

  /** Low bits are a number's own exactly when it has no others. */
  lemma {:induction false} LowIs(n: nat, k: nat)
    ensures Low(n, k) < Pow2(k)
    ensures Low(n, k) == n <==> n < Pow2(k)
    ensures Shr(n, k) == 0 <==> n < Pow2(k)
    ensures Low(n, k) <= n
    decreases k
  {
    if k > 0 {
      LowIs(n / 2, k - 1);
    }
  }

  lemma OrZero(a: nat)
    ensures Or(a, 0) == a && Or(0, a) == a
  {
  }

  lemma Widths()
    ensures Pow2(8) == 256 && Pow2(10) == 1024 && Pow2(18) == 262144
  {
    assert Pow2(4) == 16;
    assert Pow2(8) == 256;
    assert Pow2(12) == 4096;
    assert Pow2(16) == 65536;
  }

  // ----- Header fields -----

  /** `fecInfo`: index, data shards and percentage shifted into place and cut to 32 bits. */
  function FecInfo(index: nat, data: nat, percentage: nat): nat {
    Low(Or(Or(Shl(index, 12), Shl(data, 22)), Shl(percentage, 4)), 32)
  }

  function IndexOf(info: nat): nat {
    Low(Shr(info, 12), 10)
  }

  function DataOf(info: nat): nat {
    Low(Shr(info, 22), 10)
  }

  function PercentageOf(info: nat): nat {
    Low(Shr(info, 4), 8)
  }

  /** A field of the packed word is made of what each of the three leaves there. */
  lemma FieldOf(index: nat, data: nat, percentage: nat, k: nat, width: nat)
    requires k + width <= 32
    ensures Low(Shr(FecInfo(index, data, percentage), k), width)
         == Or(Or(Low(Shr(Shl(index, 12), k), width), Low(Shr(Shl(data, 22), k), width)), Low(Shr(Shl(percentage, 4), k), width))
  {
    hide Or, Shl, Shr, Low;
    var i, d, p := Shl(index, 12), Shl(data, 22), Shl(percentage, 4);
    ShrLow(Or(Or(i, d), p), 32, k);
    LowLow(Shr(Or(Or(i, d), p), k), width, 32 - k);
    ShrOr(Or(i, d), p, k);
    ShrOr(i, d, k);
    LowOr(Or(Shr(i, k), Shr(d, k)), Shr(p, k), width);
    LowOr(Shr(i, k), Shr(d, k), width);
  }

  /** What is read back, for any values: wide ones run into the fields above them. */
  lemma FieldsRead(index: nat, data: nat, percentage: nat)
    ensures var info := FecInfo(index, data, percentage);
      && PercentageOf(info) == Low(percentage, 8)
      && IndexOf(info) == Or(Low(index, 10), Low(Shr(percentage, 8), 10))
      && DataOf(info) == Or(Or(Low(Shr(index, 10), 10), Low(data, 10)), Low(Shr(percentage, 18), 10))
  {
    hide Or, Shl, Low, FecInfo;
    FieldOf(index, data, percentage, 4, 8);
    ShrShl(index, 12, 4);
    ShrShl(data, 22, 4);
    ShrShl(percentage, 4, 4);
    LowShl(index, 8, 8);
    LowShl(data, 18, 8);
    FieldOf(index, data, percentage, 12, 10);
    ShrShl(index, 12, 12);
    ShrShl(data, 22, 12);
    ShrShl(percentage, 4, 12);
    LowShl(data, 10, 10);
    FieldOf(index, data, percentage, 22, 10);
    ShrShl(index, 12, 22);
    ShrShl(data, 22, 22);
    ShrShl(percentage, 4, 22);
    OrZero(0);
    OrZero(Low(percentage, 8));
    OrZero(Low(index, 10));
    ZeroMoves(index, data, percentage);
  }

  lemma ZeroMoves(index: nat, data: nat, percentage: nat)
    ensures Shr(index, 0) == index && Shr(data, 0) == data && Shr(percentage, 0) == percentage
    ensures Shl(index, 0) == index && Shl(data, 0) == data && Shl(percentage, 0) == percentage
  {
  }

  predicate Decodes(index: nat, data: nat, percentage: nat) {
    var info := FecInfo(index, data, percentage);
    IndexOf(info) == index && DataOf(info) == data && PercentageOf(info) == percentage
  }

  /** The three fields are read back exactly when each fits its width. */
  lemma FecInfoDecodesIff(index: nat, data: nat, percentage: nat)
    ensures Decodes(index, data, percentage) <==> index < 1024 && data < 1024 && percentage < 256
  {
    hide Or, Low, Shr, FecInfo, IndexOf, DataOf, PercentageOf, Pow2;
    Widths();
    FieldsRead(index, data, percentage);
    LowIs(percentage, 8);
    LowIs(index, 10);
    LowIs(data, 10);
    if percentage < 256 {
      NoHighBits(percentage);
      OrZero(Low(index, 10));
      if index < 1024 {
        OrZero(0);
        LowIs(0, 10);
        OrZero(Low(data, 10));
      }
    }
  }

  lemma NoHighBits(percentage: nat)
    requires percentage < 256
    ensures Low(Shr(percentage, 8), 10) == 0 && Low(Shr(percentage, 18), 10) == 0
  {
    hide Pow2, Shr, Low;
    Widths();
    LowIs(percentage, 8);
    LowIs(percentage, 18);
    LowIs(0, 10);
  }

  /** All headers of a block can be read exactly when it has at most 1023 data shards and 1024 shards, and eight bits of percentage. */
  lemma BlockDecodesIff(plan: Plan)
    requires plan.data > 0
    ensures (forall k: nat :: k < plan.data + plan.parity ==> Decodes(k, plan.data, plan.percentage))
      <==> plan.data < 1024 && plan.data + plan.parity <= 1024 && plan.percentage < 256
  {
    hide Decodes;
    forall k: nat ensures Decodes(k, plan.data, plan.percentage) <==> k < 1024 && plan.data < 1024 && plan.percentage < 256 {
      FecInfoDecodesIff(k, plan.data, plan.percentage);
    }
    assert Decodes(0, plan.data, plan.percentage) <==> plan.data < 1024 && plan.percentage < 256;
    if plan.data + plan.parity > 1024 {
      assert !Decodes(1024, plan.data, plan.percentage);
    }
  }

  /** Every header of every block of this frame can be read, when FEC is turned off for it. */
  ghost predicate AllRead(size: nat, blocksize: nat, s: Split)
    requires blocksize > 0 && s.count > 0
  {
    var n, last := s.aligned / blocksize, LastShards(size, blocksize, s);
    && (forall k: nat :: k < n ==> Decodes(k, n, 0))
    && (forall k: nat :: k < last ==> Decodes(k, last, 0))
  }

  /** A frame sent without FEC can be read exactly when no block has more than 1023 shards. */
  lemma FrameReadIff(size: nat, blocksize: nat, s: Split)
    requires blocksize > 0 && s.count > 0 && s.aligned >= blocksize && LastShards(size, blocksize, s) > 0
    ensures AllRead(size, blocksize, s) <==> s.aligned / blocksize < 1024 && LastShards(size, blocksize, s) < 1024
  {
    hide Decodes, LastShards;
    OneShard(s.aligned, blocksize);
    BlockDecodesIff(Plan(s.aligned / blocksize, 0, 0));
    BlockDecodesIff(Plan(LastShards(size, blocksize, s), 0, 0));
  }

  lemma OneShard(aligned: nat, b: nat)
    requires 0 < b <= aligned
    ensures aligned / b > 0
  {
    assert aligned == b * (aligned / b) + aligned % b;
  }

  /** Such frames exist: at every block size and percentage, 4100 packets are cut into four blocks of 1025 shards. */
  lemma LargeFrame(blocksize: nat, percentage: nat)
    requires blocksize >= 3 && 1 <= percentage <= 255
    ensures 4100 * blocksize > 0
    ensures var s := SplitFor(4100 * blocksize, blocksize, percentage);
      s == Split(4, 1025 * blocksize, 0) && !AllRead(4100 * blocksize, blocksize, s)
  {
    hide CeilDiv, MaxData, Decodes;
    var size, d := 4100 * blocksize, MaxData(percentage);
    MaxDataRange(percentage);
    ProductPositive(d, blocksize);
    CeilDivBounds(size, d * blocksize);
    ManyBlocks(blocksize, d, CeilDiv(size, d * blocksize));
    QuotientIs(size, 4, 1025 * blocksize, 0);
    ExactCeil(1025, blocksize);
    AlignedShards(1025, blocksize);
    assert !Decodes(1024, 1025, 0) by {
      FecInfoDecodesIff(1024, 1025, 0);
    }
  }

  lemma ManyBlocks(b: nat, d: nat, n: nat)
    requires b > 0 && d <= 252 && d * b * n >= 4100 * b
    ensures n > 4
  {
    if n <= 4 {
      MulMono(d * b, n, 4);
      MulMono(b, d, 252);
      assert false;
    }
  }

  lemma ExactCeil(n: nat, b: nat)
    requires b > 0
    ensures CeilDiv(n * b, b) == n
  {
    QuotientIs(n * b + (b - 1), b, n, b - 1);
  }

  // ----- What the receiver computes -----

  /** The parity a receiver works out from one header of a block. */
  function ReceivedParity(index: nat, plan: Plan): nat {
    var info := FecInfo(index, plan.data, plan.percentage);
    ParityFor(DataOf(info), PercentageOf(info))
  }

  /**
   The receiver recomputes the number of parity shards from the header fields. This gives the
   number sent exactly when the percentage was not raised, or was raised to one that fits its
   eight bits and lost less than one parity shard to rounding.
   */
  lemma ReceiverAgreesIff(index: nat, data: nat, percentage: nat, minimum: nat)
    requires data > 0 && percentage < 256 && (percentage != 0 ==> index < 1024 && data < 1024)
    ensures var plan := PlanFor(data, percentage, minimum);
      ReceivedParity(index, plan) == plan.parity
      <==> !Raised(data, percentage, minimum) || (100 * minimum / data < 256 && (100 * minimum) % data < 100)
  {
    hide Or, Low, Shr, FecInfo, IndexOf, DataOf, PercentageOf, Decodes, Pow2, ParityFor;
    var plan := PlanFor(data, percentage, minimum);
    if percentage == 0 {
      FieldsRead(index, data, 0);
      Widths();
      LowIs(0, 8);
      NoParity(data);
      NoParity(DataOf(FecInfo(index, data, 0)));
    } else {
      FecInfoDecodesIff(index, data, plan.percentage);
      UnfoldDecodes(index, data, plan.percentage);
      if Raised(data, percentage, minimum) {
        RaisedParity(data, minimum);
        if plan.percentage >= 256 {
          TooWide(index, data, minimum);
        }
      }
    }
  }

  lemma UnfoldDecodes(index: nat, data: nat, percentage: nat)
    ensures var info := FecInfo(index, data, percentage);
      Decodes(index, data, percentage) ==> DataOf(info) == data && PercentageOf(info) == percentage
  {
  }

  lemma NoParity(data: nat)
    ensures ParityFor(data, 0) == 0
  {
    assert data * 0 == 0;
  }

  lemma RaisedParity(data: nat, minimum: nat)
    requires data > 0
    ensures ParityFor(data, 100 * minimum / data) == minimum <==> (100 * minimum) % data < 100
  {
    assert 100 * minimum == data * (100 * minimum / data) + (100 * minimum) % data;
  }

  /** A percentage of more than eight bits always misleads: what is left of it gives too little parity. */
  lemma TooWide(index: nat, data: nat, minimum: nat)
    requires 0 < data < 1024 && index < 1024 && 100 * minimum / data >= 256
    ensures ReceivedParity(index, Plan(data, minimum, 100 * minimum / data)) < minimum
  {
    hide Or, Low, Shr, FecInfo, IndexOf, DataOf, PercentageOf, Pow2, ParityFor;
    var p := 100 * minimum / data;
    assert data * p <= 100 * minimum;
    var info := FecInfo(index, data, p);
    FieldsRead(index, data, p);
    Widths();
    LowIs(p, 8);
    LowIs(data, 10);
    LowIs(index, 10);
    LowIs(0, 10);
    if p < 262144 {
      LowIs(p, 18);
      OrZero(0);
      OrZero(data);
      assert DataOf(info) == data;
      LowDrops(p);
      LittleParity(data, PercentageOf(info), p, minimum);
    } else {
      LowIs(Shr(p, 18), 10);
      OrBound(Low(Shr(index, 10), 10), Low(data, 10), 10);
      OrBound(Or(Low(Shr(index, 10), 10), Low(data, 10)), Low(Shr(p, 18), 10), 10);
      LowIs(Shr(index, 10), 10);
      MulMono(p, 1, data);
      SmallParity(DataOf(info), PercentageOf(info));
    }
  }

  /** Dropping bits drops at least 256. */
  lemma LowDrops(p: nat)
    requires p >= 256
    ensures Low(p, 8) <= p - 256
  {
    hide Low, Pow2;
    LowMod(p, 8);
    Widths();
    assert p == 256 * (p / 256) + p % 256;
  }

  lemma {:induction false} LowMod(n: nat, k: nat)
    ensures Pow2(k) > 0 && Low(n, k) == n % Pow2(k)
    decreases k
  {
    if k > 0 {
      LowMod(n / 2, k - 1);
      DoubledMod(n, Pow2(k - 1));
    }
  }

  lemma DoubledMod(n: nat, m: nat)
    requires m > 0
    ensures n % (2 * m) == 2 * (n / 2 % m) + n % 2
  {
    var h := n / 2;
    var q, r := h / m, h % m;
    assert h == m * q + r;
    assert q * (2 * m) == 2 * (m * q);
    QuotientIs(n, 2 * m, q, 2 * r + n % 2);
  }

  lemma LittleParity(data: nat, q: nat, p: nat, minimum: nat)
    requires data > 0 && q + 256 <= p && data * p <= 100 * minimum
    ensures ParityFor(data, q) < minimum
  {
    MulMono(data, q + 256, p);
    assert data * (q + 256) == data * q + 256 * data;
  }

  lemma SmallParity(data: nat, q: nat)
    requires data < 1024 && q < 256
    ensures ParityFor(data, q) <= 2609
  {
    MulMono(data, q, 255);
  }

  lemma {:induction false} OrBound(a: nat, b: nat, k: nat)
    requires a < Pow2(k) && b < Pow2(k)
    ensures Or(a, b) < Pow2(k)
    decreases k
  {
    if k > 0 {
      OrBound(a / 2, b / 2, k - 1);
    }
  }

  /** A parity minimum of at most two is always agreed on, and the advertised percentage fits its eight bits. */
  lemma ReceiverAgrees(index: nat, data: nat, percentage: nat, minimum: nat)
    requires index < 1024 && 0 < data < 1024 && 1 <= percentage <= 255 && minimum <= 2
    ensures var plan := PlanFor(data, percentage, minimum);
      ReceivedParity(index, plan) == plan.parity && plan.percentage <= 255
  {
    hide ReceivedParity;
    ReceiverAgreesIff(index, data, percentage, minimum);
    if Raised(data, percentage, minimum) {
      MulMono(data, 1, percentage);
      RaisedIsSmall(data, minimum);
    }
  }

  lemma RaisedIsSmall(data: nat, minimum: nat)
    requires 0 < data && minimum <= 2
    requires (data + 99) / 100 < minimum
    ensures (100 * minimum) % data <= 99
    ensures 100 * minimum / data <= 200
  {
    var p := 100 * minimum / data;
    assert 100 * minimum == data * p + (100 * minimum) % data;
    MulMono(p, 1, data);
  }

  /**
   Three is already too many, at both ends: 199 data shards at one per cent are sent with three
   parity shards and read as two, for the lost hundredths; a single one is sent with three and
   read as one, for 300 per cent are read as 44.
   */
  lemma ReceiverDisagrees()
    ensures PlanFor(199, 1, 3) == Plan(199, 3, 1) && ReceivedParity(0, Plan(199, 3, 1)) == 2
    ensures PlanFor(1, 1, 3) == Plan(1, 3, 300) && ReceivedParity(0, Plan(1, 3, 300)) == 1
    ensures PercentageOf(FecInfo(0, 1, 300)) == 44 && IndexOf(FecInfo(0, 1, 300)) == 1
  {
    hide Or, Low, Shr, FecInfo, IndexOf, DataOf, PercentageOf, Decodes, Pow2;
    FecInfoDecodesIff(0, 199, 1);
    UnfoldDecodes(0, 199, 1);
    FieldsRead(0, 1, 300);
    Widths();
    LowMod(300, 8);
    LowMod(0, 10);
    LowMod(1, 10);
    Above(300);
    OrZero(0);
    OrZero(1);
  }

  lemma Above(p: nat)
    requires p == 300
    ensures Low(Shr(p, 8), 10) == 1 && Low(Shr(p, 18), 10) == 0 && Shr(0, 10) == 0
  {
    assert Shr(300, 8) == Shr(37, 5);
    assert Shr(37, 5) == 1;
    assert Shr(p, 8) == 1;
    hide Low, Pow2, Shr;
    Widths();
    LowMod(1, 10);
    LowIs(300, 18);
    LowIs(0, 10);
  }

  // ----- Sequence numbers -----

  function Wrap32(x: int): int {
    (x + 0x8000_0000) % 0x1_0000_0000 - 0x8000_0000
  }

  /** The RTP sequence numbers of one block's shards. */
  function BlockNumbers(lowseq: int, shards: nat): seq<nat> {
    seq(shards, x => (lowseq + x) % 65536)
  }

  /** The numbers of all shards of a session's blocks; `lowseq` is a 32-bit int that moves on after each block. */
  function SessionNumbers(lowseq: int, blocks: seq<nat>): seq<nat>
    decreases |blocks|
  {
    if blocks == [] then []
    else BlockNumbers(lowseq, blocks[0]) + SessionNumbers(Wrap32(lowseq + blocks[0]), blocks[1..])
  }

  function SumOf(blocks: seq<nat>): nat {
    if blocks == [] then 0 else blocks[0] + SumOf(blocks[1..])
  }

  /** The k-th shard of a session carries k modulo 2^16, across blocks and frames, for ever (section 5.1 of RFC 3550). */
  lemma {:induction false} SequenceNumbers(lowseq: int, blocks: seq<nat>, k: nat)
    requires k < SumOf(blocks)
    ensures |SessionNumbers(lowseq, blocks)| == SumOf(blocks)
    ensures SessionNumbers(lowseq, blocks)[k] == (lowseq + k) % 65536
    decreases |blocks|
  {
    var n, low := blocks[0], Wrap32(lowseq + blocks[0]);
    if k >= n {
      SequenceNumbers(low, blocks[1..], k - n);
      WrapKeepsWord(lowseq + n, k - n);
    } else if SumOf(blocks[1..]) > 0 {
      SequenceNumbers(low, blocks[1..], 0);
    } else {
      NoNumbers(low, blocks[1..]);
    }
  }

  lemma {:induction false} NoNumbers(lowseq: int, blocks: seq<nat>)
    requires SumOf(blocks) == 0
    ensures SessionNumbers(lowseq, blocks) == []
    decreases |blocks|
  {
    if blocks != [] {
      NoNumbers(Wrap32(lowseq + blocks[0]), blocks[1..]);
    }
  }

  lemma WrapKeepsWord(x: int, y: int)
    ensures (Wrap32(x) + y) % 65536 == (x + y) % 65536
  {
    var q := (x + 0x8000_0000) / 0x1_0000_0000;
    assert Wrap32(x) == x - q * 0x1_0000_0000;
    assert x + y == Wrap32(x) + y + (q * 65536) * 65536;
    AddWords(Wrap32(x) + y, q * 65536);
  }

  lemma AddWords(a: int, k: int)
    ensures (a + k * 65536) % 65536 == a % 65536
  {
  }
}
