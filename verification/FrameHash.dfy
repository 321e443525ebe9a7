/** Measuring a grey frame: the 8 by 8 average hash and its Hamming distance, and the Laplacian sharpness score.
    Averages are exact rationals. */
module FrameHash {
  import opened Rows

  type Pixels = seq<int>

  function Sum(values: seq<int>): int {
    if values == [] then 0 else Sum(values[..|values| - 1]) + values[|values| - 1]
  }

  function RealSum(values: seq<real>): real {
    if values == [] then 0.0 else RealSum(values[..|values| - 1]) + values[|values| - 1]
  }

  function Average(values: seq<int>): real {
    if values == [] then 0.0 else Sum(values) as real / |values| as real
  }

  function RealAverage(values: seq<real>): real {
    if values == [] then 0.0 else RealSum(values) / |values| as real
  }

  // ----- bits

  function Pow2(n: nat): nat {
    if n == 0 then 1 else 2 * Pow2(n - 1)
  }

  /** The integer whose bit i is bits[i]. */
  function FromBits(bits: seq<bool>): nat {
    if bits == [] then 0
    else FromBits(bits[..|bits| - 1]) + if bits[|bits| - 1] then Pow2(|bits| - 1) else 0
  }

  function Xor(a: nat, b: nat): nat
    decreases a + b
  {
    if a == 0 && b == 0 then 0
    else 2 * Xor(a / 2, b / 2) + if a % 2 == b % 2 then 0 else 1
  }

  function Or(a: nat, b: nat): nat
    decreases a + b
  {
    if a == 0 && b == 0 then 0
    else 2 * Or(a / 2, b / 2) + if a % 2 == 1 || b % 2 == 1 then 1 else 0
  }

  /** Or-ing in a bit above all others adds its value. */
  lemma {:induction false} OrHigherBit(a: nat, k: nat)
    requires a < Pow2(k)
    ensures Or(a, Pow2(k)) == a + Pow2(k)
  {
    if k == 0 {
      assert Or(0, 0) == 0;
    } else {
      assert Pow2(k) / 2 == Pow2(k - 1) && Pow2(k) % 2 == 0;
      assert a / 2 < Pow2(k - 1);
      OrHigherBit(a / 2, k - 1);
    }
  }

  function BitCount(n: nat): nat {
    if n == 0 then 0 else BitCount(n / 2) + n % 2
  }

  function HammingDistance(left: nat, right: nat): nat {
    BitCount(Xor(left, right))
  }

  lemma HammingStep(a: nat, b: nat)
    ensures HammingDistance(a, b) == HammingDistance(a / 2, b / 2) + if a % 2 == b % 2 then 0 else 1
  {
    if a != 0 || b != 0 {
      var rest := Xor(a / 2, b / 2);
      var bit := if a % 2 == b % 2 then 0 else 1;
      assert (2 * rest + bit) / 2 == rest && (2 * rest + bit) % 2 == bit;
    }
  }

  /** The distance two hashes are compared with is a metric. */
  lemma {:induction false} HammingIsMetric(a: nat, b: nat, c: nat)
    ensures HammingDistance(a, b) == 0 <==> a == b
    ensures HammingDistance(a, b) == HammingDistance(b, a)
    ensures HammingDistance(a, c) <= HammingDistance(a, b) + HammingDistance(b, c)
    decreases a + b + c
  {
    HammingStep(a, b);
    HammingStep(b, a);
    HammingStep(b, c);
    HammingStep(a, c);
    if a != 0 || b != 0 || c != 0 {
      hide HammingDistance;
      HammingIsMetric(a / 2, b / 2, c / 2);
    }
  }

  function Differences(a: seq<bool>, b: seq<bool>): nat
    requires |a| == |b|
  {
    if a == [] then 0
    else Differences(a[1..], b[1..]) + if a[0] == b[0] then 0 else 1
  }

  lemma {:induction false} FromBitsSplit(bits: seq<bool>)
    requires bits != []
    ensures FromBits(bits) == 2 * FromBits(bits[1..]) + if bits[0] then 1 else 0
  {
    var n := |bits| - 1;
    if n > 0 {
      FromBitsSplit(bits[..n]);
      assert bits[..n][1..] == bits[1..][..n - 1];
      assert bits[1..][n - 1] == bits[n];
    } else {
      assert bits[1..] == [] && bits[..0] == [];
      assert FromBits(bits[..0]) == 0 && Pow2(0) == 1;
    }
  }

  /** Between two hashes of the same length it counts the blocks on which they disagree. */
  lemma {:induction false} HammingCountsBlocks(a: seq<bool>, b: seq<bool>)
    requires |a| == |b|
    ensures HammingDistance(FromBits(a), FromBits(b)) == Differences(a, b) <= |a|
    decreases |a|
  {
    if a == [] {
      assert Xor(0, 0) == 0;
    } else {
      HammingCountsBlocks(a[1..], b[1..]);
      FromBitsSplit(a);
      FromBitsSplit(b);
      hide FromBits, HammingDistance;
      HammingStep(FromBits(a), FromBits(b));
      Halves(FromBits(a[1..]), a[0]);
      Halves(FromBits(b[1..]), b[0]);
    }
  }

  lemma Halves(n: nat, bit: bool)
    ensures (2 * n + if bit then 1 else 0) / 2 == n
    ensures (2 * n + if bit then 1 else 0) % 2 == if bit then 1 else 0
  {
  }

  lemma {:induction false} FromBitsRange(bits: seq<bool>)
    ensures FromBits(bits) < Pow2(|bits|)
    ensures FromBits(bits) > 0 <==> true in bits
  {
    if bits != [] {
      var n := |bits| - 1;
      FromBitsRange(bits[..n]);
      assert bits == bits[..n] + [bits[n]];
      Pow2Positive(n);
    }
  }

  lemma {:induction false} Pow2Positive(n: nat)
    ensures Pow2(n) > 0
  {
    if n > 0 {
      Pow2Positive(n - 1);
    }
  }

  // ----- blocks

  function At(p: Pixels, i: int): int {
    if 0 <= i < |p| then p[i] else 0
  }

  /** The k-th border between the eight blocks along a side. */
  function Edge(side: nat, k: nat): nat { k * (side / 8) }

  function BlockArea(width: nat, height: nat): nat { (width / 8) * (height / 8) }

  /** The sum of `n` pixels from `start` on. */
  function Segment(p: Pixels, start: int, n: nat): int {
    if n == 0 then 0 else Segment(p, start, n - 1) + At(p, start + n - 1)
  }

  /** The sum of the rectangle of `rows` rows and `length` columns whose corner is (x, y). */
  function Rectangle(p: Pixels, width: nat, x: nat, y: nat, length: nat, rows: nat): int {
    if rows == 0 then 0
    else Rectangle(p, width, x, y, length, rows - 1) + Segment(p, RowStart(width, y + rows - 1) + x, length)
  }

  function BlockSum(p: Pixels, width: nat, height: nat, blockY: nat, blockX: nat): int {
    Rectangle(p, width, Edge(width, blockX), Edge(height, blockY), width / 8, height / 8)
  }

  function Quotient(sum: int, n: nat): real {
    if n == 0 then 0.0 else sum as real / n as real
  }

  function BlockMean(p: Pixels, width: nat, height: nat, blockY: nat, blockX: nat): real {
    Quotient(BlockSum(p, width, height, blockY, blockX), BlockArea(width, height))
  }

  /** The means of the first `n` blocks of a block row. */
  function RowMeans(p: Pixels, width: nat, height: nat, blockY: nat, n: nat): (r: seq<real>)
    ensures |r| == n
  {
    if n == 0 then [] else RowMeans(p, width, height, blockY, n - 1) + [BlockMean(p, width, height, blockY, n - 1)]
  }

  /** Those of the first `n` block rows. */
  function BlockMeans(p: Pixels, width: nat, height: nat, n: nat): (r: seq<real>)
    ensures |r| == 8 * n
  {
    if n == 0 then [] else BlockMeans(p, width, height, n - 1) + RowMeans(p, width, height, n - 1, 8)
  }

  function Brighter(blocks: seq<real>): seq<bool> {
    seq(|blocks|, i requires 0 <= i < |blocks| => blocks[i] >= RealAverage(blocks))
  }

  /** Bit i of the hash says whether block i, counted row by row, is at least as bright as the average block. */
  function AverageHash(p: Pixels, width: nat, height: nat): nat {
    FromBits(Brighter(BlockMeans(p, width, height, 8)))
  }

  lemma NextEdge(side: nat, k: nat)
    ensures Edge(side, k + 1) == Edge(side, k) + side / 8
  {
  }

  lemma EdgesFit(side: nat, k: nat)
    requires k < 8
    ensures Edge(side, k) + side / 8 <= side
    ensures side % 8 == 0 ==> Edge(side, 8) == side
  {
  }

  /** A pixel of the frame has an index in the list. */
  lemma PixelIndex(width: nat, height: nat, x: nat, y: nat)
    requires x < width && y < height
    ensures 0 <= RowStart(width, y) + x < width * height
  {
    RowStartGrows(width, y + 1, height);
    NextRow(width, y);
    assert RowStart(width, height) == width * height;
    hide RowStart;
  }

  /** One row of a block appended to the values read so far. */
  method ReadRow(pixels: Pixels, width: nat, height: nat, y: nat, left: nat, length: nat, before: seq<int>)
      returns (values: seq<int>)
    requires |pixels| == width * height && y < height && left + length <= width
    ensures |values| == |before| + length
    ensures Sum(values) == Sum(before) + Segment(pixels, RowStart(width, y) + left, length)
  {
    values := before;
    var offset := y * width;
    assert offset == RowStart(width, y);
    hide RowStart;
    var x := left;
    while x < left + length
      invariant left <= x <= left + length
      invariant |values| == |before| + x - left
      invariant Sum(values) == Sum(before) + Segment(pixels, offset + left, x - left)
    {
      PixelIndex(width, height, x, y);
      ghost var sofar := values;
      values := values + [pixels[offset + x]];
      assert values[..|values| - 1] == sofar;
      x := x + 1;
    }
  }

  /** The pixels of one block, read row by row. */
  method ReadBlock(pixels: Pixels, width: nat, height: nat, blockY: nat, blockX: nat) returns (values: seq<int>)
    requires |pixels| == width * height && blockY < 8 && blockX < 8
    ensures |values| == BlockArea(width, height)
    ensures Sum(values) == BlockSum(pixels, width, height, blockY, blockX)
  {
    var blockWidth, blockHeight := width / 8, height / 8;
    var left, top := Edge(width, blockX), Edge(height, blockY);
    EdgesFit(width, blockX);
    EdgesFit(height, blockY);
    values := [];
    assert RowStart(blockWidth, 0) == 0;
    assert BlockArea(width, height) == RowStart(blockWidth, blockHeight);
    hide RowStart, Edge, BlockArea;
    for y := top to top + blockHeight
      invariant |values| == RowStart(blockWidth, y - top)
      invariant Sum(values) == Rectangle(pixels, width, left, top, blockWidth, y - top)
    {
      values := ReadRow(pixels, width, height, y, left, blockWidth, values);
      NextRow(blockWidth, y - top);
    }
  }

  method ComputeAverageHash(pixels: Pixels, width: nat, height: nat) returns (result: nat)
    requires |pixels| == width * height
    ensures result == AverageHash(pixels, width, height)
  {
    var blocks: seq<real> := [];
    for blockY := 0 to 8
      invariant blocks == BlockMeans(pixels, width, height, blockY)
    {
      ghost var before := blocks;
      for blockX := 0 to 8
        invariant blocks == before + RowMeans(pixels, width, height, blockY, blockX)
      {
        var values := ReadBlock(pixels, width, height, blockY, blockX);
        assert Average(values) == BlockMean(pixels, width, height, blockY, blockX) by {
          hide BlockSum, BlockArea;
        }
        blocks := blocks + [Average(values)];
      }
    }
    result := SetBits(blocks);
  }

  method SetBits(blocks: seq<real>) returns (result: nat)
    ensures result == FromBits(Brighter(blocks))
  {
    var threshold := RealAverage(blocks);
    result := 0;
    ghost var bits: seq<bool> := [];
    for index := 0 to |blocks|
      invariant bits == Brighter(blocks)[..index] && result == FromBits(bits)
    {
      ghost var before := bits;
      bits := bits + [blocks[index] >= threshold];
      assert bits[..|bits| - 1] == before;
      if blocks[index] >= threshold {
        FromBitsRange(before);
        OrHigherBit(result, index);
        result := Or(result, Pow2(index));
      }
    }
    assert Brighter(blocks)[..|blocks|] == Brighter(blocks);
  }

  // ----- the blocks partition the frame

  lemma {:induction false} SegmentSplit(p: Pixels, start: int, m: nat, n: nat)
    ensures Segment(p, start, m + n) == Segment(p, start, m) + Segment(p, start + m, n)
  {
    if n > 0 {
      SegmentSplit(p, start, m, n - 1);
    }
  }

  lemma {:induction false} RectanglesSideBySide(p: Pixels, width: nat, x: nat, y: nat, m: nat, n: nat, rows: nat)
    ensures Rectangle(p, width, x, y, m + n, rows) == Rectangle(p, width, x, y, m, rows)
            + Rectangle(p, width, x + m, y, n, rows)
  {
    hide RowStart;
    if rows > 0 {
      RectanglesSideBySide(p, width, x, y, m, n, rows - 1);
      SegmentSplit(p, RowStart(width, y + rows - 1) + x, m, n);
    }
  }

  lemma {:induction false} FullRowsAreASegment(p: Pixels, width: nat, y: nat, rows: nat)
    ensures RowStart(width, rows) >= 0
    ensures Rectangle(p, width, 0, y, width, rows) == Segment(p, RowStart(width, y), RowStart(width, rows))
  {
    RowStartAdds(width, y, rows);
    RowStartAdds(width, rows, 0);
    hide RowStart;
    if rows > 0 {
      FullRowsAreASegment(p, width, y, rows - 1);
      NextRow(width, rows - 1);
      RowStartAdds(width, y, rows - 1);
      SegmentSplit(p, RowStart(width, y), RowStart(width, rows - 1), width);
    }
  }

  lemma {:induction false} WholeSegment(p: Pixels, n: nat)
    requires n <= |p|
    ensures Segment(p, 0, n) == Sum(p[..n])
  {
    if n > 0 {
      WholeSegment(p, n - 1);
      assert p[..n][..n - 1] == p[..n - 1];
    }
  }

  function RowTotal(p: Pixels, width: nat, height: nat, blockY: nat, n: nat): int {
    if n == 0 then 0 else RowTotal(p, width, height, blockY, n - 1) + BlockSum(p, width, height, blockY, n - 1)
  }

  /** The sum of all blocks of the first `n` block rows. */
  function BlockTotal(p: Pixels, width: nat, height: nat, n: nat): int {
    if n == 0 then 0 else BlockTotal(p, width, height, n - 1) + RowTotal(p, width, height, n - 1, 8)
  }

  lemma {:induction false} EmptyRectangle(p: Pixels, width: nat, y: nat, rows: nat)
    ensures Rectangle(p, width, 0, y, 0, rows) == 0
  {
    if rows > 0 {
      EmptyRectangle(p, width, y, rows - 1);
    }
  }

  /** The first `k` blocks of a block row cover its first k block columns. */
  lemma {:induction false} BlockRow(p: Pixels, width: nat, height: nat, blockY: nat, k: nat)
    ensures RowTotal(p, width, height, blockY, k) ==
            Rectangle(p, width, 0, Edge(height, blockY), Edge(width, k), height / 8)
  {
    assert Edge(width, 0) == 0;
    if k > 0 {
      NextEdge(width, k - 1);
    }
    hide Edge, RowStart;
    if k == 0 {
      EmptyRectangle(p, width, Edge(height, blockY), height / 8);
    } else {
      BlockRow(p, width, height, blockY, k - 1);
      RectanglesSideBySide(p, width, 0, Edge(height, blockY), Edge(width, k - 1), width / 8, height / 8);
    }
  }

  lemma {:induction false} BlockRows(p: Pixels, width: nat, height: nat, n: nat)
    requires width % 8 == 0
    ensures RowStart(width, Edge(height, n)) >= 0
    ensures BlockTotal(p, width, height, n) == Segment(p, 0, RowStart(width, Edge(height, n)))
  {
    EdgesFit(width, 0);
    assert Edge(height, 0) == 0;
    RowStartAdds(width, Edge(height, n), 0);
    if n > 0 {
      NextEdge(height, n - 1);
      hide Edge, RowStart;
      BlockRows(p, width, height, n - 1);
      BlockRow(p, width, height, n - 1, 8);
      FullRowsAreASegment(p, width, Edge(height, n - 1), height / 8);
      RowStartAdds(width, Edge(height, n - 1), height / 8);
      SegmentSplit(p, 0, RowStart(width, Edge(height, n - 1)), RowStart(width, height / 8));
    }
  }

  /** On sides divisible by 8 the 64 blocks contain every pixel exactly once. */
  lemma BlocksPartitionPixels(p: Pixels, width: nat, height: nat)
    requires width % 8 == 0 && height % 8 == 0 && |p| == width * height
    ensures BlockTotal(p, width, height, 8) == Sum(p)
  {
    BlockRows(p, width, height, 8);
    EdgesFit(height, 0);
    assert RowStart(width, height) == width * height;
    hide RowStart, Edge;
    WholeSegment(p, |p|);
    assert p[..|p|] == p;
  }

  lemma AddQuotients(a: int, b: int, n: nat)
    ensures Quotient(a, n) + Quotient(b, n) == Quotient(a + b, n)
  {
  }

  lemma {:induction false} RealSumAppend(a: seq<real>, b: seq<real>)
    ensures RealSum(a + b) == RealSum(a) + RealSum(b)
  {
    if b == [] {
      assert a + b == a;
    } else {
      assert (a + b)[..|a + b| - 1] == a + b[..|b| - 1];
      RealSumAppend(a, b[..|b| - 1]);
    }
  }

  lemma {:induction false} SumOfRowMeans(p: Pixels, width: nat, height: nat, blockY: nat, n: nat)
    ensures RealSum(RowMeans(p, width, height, blockY, n)) ==
            Quotient(RowTotal(p, width, height, blockY, n), BlockArea(width, height))
  {
    hide Quotient, BlockArea, BlockSum;
    if n > 0 {
      SumOfRowMeans(p, width, height, blockY, n - 1);
      var mean := [BlockMean(p, width, height, blockY, n - 1)];
      RealSumAppend(RowMeans(p, width, height, blockY, n - 1), mean);
      assert mean[..0] == [] && RealSum(mean) == mean[0];
      AddQuotients(RowTotal(p, width, height, blockY, n - 1), BlockSum(p, width, height, blockY, n - 1),
        BlockArea(width, height));
    } else {
      NoPixels(BlockArea(width, height));
    }
  }

  lemma NoPixels(n: nat)
    ensures Quotient(0, n) == 0.0
  {
  }

  lemma {:induction false} SumOfMeans(p: Pixels, width: nat, height: nat, n: nat)
    ensures RealSum(BlockMeans(p, width, height, n)) ==
            Quotient(BlockTotal(p, width, height, n), BlockArea(width, height))
  {
    hide Quotient, BlockArea, RowMeans, RowTotal;
    if n > 0 {
      SumOfMeans(p, width, height, n - 1);
      SumOfRowMeans(p, width, height, n - 1, 8);
      RealSumAppend(BlockMeans(p, width, height, n - 1), RowMeans(p, width, height, n - 1, 8));
      AddQuotients(BlockTotal(p, width, height, n - 1), RowTotal(p, width, height, n - 1, 8), BlockArea(width, height));
    } else {
      NoPixels(BlockArea(width, height));
    }
  }

  lemma QuotientOfQuotient(sum: int, n: nat)
    ensures Quotient(sum, n) / 64.0 == Quotient(sum, 64 * n)
  {
    if n > 0 {
      var q := sum as real / n as real;
      assert q * n as real == sum as real;
      assert (q / 64.0) * (64 * n) as real == sum as real;
    }
  }

  lemma EightByEight(width: nat, height: nat)
    requires width % 8 == 0 && height % 8 == 0
    ensures width * height == 64 * BlockArea(width, height)
  {
    var a, b := width / 8, height / 8;
    assert width == 8 * a && height == 8 * b;
    assert (8 * a) * (8 * b) == 64 * (a * b);
  }

  /** The threshold of the hash, the mean of the block means, is the mean of the pixels. */
  lemma ThresholdIsPixelMean(p: Pixels, width: nat, height: nat)
    requires width % 8 == 0 && height % 8 == 0 && |p| == width * height
    ensures RealAverage(BlockMeans(p, width, height, 8)) == Average(p)
  {
    EightByEight(width, height);
    BlocksPartitionPixels(p, width, height);
    SumOfMeans(p, width, height, 8);
    QuotientOfQuotient(Sum(p), BlockArea(width, height));
    assert Average(p) == Quotient(Sum(p), |p|);
    hide BlockMeans, BlockArea, Quotient;
  }

  // ----- range and invariance of the hash

  lemma {:induction false} AllBelowSumBelow(values: seq<real>, bound: real)
    requires values != [] && forall v <- values :: v < bound
    ensures RealSum(values) < |values| as real * bound
  {
    var n := |values| - 1;
    assert values[n] in values;
    if n > 0 {
      assert forall v <- values[..n] :: v in values;
      AllBelowSumBelow(values[..n], bound);
      assert n as real * bound + bound == |values| as real * bound;
    } else {
      assert values[..0] == [];
    }
  }

  lemma SomeBlockIsBright(blocks: seq<real>)
    requires blocks != []
    ensures true in Brighter(blocks)
  {
    var mean := RealAverage(blocks);
    MeanTimesCount(RealSum(blocks), |blocks|);
    if i :| 0 <= i < |blocks| && blocks[i] >= mean {
      assert Brighter(blocks)[i];
    } else {
      AllBelowSumBelow(blocks, mean);
      assert false;
    }
  }

  lemma MeanTimesCount(sum: real, n: nat)
    requires n > 0
    ensures n as real * (sum / n as real) == sum
  {
  }

  /** A hash has 64 bits and is never zero: some block is at least average. */
  lemma HashRange(p: Pixels, width: nat, height: nat)
    ensures 0 < AverageHash(p, width, height) < Pow2(64)
  {
    var blocks := BlockMeans(p, width, height, 8);
    SomeBlockIsBright(blocks);
    assert |Brighter(blocks)| == 64;
    hide Pow2, Brighter, BlockMeans, FromBits;
    FromBitsRange(Brighter(blocks));
  }

  function Brightened(p: Pixels, c: int): Pixels {
    seq(|p|, i requires 0 <= i < |p| => p[i] + c)
  }

  /** What `n` pixels gain together. */
  function Gain(c: int, n: nat): int { n * c }

  lemma NextGain(c: int, n: nat)
    ensures Gain(c, n + 1) == Gain(c, n) + c && Gain(c, 0) == 0
  {
  }

  lemma {:induction false} SegmentShift(p: Pixels, c: int, start: int, n: nat)
    requires 0 <= start && start + n <= |p|
    ensures Segment(Brightened(p, c), start, n) == Segment(p, start, n) + Gain(c, n)
  {
    if n > 0 {
      SegmentShift(p, c, start, n - 1);
      NextGain(c, n - 1);
      assert At(Brightened(p, c), start + n - 1) == At(p, start + n - 1) + c;
      hide Gain;
    }
  }

  lemma {:induction false} RectangleShift(p: Pixels, c: int, width: nat, height: nat, x: nat, y: nat, length: nat,
      rows: nat)
    requires |p| == width * height && x + length <= width && y + rows <= height
    ensures Rectangle(Brightened(p, c), width, x, y, length, rows) ==
            Rectangle(p, width, x, y, length, rows) + Gain(Gain(c, length), rows)
  {
    if rows > 0 {
      RowInFrame(width, height, y + rows - 1);
      NextGain(Gain(c, length), rows - 1);
      hide RowStart, Gain;
      RectangleShift(p, c, width, height, x, y, length, rows - 1);
      SegmentShift(p, c, RowStart(width, y + rows - 1) + x, length);
    }
  }

  lemma RowInFrame(width: nat, height: nat, y: nat)
    requires y < height
    ensures 0 <= RowStart(width, y) && RowStart(width, y) + width <= width * height
  {
    RowStartGrows(width, y + 1, height);
    NextRow(width, y);
    RowStartGrows(width, 0, y);
    assert RowStart(width, height) == width * height;
    hide RowStart;
  }

  lemma QuotientShift(sum: int, c: int, width: nat, height: nat)
    requires BlockArea(width, height) > 0
    ensures Quotient(sum + Gain(Gain(c, width / 8), height / 8), BlockArea(width, height)) ==
            Quotient(sum, BlockArea(width, height)) + c as real
  {
    var n := BlockArea(width, height);
    assert Gain(Gain(c, width / 8), height / 8) == c * n;
    hide Gain, BlockArea;
    assert (c * n) as real == c as real * n as real;
    var q := sum as real / n as real;
    assert (q + c as real) * n as real == (sum + c * n) as real;
  }

  lemma BlockMeanShift(p: Pixels, c: int, width: nat, height: nat, blockY: nat, blockX: nat)
    requires |p| == width * height && blockY < 8 && blockX < 8 && BlockArea(width, height) > 0
    ensures BlockMean(Brightened(p, c), width, height, blockY, blockX) == BlockMean(p, width, height, blockY, blockX)
            + c as real
  {
    EdgesFit(width, blockX);
    EdgesFit(height, blockY);
    hide RowStart, Gain, Edge, BlockArea, Quotient;
    RectangleShift(p, c, width, height, Edge(width, blockX), Edge(height, blockY), width / 8, height / 8);
    QuotientShift(BlockSum(p, width, height, blockY, blockX), c, width, height);
  }

  ghost predicate ShiftedBy(a: seq<real>, b: seq<real>, c: real) {
    |a| == |b| && forall i :: 0 <= i < |a| ==> b[i] == a[i] + c
  }

  lemma {:induction false} RowMeansShift(p: Pixels, c: int, width: nat, height: nat, blockY: nat, n: nat)
    requires |p| == width * height && blockY < 8 && n <= 8 && BlockArea(width, height) > 0
    ensures ShiftedBy(RowMeans(p, width, height, blockY, n), RowMeans(Brightened(p, c), width, height, blockY, n),
            c as real)
  {
    hide BlockArea, BlockMean, Brightened;
    if n > 0 {
      RowMeansShift(p, c, width, height, blockY, n - 1);
      BlockMeanShift(p, c, width, height, blockY, n - 1);
    }
  }

  lemma {:induction false} BlockMeansShift(p: Pixels, c: int, width: nat, height: nat, n: nat)
    requires |p| == width * height && n <= 8 && BlockArea(width, height) > 0
    ensures ShiftedBy(BlockMeans(p, width, height, n), BlockMeans(Brightened(p, c), width, height, n), c as real)
  {
    hide BlockArea, RowMeans, Brightened;
    if n > 0 {
      BlockMeansShift(p, c, width, height, n - 1);
      RowMeansShift(p, c, width, height, n - 1, 8);
    }
  }

  lemma {:induction false} RealSumShift(a: seq<real>, b: seq<real>, c: real)
    requires ShiftedBy(a, b, c)
    ensures RealSum(b) == RealSum(a) + |a| as real * c
  {
    if a != [] {
      RealSumShift(a[..|a| - 1], b[..|b| - 1], c);
      assert (|a| - 1) as real * c + c == |a| as real * c;
    }
  }

  lemma MeanShift(sum: real, c: real, n: nat)
    requires n > 0
    ensures (sum + n as real * c) / n as real == sum / n as real + c
  {
    var q := sum / n as real;
    assert (q + c) * n as real == sum + n as real * c;
  }

  lemma BrighterShift(a: seq<real>, b: seq<real>, c: real)
    requires a != [] && ShiftedBy(a, b, c)
    ensures Brighter(a) == Brighter(b)
  {
    RealSumShift(a, b, c);
    MeanShift(RealSum(a), c, |a|);
    var mean := RealAverage(a);
    assert b != [] && RealSum(b) / |b| as real == RealSum(a) / |a| as real + c;
    assert RealAverage(b) == mean + c;
    hide RealAverage, RealSum;
  }

  lemma {:induction false} FlatMeans(p: Pixels, q: Pixels, width: nat, height: nat, n: nat)
    requires BlockArea(width, height) == 0
    ensures BlockMeans(p, width, height, n) == BlockMeans(q, width, height, n)
  {
    if n > 0 {
      FlatMeans(p, q, width, height, n - 1);
      FlatRow(p, q, width, height, n - 1, 8);
      hide RowMeans;
    }
  }

  lemma {:induction false} FlatRow(p: Pixels, q: Pixels, width: nat, height: nat, blockY: nat, n: nat)
    requires BlockArea(width, height) == 0
    ensures RowMeans(p, width, height, blockY, n) == RowMeans(q, width, height, blockY, n)
  {
    hide BlockArea, BlockSum;
    if n > 0 {
      FlatRow(p, q, width, height, blockY, n - 1);
    }
  }

  /** Brightening or darkening every pixel by the same amount leaves the hash alone. */
  lemma HashIgnoresBrightness(p: Pixels, c: int, width: nat, height: nat)
    requires |p| == width * height
    ensures AverageHash(Brightened(p, c), width, height) == AverageHash(p, width, height)
  {
    var a, b := BlockMeans(p, width, height, 8), BlockMeans(Brightened(p, c), width, height, 8);
    hide BlockMeans, Brighter, BlockArea, Brightened;
    if BlockArea(width, height) > 0 {
      BlockMeansShift(p, c, width, height, 8);
      BrighterShift(a, b, c as real);
    } else {
      FlatMeans(p, Brightened(p, c), width, height, 8);
    }
  }

  // ----- sharpness

  function Abs(n: int): nat { if n < 0 then -n else n }

  function Laplacian(p: Pixels, width: nat, x: int, y: int): int {
    var i := RowStart(width, y) + x;
    4 * At(p, i) - At(p, i - 1) - At(p, i + 1) - At(p, i - width) - At(p, i + width)
  }

  /** The magnitudes of the first `n` interior pixels of row y. */
  function RowScores(p: Pixels, width: nat, y: int, n: nat): seq<int> {
    if n == 0 then [] else RowScores(p, width, y, n - 1) + [Abs(Laplacian(p, width, n, y))]
  }

  function Interior(side: nat): nat { if side < 2 then 0 else side - 2 }

  /** Those of the first `rows` interior rows. */
  function Scores(p: Pixels, width: nat, rows: nat): seq<int> {
    if rows == 0 then [] else Scores(p, width, rows - 1) + RowScores(p, width, rows, Interior(width))
  }

  function LaplacianScore(p: Pixels, width: nat, height: nat): real {
    Average(Scores(p, width, Interior(height)))
  }

  lemma InteriorInRange(width: nat, height: nat, x: nat, y: nat)
    requires 1 <= x < width - 1 && 1 <= y < height - 1
    ensures var i := RowStart(width, y) + x;
            && 0 <= i - width && i + width < width * height && 0 <= i - 1 && i + 1 < width * height
  {
    PixelIndex(width, height, x, y - 1);
    PixelIndex(width, height, x, y + 1);
    NextRow(width, y - 1);
    NextRow(width, y);
    hide RowStart;
  }

  method ScoreRow(pixels: Pixels, width: nat, height: nat, y: nat, before: seq<int>) returns (scores: seq<int>)
    requires |pixels| == width * height && 1 <= y < height - 1
    ensures scores == before + RowScores(pixels, width, y, Interior(width))
  {
    scores := before;
    var row := y * width;
    assert row == RowStart(width, y);
    hide RowStart;
    var x := 1;
    while x < width - 1
      invariant 1 <= x <= Interior(width) + 1
      invariant scores == before + RowScores(pixels, width, y, x - 1)
    {
      var index := row + x;
      InteriorInRange(width, height, x, y);
      var laplacian := 4 * pixels[index]
        - pixels[index - 1] - pixels[index + 1] - pixels[index - width] - pixels[index + width];
      scores := scores + [Abs(laplacian)];
      x := x + 1;
    }
  }

  method ComputeLaplacianScore(pixels: Pixels, width: nat, height: nat) returns (score: real)
    requires |pixels| == width * height
    ensures score == LaplacianScore(pixels, width, height)
  {
    var scores: seq<int> := [];
    var y := 1;
    while y < height - 1
      invariant 1 <= y <= Interior(height) + 1
      invariant scores == Scores(pixels, width, y - 1)
    {
      scores := ScoreRow(pixels, width, height, y, scores);
      y := y + 1;
    }
    score := Average(scores);
  }

  lemma {:induction false} RowScoresShift(p: Pixels, c: int, width: nat, height: nat, y: nat, n: nat)
    requires |p| == width * height && 1 <= y < height - 1 && n <= Interior(width)
    ensures RowScores(Brightened(p, c), width, y, n) == RowScores(p, width, y, n)
  {
    if n > 0 {
      RowScoresShift(p, c, width, height, y, n - 1);
      InteriorInRange(width, height, n, y);
      hide RowStart;
    }
  }

  lemma {:induction false} ScoresShift(p: Pixels, c: int, width: nat, height: nat, rows: nat)
    requires |p| == width * height && rows <= Interior(height)
    ensures Scores(Brightened(p, c), width, rows) == Scores(p, width, rows)
  {
    hide Brightened, RowScores;
    if rows > 0 {
      ScoresShift(p, c, width, height, rows - 1);
      RowScoresShift(p, c, width, height, rows, Interior(width));
    }
  }

  /** Sharpness, too, ignores the overall brightness. */
  lemma SharpnessIgnoresBrightness(p: Pixels, c: int, width: nat, height: nat)
    requires |p| == width * height
    ensures LaplacianScore(Brightened(p, c), width, height) == LaplacianScore(p, width, height)
  {
    ScoresShift(p, c, width, height, Interior(height));
  }

  ghost predicate Grey(p: Pixels) {
    forall v <- p :: 0 <= v <= 255
  }

  lemma {:induction false} BoundedSum(values: seq<int>, bound: nat)
    requires forall v <- values :: 0 <= v <= bound
    ensures 0 <= Sum(values) <= bound * |values|
  {
    if values != [] {
      var n := |values| - 1;
      assert values[n] in values;
      forall v <- values[..n] ensures 0 <= v <= bound {
        assert v in values;
      }
      BoundedSum(values[..n], bound);
      assert bound * n + bound == bound * |values|;
    }
  }

  lemma {:induction false} RowScoresBounded(p: Pixels, width: nat, y: int, n: nat)
    requires Grey(p)
    ensures forall v <- RowScores(p, width, y, n) :: 0 <= v <= 1020
  {
    if n > 0 {
      RowScoresBounded(p, width, y, n - 1);
      var i := RowStart(width, y) + n;
      hide RowStart;
      GreyAt(p, i);
      GreyAt(p, i - 1);
      GreyAt(p, i + 1);
      GreyAt(p, i - width);
      GreyAt(p, i + width);
    }
  }

  lemma GreyAt(p: Pixels, i: int)
    requires Grey(p)
    ensures 0 <= At(p, i) <= 255
  {
    if 0 <= i < |p| {
      assert p[i] in p;
    }
  }

  lemma {:induction false} ScoresBounded(p: Pixels, width: nat, rows: nat)
    requires Grey(p)
    ensures forall v <- Scores(p, width, rows) :: 0 <= v <= 1020
  {
    if rows > 0 {
      ScoresBounded(p, width, rows - 1);
      RowScoresBounded(p, width, rows, Interior(width));
    }
  }

  /** On grey pixels the score lies between 0 and 4 * 255. */
  lemma SharpnessRange(p: Pixels, width: nat, height: nat)
    requires Grey(p)
    ensures 0.0 <= LaplacianScore(p, width, height) <= 1020.0
  {
    var scores := Scores(p, width, Interior(height));
    ScoresBounded(p, width, Interior(height));
    BoundedSum(scores, 1020);
    if scores != [] {
      QuotientRange(Sum(scores), |scores|, 1020);
    }
  }

  lemma QuotientRange(s: int, n: nat, bound: nat)
    requires 0 <= s <= bound * n && n > 0
    ensures 0.0 <= s as real / n as real <= bound as real
  {
    var q := s as real / n as real;
    assert q * n as real == s as real;
    assert bound as real * n as real == (bound * n) as real;
    if q > bound as real {
      RealMulGrows(bound as real, q, n as real);
      assert false;
    }
  }

  lemma RealMulGrows(a: real, b: real, n: real)
    requires a < b && n > 0.0
    ensures a * n < b * n
  {
  }
}
