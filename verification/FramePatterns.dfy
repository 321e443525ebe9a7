/** What the two measures of a frame say about simple pictures: one bright pixel, a mirrored and a transposed frame. */
module FramePatterns {
  import opened Rows
  import opened FrameHash

  // ----- positions

  lemma SameIndex(width: nat, x: nat, y: nat, a: nat, b: nat)
    requires x < width && a < width
    ensures RowStart(width, y) + x == RowStart(width, b) + a <==> x == a && y == b
  {
    if y < b {
      RowStartGrows(width, y + 1, b);
      NextRow(width, y);
      hide RowStart;
    } else if b < y {
      RowStartGrows(width, b + 1, y);
      NextRow(width, b);
      hide RowStart;
    }
  }

  function PixelAt(p: Pixels, width: nat, x: int, y: int): int { At(p, RowStart(width, y) + x) }

  /** A pixel minus each of its four neighbours. */
  lemma LaplacianIs(p: Pixels, width: nat, x: int, y: int)
    ensures Laplacian(p, width, x, y) ==
            (PixelAt(p, width, x, y) - PixelAt(p, width, x - 1, y))
            + (PixelAt(p, width, x, y) - PixelAt(p, width, x + 1, y))
            + (PixelAt(p, width, x, y) - PixelAt(p, width, x, y - 1))
            + (PixelAt(p, width, x, y) - PixelAt(p, width, x, y + 1))
  {
    NextRow(width, y - 1);
    NextRow(width, y);
    hide RowStart;
  }

  // ----- one bright pixel

  /** Pixel (a, b) has the value v and every other pixel is 0. */
  ghost predicate OneBright(p: Pixels, width: nat, height: nat, a: nat, b: nat, v: int) {
    && a < width && b < height && |p| == width * height
    && forall i :: 0 <= i < |p| ==> p[i] == if i == RowStart(width, b) + a then v else 0
  }

  lemma OneBrightAt(p: Pixels, width: nat, height: nat, a: nat, b: nat, v: int, x: nat, y: nat)
    requires OneBright(p, width, height, a, b, v) && x < width && y < height
    ensures PixelAt(p, width, x, y) == if x == a && y == b then v else 0
  {
    PixelIndex(width, height, x, y);
    SameIndex(width, x, y, a, b);
    hide RowStart;
  }

  /** A bright pixel scores four times its value, its four neighbours once, and no other pixel anything. */
  lemma BrightPixelScores(p: Pixels, width: nat, height: nat, a: nat, b: nat, v: int, x: nat, y: nat)
    requires OneBright(p, width, height, a, b, v) && 1 <= x < width - 1 && 1 <= y < height - 1
    ensures Laplacian(p, width, x, y) ==
            if x == a && y == b then 4 * v
            else if (x, y) in {(a - 1, b), (a + 1, b), (a, b - 1), (a, b + 1)} then -v
            else 0
  {
    LaplacianIs(p, width, x, y);
    OneBrightAt(p, width, height, a, b, v, x, y);
    OneBrightAt(p, width, height, a, b, v, x - 1, y);
    OneBrightAt(p, width, height, a, b, v, x + 1, y);
    OneBrightAt(p, width, height, a, b, v, x, y - 1);
    OneBrightAt(p, width, height, a, b, v, x, y + 1);
    hide OneBright, PixelAt, Laplacian;
  }

  lemma {:induction false} RowScoresCount(p: Pixels, width: nat, y: nat, n: nat)
    ensures |RowScores(p, width, y, n)| == n
  {
    if n > 0 {
      RowScoresCount(p, width, y, n - 1);
    }
  }

  lemma {:induction false} ScoresCount(p: Pixels, width: nat, rows: nat)
    ensures |Scores(p, width, rows)| == RowStart(Interior(width), rows)
  {
    assert RowStart(Interior(width), 0) == 0;
    if rows > 0 {
      NextRow(Interior(width), rows - 1);
      hide RowStart, Interior, RowScores;
      ScoresCount(p, width, rows - 1);
      RowScoresCount(p, width, rows, Interior(width));
    }
  }

  // ----- sums

  lemma {:induction false} SumAppend(a: seq<int>, b: seq<int>)
    ensures Sum(a + b) == Sum(a) + Sum(b)
  {
    if b == [] {
      assert a + b == a;
    } else {
      var n := |b| - 1;
      assert (a + b)[..|a + b| - 1] == a + b[..n];
      SumAppend(a, b[..n]);
    }
  }

  /** An average times the number of values is their sum; that of no values is 0. */
  lemma AverageIsMean(values: seq<int>)
    ensures RealAverage([]) == 0.0 && RealSum([]) == 0.0 && Sum([]) == 0
    ensures Average([]) == 0.0
    ensures Average(values) * |values| as real == Sum(values) as real
  {
  }

  lemma RealAverageIsMean(values: seq<real>)
    requires values != []
    ensures RealAverage(values) * |values| as real == RealSum(values)
  {
    hide RealSum;
  }

  lemma RealSumNext(values: seq<real>, next: real)
    ensures RealSum(values + [next]) == RealSum(values) + next
  {
    assert (values + [next])[..|values|] == values;
  }

  // ----- mirrored and transposed frames

  function Mirrored(p: Pixels, width: nat, height: nat): (q: Pixels)
    requires |p| == width * height
  {
    seq(|p|, i requires 0 <= i < |p| => At(p, Opposite(width, i)))
  }

  /** The index of the pixel on the other side of the same row. */
  function Opposite(width: nat, i: nat): int {
    if width == 0 then 0 else RowStart(width, i / width) + width - 1 - i % width
  }

  function Transposed(p: Pixels, width: nat, height: nat): (q: Pixels)
    requires |p| == width * height
  {
    seq(|p|, i requires 0 <= i < |p| => if height == 0 then 0 else PixelAt(p, width, i / height, i % height))
  }

  lemma QuotientOfIndex(width: nat, x: nat, y: nat)
    requires x < width
    ensures (RowStart(width, y) + x) / width == y && (RowStart(width, y) + x) % width == x
  {
    var i := RowStart(width, y) + x;
    assert i == RowStart(width, i / width) + i % width;
    SameIndex(width, x, y, i % width, i / width);
  }

  lemma MirroredAt(p: Pixels, width: nat, height: nat, x: nat, y: nat)
    requires |p| == width * height && x < width && y < height
    ensures PixelAt(Mirrored(p, width, height), width, x, y) == PixelAt(p, width, width - 1 - x, y)
  {
    PixelIndex(width, height, x, y);
    QuotientOfIndex(width, x, y);
    hide RowStart;
  }

  lemma TransposedAt(p: Pixels, width: nat, height: nat, x: nat, y: nat)
    requires |p| == width * height && x < height && y < width
    ensures PixelAt(Transposed(p, width, height), height, x, y) == PixelAt(p, width, y, x)
  {
    assert height * width == width * height;
    PixelIndex(height, width, x, y);
    QuotientOfIndex(height, x, y);
    hide RowStart;
  }

  lemma LaplacianMirrored(p: Pixels, width: nat, height: nat, x: nat, y: nat)
    requires |p| == width * height && 1 <= x < width - 1 && 1 <= y < height - 1
    ensures Laplacian(Mirrored(p, width, height), width, x, y) == Laplacian(p, width, width - 1 - x, y)
  {
    var q := Mirrored(p, width, height);
    LaplacianIs(q, width, x, y);
    LaplacianIs(p, width, width - 1 - x, y);
    MirroredAt(p, width, height, x, y);
    MirroredAt(p, width, height, x - 1, y);
    MirroredAt(p, width, height, x + 1, y);
    MirroredAt(p, width, height, x, y - 1);
    MirroredAt(p, width, height, x, y + 1);
    hide Laplacian, PixelAt, Mirrored;
  }

  lemma LaplacianTransposed(p: Pixels, width: nat, height: nat, x: nat, y: nat)
    requires |p| == width * height && 1 <= x < height - 1 && 1 <= y < width - 1
    ensures Laplacian(Transposed(p, width, height), height, x, y) == Laplacian(p, width, y, x)
  {
    var q := Transposed(p, width, height);
    LaplacianIs(q, height, x, y);
    LaplacianIs(p, width, y, x);
    TransposedAt(p, width, height, x, y);
    TransposedAt(p, width, height, x - 1, y);
    TransposedAt(p, width, height, x + 1, y);
    TransposedAt(p, width, height, x, y - 1);
    TransposedAt(p, width, height, x, y + 1);
    hide Laplacian, PixelAt, Transposed;
  }

  // ----- the sum of the scores, by rows or by columns

  function RowSum(p: Pixels, width: nat, y: nat, from: nat, n: nat): nat {
    if n == 0 then 0 else RowSum(p, width, y, from, n - 1) + Abs(Laplacian(p, width, from + n - 1, y))
  }

  function Total(p: Pixels, width: nat, columns: nat, rows: nat): nat {
    if rows == 0 then 0 else Total(p, width, columns, rows - 1) + RowSum(p, width, rows, 1, columns)
  }

  function ColumnSum(p: Pixels, width: nat, x: nat, rows: nat): nat {
    if rows == 0 then 0 else ColumnSum(p, width, x, rows - 1) + Abs(Laplacian(p, width, x, rows))
  }

  lemma {:induction false} SumOfRow(p: Pixels, width: nat, y: nat, n: nat)
    ensures Sum(RowScores(p, width, y, n)) == RowSum(p, width, y, 1, n)
  {
    hide Laplacian;
    if n > 0 {
      SumOfRow(p, width, y, n - 1);
      SumAppend(RowScores(p, width, y, n - 1), [Abs(Laplacian(p, width, n, y))]);
      assert Sum([Abs(Laplacian(p, width, n, y))]) == Abs(Laplacian(p, width, n, y)) + Sum([]);
    }
  }

  lemma {:induction false} SumOfScores(p: Pixels, width: nat, rows: nat)
    ensures Sum(Scores(p, width, rows)) == Total(p, width, Interior(width), rows)
  {
    hide Laplacian, RowScores, RowSum, Interior;
    if rows > 0 {
      SumOfScores(p, width, rows - 1);
      SumOfRow(p, width, rows, Interior(width));
      SumAppend(Scores(p, width, rows - 1), RowScores(p, width, rows, Interior(width)));
    }
  }

  lemma {:induction false} AddColumn(p: Pixels, width: nat, columns: nat, rows: nat)
    ensures Total(p, width, columns + 1, rows) ==
            Total(p, width, columns, rows) + ColumnSum(p, width, columns + 1, rows)
  {
    hide Laplacian;
    if rows > 0 {
      AddColumn(p, width, columns, rows - 1);
    }
  }

  lemma {:induction false} NoColumns(p: Pixels, width: nat, rows: nat)
    ensures Total(p, width, 0, rows) == 0
  {
    if rows > 0 {
      NoColumns(p, width, rows - 1);
    }
  }

  lemma {:induction false} ColumnTransposed(p: Pixels, width: nat, height: nat, x: nat, rows: nat)
    requires |p| == width * height && 1 <= x <= Interior(width) && rows <= Interior(height)
    ensures RowSum(Transposed(p, width, height), height, x, 1, rows) == ColumnSum(p, width, x, rows)
  {
    hide Laplacian, Transposed;
    if rows > 0 {
      ColumnTransposed(p, width, height, x, rows - 1);
      LaplacianTransposed(p, width, height, rows, x);
    }
  }

  lemma {:induction false} TotalTransposed(p: Pixels, width: nat, height: nat, columns: nat)
    requires |p| == width * height && columns <= Interior(width)
    ensures Total(Transposed(p, width, height), height, Interior(height), columns) ==
            Total(p, width, columns, Interior(height))
  {
    hide RowSum, ColumnSum, Transposed;
    if columns == 0 {
      NoColumns(p, width, Interior(height));
    } else {
      TotalTransposed(p, width, height, columns - 1);
      AddColumn(p, width, columns - 1, Interior(height));
      ColumnTransposed(p, width, height, columns, Interior(height));
    }
  }

  lemma {:induction false} RowSumSplit(p: Pixels, width: nat, y: nat, from: nat, n: nat)
    requires n > 0
    ensures RowSum(p, width, y, from, n) == Abs(Laplacian(p, width, from, y)) + RowSum(p, width, y, from + 1, n - 1)
  {
    hide Laplacian;
    if n > 1 {
      RowSumSplit(p, width, y, from, n - 1);
    }
  }

  lemma {:induction false} RowMirrored(p: Pixels, width: nat, height: nat, y: nat, n: nat)
    requires |p| == width * height && 1 <= y < height - 1 && n <= Interior(width)
    ensures RowSum(Mirrored(p, width, height), width, y, 1, n) == RowSum(p, width, y, Interior(width) - n + 1, n)
  {
    hide Laplacian, Mirrored;
    if n > 0 {
      RowMirrored(p, width, height, y, n - 1);
      RowSumSplit(p, width, y, Interior(width) - n + 1, n);
      LaplacianMirrored(p, width, height, n, y);
    }
  }

  lemma {:induction false} TotalMirrored(p: Pixels, width: nat, height: nat, rows: nat)
    requires |p| == width * height && rows <= Interior(height)
    ensures Total(Mirrored(p, width, height), width, Interior(width), rows) == Total(p, width, Interior(width), rows)
  {
    hide RowSum, Mirrored;
    if rows > 0 {
      TotalMirrored(p, width, height, rows - 1);
      RowMirrored(p, width, height, rows, Interior(width));
    }
  }

  lemma ScoreIsMean(p: Pixels, width: nat, height: nat)
    requires |p| == width * height
    ensures |Scores(p, width, Interior(height))| == Interior(width) * Interior(height)
    ensures Sum(Scores(p, width, Interior(height))) == Total(p, width, Interior(width), Interior(height))
  {
    ScoresCount(p, width, Interior(height));
    SumOfScores(p, width, Interior(height));
    assert RowStart(Interior(width), Interior(height)) == Interior(width) * Interior(height);
  }

  /** Sharpness does not depend on left and right, nor on which side is up: no neighbour is preferred. */
  lemma SharpnessIgnoresOrientation(p: Pixels, width: nat, height: nat)
    requires |p| == width * height
    ensures LaplacianScore(Mirrored(p, width, height), width, height) == LaplacianScore(p, width, height)
    ensures LaplacianScore(Transposed(p, width, height), height, width) == LaplacianScore(p, width, height)
  {
    var m, t := Mirrored(p, width, height), Transposed(p, width, height);
    assert height * width == width * height;
    assert Interior(width) * Interior(height) == Interior(height) * Interior(width);
    ScoreIsMean(p, width, height);
    ScoreIsMean(m, width, height);
    ScoreIsMean(t, height, width);
    TotalMirrored(p, width, height, Interior(height));
    TotalTransposed(p, width, height, Interior(width));
    hide Scores, Total, Mirrored, Transposed, Interior;
    SameAverage(Scores(p, width, Interior(height)), Scores(m, width, Interior(height)));
    SameAverage(Scores(p, width, Interior(height)), Scores(t, height, Interior(width)));
  }

  lemma SameAverage(a: seq<int>, b: seq<int>)
    requires |a| == |b| && Sum(a) == Sum(b)
    ensures Average(a) == Average(b)
  {
  }

  // ----- the score of one bright pixel

  /** How often its value is counted up to column n of its own row. */
  function InOwnRow(a: nat, n: nat): nat {
    if n + 1 < a then 0 else if n + 1 == a then 1 else if n == a then 5 else 6
  }

  lemma {:induction false} RowOfOne(p: Pixels, width: nat, height: nat, a: nat, b: nat, v: int, y: nat, n: nat)
    requires OneBright(p, width, height, a, b, v) && 2 <= a < width - 2
    requires 1 <= y < height - 1 && n <= Interior(width)
    ensures RowSum(p, width, y, 1, n) ==
            if y == b then InOwnRow(a, n) * Abs(v)
            else if (y == b - 1 || y == b + 1) && a <= n then Abs(v)
            else 0
  {
    hide Laplacian, OneBright;
    if n > 0 {
      RowOfOne(p, width, height, a, b, v, y, n - 1);
      BrightPixelScores(p, width, height, a, b, v, n, y);
    }
  }

  lemma {:induction false} TotalOfOne(p: Pixels, width: nat, height: nat, a: nat, b: nat, v: int, rows: nat)
    requires OneBright(p, width, height, a, b, v) && 2 <= a < width - 2 && 2 <= b < height - 2
    requires rows <= Interior(height)
    ensures Total(p, width, Interior(width), rows) ==
            if rows + 1 < b then 0
            else if rows + 1 == b then Abs(v)
            else if rows == b then 7 * Abs(v)
            else 8 * Abs(v)
  {
    hide RowSum, OneBright, Abs;
    if rows > 0 {
      TotalOfOne(p, width, height, a, b, v, rows - 1);
      RowOfOne(p, width, height, a, b, v, rows, Interior(width));
    }
  }

  lemma ScoresOfOne(p: Pixels, width: nat, height: nat, a: nat, b: nat, v: nat)
    requires OneBright(p, width, height, a, b, v) && 2 <= a < width - 2 && 2 <= b < height - 2
    ensures Sum(Scores(p, width, Interior(height))) == 8 * v
  {
    ScoreIsMean(p, width, height);
    TotalOfOne(p, width, height, a, b, v, Interior(height));
    hide OneBright, Scores, Total;
  }

  function InnerPixels(width: nat, height: nat): nat
    requires width >= 2 && height >= 2
  {
    (width - 2) * (height - 2)
  }

  lemma CountOfScores(p: Pixels, width: nat, height: nat, a: nat, b: nat, v: nat)
    requires OneBright(p, width, height, a, b, v) && width >= 2 && height >= 2
    ensures |Scores(p, width, Interior(height))| == InnerPixels(width, height)
  {
    ScoreIsMean(p, width, height);
  }

  lemma ScoreTimes(p: Pixels, width: nat, height: nat)
    ensures LaplacianScore(p, width, height) * |Scores(p, width, Interior(height))| as real ==
            Sum(Scores(p, width, Interior(height))) as real
  {
    AverageIsMean(Scores(p, width, Interior(height)));
    hide Average, Scores, Interior;
  }

  /** A single bright pixel away from the border counts eight times in the mean over the inner pixels. */
  lemma OneBrightPixelSharpness(p: Pixels, width: nat, height: nat, a: nat, b: nat, v: nat)
    requires OneBright(p, width, height, a, b, v) && 2 <= a < width - 2 && 2 <= b < height - 2
    ensures LaplacianScore(p, width, height) * InnerPixels(width, height) as real == (8 * v) as real
  {
    hide *;
    ScoresOfOne(p, width, height, a, b, v);
    CountOfScores(p, width, height, a, b, v);
    ScoreTimes(p, width, height);
  }

  // ----- the hash of one bright pixel

  lemma {:induction false} SegmentOfOne(p: Pixels, start: int, n: nat, at: int, v: int)
    requires forall i :: At(p, i) == if i == at then v else 0
    ensures Segment(p, start, n) == if start <= at < start + n then v else 0
  {
    if n > 0 {
      SegmentOfOne(p, start, n - 1, at, v);
    }
  }

  lemma {:induction false} RectangleOfOne(p: Pixels, width: nat, height: nat, a: nat, b: nat, v: int,
                                          x: nat, y: nat, length: nat, rows: nat)
    requires OneBright(p, width, height, a, b, v) && x + length <= width
    ensures Rectangle(p, width, x, y, length, rows) == if x <= a < x + length && y <= b < y + rows then v else 0
  {
    if rows > 0 {
      RectangleOfOne(p, width, height, a, b, v, x, y, length, rows - 1);
      OneBrightIndex(p, width, height, a, b, v);
      SegmentOfOne(p, RowStart(width, y + rows - 1) + x, length, RowStart(width, b) + a, v);
      InRow(width, a, b, x, y + rows - 1, length);
      hide OneBright, RowStart, Segment;
    }
  }

  lemma OneBrightIndex(p: Pixels, width: nat, height: nat, a: nat, b: nat, v: int)
    requires OneBright(p, width, height, a, b, v)
    ensures forall i :: At(p, i) == if i == RowStart(width, b) + a then v else 0
  {
    PixelIndex(width, height, a, b);
    hide RowStart;
  }

  lemma InRow(width: nat, a: nat, b: nat, x: nat, y: nat, length: nat)
    requires a < width && x + length <= width
    ensures var start := RowStart(width, y) + x;
            start <= RowStart(width, b) + a < start + length <==> y == b && x <= a < x + length
  {
    if y < b {
      RowStartGrows(width, y + 1, b);
      NextRow(width, y);
    } else if b < y {
      RowStartGrows(width, b + 1, y);
      NextRow(width, b);
    }
    hide RowStart;
  }

  lemma InBlock(side: nat, a: nat, k: nat)
    requires side >= 8
    ensures Edge(side, k) <= a < Edge(side, k) + side / 8 <==> k == a / (side / 8)
  {
    var size := side / 8;
    assert a == RowStart(size, a / size) + a % size;
    assert Edge(side, k) == RowStart(size, k);
    InRow(size, a % size, a / size, 0, k, size);
  }

  lemma BlockOfOne(p: Pixels, width: nat, height: nat, a: nat, b: nat, v: int, blockY: nat, blockX: nat)
    requires OneBright(p, width, height, a, b, v) && width >= 8 && height >= 8 && blockX < 8 && blockY < 8
    ensures BlockSum(p, width, height, blockY, blockX) ==
            if blockX == a / (width / 8) && blockY == b / (height / 8) then v else 0
  {
    EdgesFit(width, blockX);
    RectangleOfOne(p, width, height, a, b, v, Edge(width, blockX), Edge(height, blockY), width / 8, height / 8);
    InBlock(width, a, blockX);
    InBlock(height, b, blockY);
    hide OneBright, Edge, Rectangle;
  }

  lemma {:induction false} RowMeansAt(p: Pixels, width: nat, height: nat, blockY: nat, n: nat, blockX: nat)
    requires blockX < n
    ensures RowMeans(p, width, height, blockY, n)[blockX] == BlockMean(p, width, height, blockY, blockX)
    decreases n
  {
    if blockX < n - 1 {
      RowMeansAt(p, width, height, blockY, n - 1, blockX);
    }
  }

  /** The block means are listed row by row. */
  lemma {:induction false} BlockMeansAt(p: Pixels, width: nat, height: nat, n: nat, blockY: nat, blockX: nat)
    requires blockY < n && blockX < 8
    ensures BlockMeans(p, width, height, n)[8 * blockY + blockX] == BlockMean(p, width, height, blockY, blockX)
    decreases n
  {
    hide BlockMean, RowMeans;
    if blockY < n - 1 {
      BlockMeansAt(p, width, height, n - 1, blockY, blockX);
    } else {
      RowMeansAt(p, width, height, blockY, 8, blockX);
    }
  }

  /** Bit i of the number is bits[i]. */
  lemma {:induction false} BitIs(bits: seq<bool>, i: nat)
    requires i < |bits|
    ensures Pow2(i) > 0 && (FromBits(bits) / Pow2(i) % 2 == 1 <==> bits[i])
  {
    FromBitsSplit(bits);
    Pow2Positive(i);
    hide FromBits;
    Halves(FromBits(bits[1..]), bits[0]);
    if i > 0 {
      BitIs(bits[1..], i - 1);
      HalveFirst(FromBits(bits), Pow2(i - 1));
    }
  }

  lemma HalveFirst(n: nat, d: nat)
    requires d > 0
    ensures n / (2 * d) == n / 2 / d
  {
    var q, r := n / (2 * d), n % (2 * d);
    assert n == (2 * d) * q + r;
    assert (2 * d) * q == 2 * (d * q);
    assert n / 2 == d * q + r / 2;
    QuotientIs(n / 2, d, q, r / 2);
  }

  lemma QuotientIs(n: nat, d: nat, q: nat, r: nat)
    requires n == d * q + r && r < d
    ensures n / d == q
  {
    assert n == RowStart(d, n / d) + n % d;
    assert n == RowStart(d, q) + r;
    SameIndex(d, r, q, n % d, n / d);
  }

  /** Bit 8y + x of a frame's hash says whether block (x, y) is at least as bright as the whole frame. */
  lemma HashBitIs(p: Pixels, width: nat, height: nat, blockY: nat, blockX: nat)
    requires width % 8 == 0 && height % 8 == 0 && |p| == width * height && blockY < 8 && blockX < 8
    ensures Pow2(8 * blockY + blockX) > 0
    ensures AverageHash(p, width, height) / Pow2(8 * blockY + blockX) % 2 == 1 <==>
            BlockMean(p, width, height, blockY, blockX) >= Average(p)
  {
    var i := 8 * blockY + blockX;
    var blocks := BlockMeans(p, width, height, 8);
    BitIs(Brighter(blocks), i);
    BlockMeansAt(p, width, height, 8, blockY, blockX);
    ThresholdIsPixelMean(p, width, height);
    hide BlockMean, BlockMeans, Average, FromBits, Pow2;
  }

  /** A single bright pixel sets the bit of its own block and no other. */
  lemma OneBrightPixelHash(p: Pixels, width: nat, height: nat, a: nat, b: nat, v: int, blockY: nat, blockX: nat)
    requires width % 8 == 0 && height % 8 == 0 && OneBright(p, width, height, a, b, v) && v > 0
    requires blockY < 8 && blockX < 8
    ensures width / 8 > 0 && height / 8 > 0 && Pow2(8 * blockY + blockX) > 0
    ensures AverageHash(p, width, height) / Pow2(8 * blockY + blockX) % 2 == 1 <==>
            blockX == a / (width / 8) && blockY == b / (height / 8)
  {
    BlockOfOne(p, width, height, a, b, v, blockY, blockX);
    HashBitIs(p, width, height, blockY, blockX);
    SumOfOne(p, width, height, a, b, v);
    EightByEight(width, height);
    BlockBeatsFrame(v, |p|, BlockArea(width, height));
    hide AverageHash, BlockSum, Pow2;
  }

  lemma SumOfOne(p: Pixels, width: nat, height: nat, a: nat, b: nat, v: int)
    requires OneBright(p, width, height, a, b, v)
    ensures Sum(p) == v && |p| > 0
  {
    OneBrightIndex(p, width, height, a, b, v);
    PixelIndex(width, height, a, b);
    SegmentOfOne(p, 0, |p|, RowStart(width, b) + a, v);
    WholeSegment(p, |p|);
    assert p[..|p|] == p;
  }

  lemma BlockBeatsFrame(v: int, pixels: nat, area: nat)
    requires v > 0 && pixels == 64 * area && pixels > 0
    ensures Quotient(v, area) >= v as real / pixels as real > 0.0 == Quotient(0, area)
  {
    QuotientOfQuotient(v, area);
    assert Quotient(v, area) > 0.0;
  }
}
