/** The avatar thumbnail: the centred square of an image, area-sampled to size x size pixels. */
module Thumbnail {
  import opened Bytes

  const BUDGET := 16_000_000
  const WORD := 0x1_0000_0000

  datatype Image = Image(width: int, height: int, rgb: bytes)

  /** What the decoder lets through. */
  predicate Decoded(image: Image) {
    image.width > 0 && image.height > 0 && image.width * image.height <= BUDGET && |image.rgb| == image.width * image.height * 3
  }

  function Side(image: Image): int {
    if image.width < image.height then image.width else image.height
  }

  function Left(image: Image): int {
    (image.width - Side(image)) / 2
  }

  function Top(image: Image): int {
    (image.height - Side(image)) / 2
  }

  /** Where output pixel `i` starts: unsigned 32-bit arithmetic, as the code has it. */
  function Start(offset: int, side: int, size: int, i: int): int
    requires size > 0
  {
    offset + i * side % WORD / size
  }

  function End(offset: int, side: int, size: int, i: int): int
    requires size > 0
  {
    var end := Start(offset, side, size, i + 1);
    if end > Start(offset, side, size, i) + 1 then end else Start(offset, side, size, i) + 1
  }

  /** The product that must not wrap around. */
  predicate Fits(side: int, size: int) {
    side > 0 && size > 0 && size * side < WORD
  }

  lemma AtLeast(n: int, d: int)
    requires n > 0
    ensures d >= 1 ==> n * d >= n
    ensures d <= -1 ==> n * d <= -n
  {
  }

  lemma DivUnique(a: int, n: int, q: int)
    requires n > 0 && n * q <= a < n * q + n
    ensures a / n == q
  {
    var p := a / n;
    AtLeast(n, p - q);
    assert n * (p - q) == n * p - n * q;
  }

  lemma DivBounds(a: int, b: int, n: int)
    requires n > 0 && 0 <= a <= b
    ensures 0 <= a / n <= b / n
  {
    QuotientsOrdered(n, 0, 0, a / n, a % n);
    QuotientsOrdered(n, a / n, a % n, b / n, b % n);
  }

  lemma QuotientsOrdered(n: int, q: int, r: int, p: int, t: int)
    requires n > 0 && 0 <= r && t < n && n * q + r <= n * p + t
    ensures q <= p
  {
    AtLeast(n, q - p);
    assert n * (q - p) == n * q - n * p;
  }

  lemma Exact(side: int, size: int, i: int)
    requires Fits(side, size) && 0 <= i <= size
    ensures 0 <= i * side < WORD && i * side % WORD == i * side && i * side <= size * side
  {
    assert i * side <= size * side;
  }

  lemma FullDiv(side: int, size: int)
    requires size > 0
    ensures size * side / size == side
  {
    DivUnique(size * side, size, side);
  }

  /** Consecutive starts: never backwards, from 0 to the whole side. */
  lemma StartsRise(offset: int, side: int, size: int, i: int)
    requires Fits(side, size) && 0 <= i < size
    ensures offset <= Start(offset, side, size, i) <= Start(offset, side, size, i + 1) <= offset + side
    ensures Start(offset, side, size, i) < offset + side
    ensures Start(offset, side, size, 0) == offset && Start(offset, side, size, size) == offset + side
  {
    Exact(side, size, i);
    Exact(side, size, i + 1);
    Exact(side, size, size);
    FullDiv(side, size);
    assert (i + 1) * side == i * side + side;
    DivBounds(i * side, (i + 1) * side, size);
    DivBounds((i + 1) * side, size * side, size);
    BelowSide(side, size, i);
  }

  lemma BelowSide(side: int, size: int, i: int)
    requires Fits(side, size) && 0 <= i < size
    ensures i * side / size < side
  {
    var q := i * side / size;
    AtLeast(side, size - i);
    AtLeast(size, q - side + 1);
    assert side * (size - i) == size * side - i * side;
    assert size * (q - side + 1) == size * q - size * side + size;
  }

  /** Every block is non-empty and inside the square. */
  lemma BlockInside(offset: int, side: int, size: int, i: int)
    requires Fits(side, size) && 0 <= i < size
    ensures offset <= Start(offset, side, size, i) < End(offset, side, size, i) <= offset + side
  {
    StartsRise(offset, side, size, i);
  }

  /** When the square has at least one source pixel per output pixel, each block ends where the
      next begins: the blocks tile the square. */
  lemma BlocksAdjoin(offset: int, side: int, size: int, i: int)
    requires Fits(side, size) && 0 <= i < size <= side
    ensures End(offset, side, size, i) == Start(offset, side, size, i + 1)
  {
    Exact(side, size, i);
    Exact(side, size, i + 1);
    var q := i * side / size;
    assert (i + 1) * side == i * side + side;
    assert size * (q + 1) == size * q + size <= (i + 1) * side;
    DivBounds(size * (q + 1), (i + 1) * side, size);
    FullDiv(q + 1, size);
  }

  /** When there are fewer, every block is one pixel: the nearest one is repeated. */
  lemma BlocksAreSinglePixels(offset: int, side: int, size: int, i: int)
    requires Fits(side, size) && 0 <= i < size && side <= size
    ensures End(offset, side, size, i) == Start(offset, side, size, i) + 1
  {
    Exact(side, size, i);
    Exact(side, size, i + 1);
    var q := i * side / size;
    assert (i + 1) * side == i * side + side;
    assert size * (q + 1) == size * q + size;
    assert size * (q + 2) == size * q + 2 * size;
    DivBounds((i + 1) * side, size * (q + 2) - 1, size);
    DivUnique(size * (q + 2) - 1, size, q + 1);
  }

  predicate Covers(offset: int, side: int, size: int, i: int, p: int)
    requires size > 0
  {
    Start(offset, side, size, i) <= p < End(offset, side, size, i)
  }

  lemma {:induction false} BlockOf(offset: int, side: int, size: int, p: int, n: int) returns (i: int)
    requires Fits(side, size) && size <= side && 0 < n <= size && offset <= p < Start(offset, side, size, n)
    ensures 0 <= i < n && Covers(offset, side, size, i, p)
    decreases n
  {
    BlocksAdjoin(offset, side, size, n - 1);
    if p >= Start(offset, side, size, n - 1) {
      return n - 1;
    }
    StartsRise(offset, side, size, n - 1);
    i := BlockOf(offset, side, size, p, n - 1);
  }

  lemma {:induction false} StartsOrdered(offset: int, side: int, size: int, i: int, j: int)
    requires Fits(side, size) && 0 <= i <= j <= size
    ensures Start(offset, side, size, i) <= Start(offset, side, size, j)
    decreases j - i
  {
    if i < j {
      StartsRise(offset, side, size, j - 1);
      StartsOrdered(offset, side, size, i, j - 1);
    }
  }

  /** Exact tiling: every source column of the square is sampled by one output column and no
      other. */
  lemma SampledExactlyOnce(offset: int, side: int, size: int, p: int)
    requires Fits(side, size) && size <= side && offset <= p < offset + side
    ensures exists i :: 0 <= i < size && Covers(offset, side, size, i, p)
    ensures forall i, j :: 0 <= i < size && 0 <= j < size && Covers(offset, side, size, i, p) && Covers(offset, side, size, j, p) ==> i == j
  {
    StartsRise(offset, side, size, 0);
    var i0 := BlockOf(offset, side, size, p, size);
    forall i, j | 0 <= i < j < size
      ensures !(Covers(offset, side, size, i, p) && Covers(offset, side, size, j, p))
    {
      BlocksAdjoin(offset, side, size, i);
      StartsOrdered(offset, side, size, i + 1, j);
    }
  }

  lemma NotNegative(a: int, b: int)
    requires a >= 0 && b >= 0
    ensures a * b >= 0
  {
  }

  lemma RowMajor(x: int, width: int, y: int, height: int)
    requires 0 <= x < width && 0 <= y < height
    ensures 0 <= y * width + x < width * height
  {
    NotNegative(y, width);
    NotNegative(height - 1 - y, width);
    assert (height - 1 - y) * width == width * height - width - y * width;
  }

  function Sample(image: Image, xx: int, yy: int, k: int): int
    requires Decoded(image) && 0 <= xx < image.width && 0 <= yy < image.height && 0 <= k < 3
  {
    SampleInBuffer(image, xx, yy, k);
    image.rgb[(yy * image.width + xx) * 3 + k]
  }

  /** Every sample lies in the pixel buffer. */
  lemma SampleInBuffer(image: Image, xx: int, yy: int, k: int)
    requires Decoded(image) && 0 <= xx < image.width && 0 <= yy < image.height && 0 <= k < 3
    ensures 0 <= (yy * image.width + xx) * 3 + k < |image.rgb|
  {
    RowMajor(xx, image.width, yy, image.height);
  }

  /** The sum of one channel over the first columns of a row, and over the first rows of a block. */
  function RowSum(image: Image, x0: int, n: nat, yy: int, k: int): int
    requires Decoded(image) && 0 <= x0 && x0 + n <= image.width && 0 <= yy < image.height && 0 <= k < 3
  {
    if n == 0 then 0 else RowSum(image, x0, n - 1, yy, k) + Sample(image, x0 + n - 1, yy, k)
  }

  function BlockSum(image: Image, x0: int, n: nat, y0: int, m: nat, k: int): int
    requires Decoded(image) && 0 <= x0 && x0 + n <= image.width && 0 <= y0 && y0 + m <= image.height && 0 <= k < 3
  {
    if m == 0 then 0 else BlockSum(image, x0, n, y0, m - 1, k) + RowSum(image, x0, n, y0 + m - 1, k)
  }

  /** All samples of channel `k` in the block lie between `lo` and `hi`. */
  predicate Between(image: Image, x0: int, n: nat, y0: int, m: nat, k: int, lo: int, hi: int)
    requires Decoded(image) && 0 <= x0 && x0 + n <= image.width && 0 <= y0 && y0 + m <= image.height && 0 <= k < 3
  {
    forall xx, yy :: x0 <= xx < x0 + n && y0 <= yy < y0 + m ==> lo <= Sample(image, xx, yy, k) <= hi
  }

  lemma {:induction false} RowBetween(image: Image, x0: int, n: nat, yy: int, k: int, lo: int, hi: int)
    requires Decoded(image) && 0 <= x0 && x0 + n <= image.width && 0 <= yy < image.height && 0 <= k < 3
    requires forall xx :: x0 <= xx < x0 + n ==> lo <= Sample(image, xx, yy, k) <= hi
    ensures n * lo <= RowSum(image, x0, n, yy, k) <= n * hi
  {
    if n > 0 {
      RowBetween(image, x0, n - 1, yy, k, lo, hi);
      assert n * lo == (n - 1) * lo + lo && n * hi == (n - 1) * hi + hi;
    }
  }

  lemma {:induction false} BlockBetween(image: Image, x0: int, n: nat, y0: int, m: nat, k: int, lo: int, hi: int)
    requires Decoded(image) && 0 <= x0 && x0 + n <= image.width && 0 <= y0 && y0 + m <= image.height && 0 <= k < 3
    requires Between(image, x0, n, y0, m, k, lo, hi)
    ensures m * (n * lo) <= BlockSum(image, x0, n, y0, m, k) <= m * (n * hi)
  {
    if m > 0 {
      BlockBetween(image, x0, n, y0, m - 1, k, lo, hi);
      RowBetween(image, x0, n, y0 + m - 1, k, lo, hi);
      assert m * (n * lo) == (m - 1) * (n * lo) + n * lo && m * (n * hi) == (m - 1) * (n * hi) + n * hi;
    }
  }

  /** A block: its corner and extent in the source image. */
  datatype Block = Block(x0: int, n: nat, y0: int, m: nat)

  predicate InImage(image: Image, b: Block) {
    0 <= b.x0 && b.x0 + b.n <= image.width && 0 <= b.y0 && b.y0 + b.m <= image.height && b.n > 0 && b.m > 0
  }

  predicate Usable(image: Image, size: int) {
    Decoded(image) && Fits(Side(image), size) && size * size * 3 < WORD
  }

  /** No product wraps exactly for the sizes up to 37837, whatever the image; the service asks for
      64, 128 and 256. */
  lemma SizesFit(image: Image, size: int)
    requires Decoded(image) && size > 0
    ensures Usable(image, size) <==> size <= 37_837
  {
    SmallSide(image);
    if size <= 37_837 {
      ProductUpTo(size, Side(image), 37_837, 4000);
      ProductUpTo(size, size, 37_837, 37_837);
    } else {
      ProductUpTo(37_838, 37_838, size, size);
    }
  }

  lemma ProductUpTo(a: int, b: int, c: int, d: int)
    requires 0 <= a <= c && 0 <= b <= d
    ensures a * b <= c * d
  {
    NotNegative(c - a, d);
    NotNegative(a, d - b);
    assert (c - a) * d == c * d - a * d && a * (d - b) == a * d - a * b;
  }

  /** The pixel budget bounds the square. */
  lemma SmallSide(image: Image)
    requires Decoded(image)
    ensures 0 < Side(image) <= 4000
  {
    var side, w, h := Side(image), image.width, image.height;
    NotNegative(w - side, h);
    NotNegative(side, h - side);
    assert (w - side) * h == w * h - side * h && side * (h - side) == side * h - side * side;
    if side > 4000 {
      TooBig(side);
    }
  }

  lemma TooBig(side: int)
    requires side > 4000
    ensures side * side > BUDGET
  {
    NotNegative(side - 4001, side + 4001);
    assert (side - 4001) * (side + 4001) == side * side - 4001 * 4001;
  }

  lemma SquareInside(image: Image)
    requires Decoded(image)
    ensures Side(image) > 0
    ensures 0 <= Left(image) && Left(image) + Side(image) <= image.width
    ensures 0 <= Top(image) && Top(image) + Side(image) <= image.height
  {
  }

  /** The block of output pixel (x, y). */
  function BlockAt(image: Image, size: int, x: int, y: int): (b: Block)
    requires Usable(image, size) && 0 <= x < size && 0 <= y < size
    ensures InImage(image, b)
  {
    var side := Side(image);
    SquareInside(image);
    BlockInside(Left(image), side, size, x);
    BlockInside(Top(image), side, size, y);
    var x0, y0 := Start(Left(image), side, size, x), Start(Top(image), side, size, y);
    Block(x0, End(Left(image), side, size, x) - x0, y0, End(Top(image), side, size, y) - y0)
  }

  predicate Contains(b: Block, xx: int, yy: int) {
    b.x0 <= xx < b.x0 + b.n && b.y0 <= yy < b.y0 + b.m
  }

  lemma ContainsIsCovers(image: Image, size: int, x: int, y: int, xx: int, yy: int)
    requires Usable(image, size) && 0 <= x < size && 0 <= y < size
    ensures Contains(BlockAt(image, size, x, y), xx, yy) <==>
            Covers(Left(image), Side(image), size, x, xx) && Covers(Top(image), Side(image), size, y, yy)
  {
  }

  /** The blocks tile the square: every source pixel of it is sampled by one output pixel and by
      no other. */
  lemma PixelSampledOnce(image: Image, size: int, xx: int, yy: int) returns (x: int, y: int)
    requires Usable(image, size) && size <= Side(image)
    requires Left(image) <= xx < Left(image) + Side(image) && Top(image) <= yy < Top(image) + Side(image)
    ensures 0 <= x < size && 0 <= y < size && Contains(BlockAt(image, size, x, y), xx, yy)
    ensures forall x', y' :: 0 <= x' < size && 0 <= y' < size && Contains(BlockAt(image, size, x', y'), xx, yy) ==> x' == x && y' == y
  {
    hide Covers, Contains, BlockAt, Decoded;
    SampledExactlyOnce(Left(image), Side(image), size, xx);
    SampledExactlyOnce(Top(image), Side(image), size, yy);
    x :| 0 <= x < size && Covers(Left(image), Side(image), size, x, xx);
    y :| 0 <= y < size && Covers(Top(image), Side(image), size, y, yy);
    ContainsIsCovers(image, size, x, y, xx, yy);
    forall x', y' | 0 <= x' < size && 0 <= y' < size && Contains(BlockAt(image, size, x', y'), xx, yy) ensures x' == x && y' == y {
      ContainsIsCovers(image, size, x', y', xx, yy);
    }
  }

  function Mean(image: Image, b: Block, k: int): int
    requires Decoded(image) && InImage(image, b) && 0 <= k < 3
  {
    assert b.n * b.m > 0;
    BlockSum(image, b.x0, b.n, b.y0, b.m, k) / (b.n * b.m)
  }

  /** An output value lies between the least and the greatest value it samples. */
  lemma MeanBetween(image: Image, b: Block, k: int, lo: int, hi: int)
    requires Decoded(image) && InImage(image, b) && 0 <= k < 3 && lo <= hi
    requires Between(image, b.x0, b.n, b.y0, b.m, k, lo, hi)
    ensures lo <= Mean(image, b, k) <= hi
  {
    BlockBetween(image, b.x0, b.n, b.y0, b.m, k, lo, hi);
    var sum, area := BlockSum(image, b.x0, b.n, b.y0, b.m, k), b.n * b.m;
    MulSwap(b.n, b.m, lo);
    MulSwap(b.n, b.m, hi);
    QuotientBetween(sum, area, lo, hi);
  }

  lemma MulSwap(n: int, m: int, v: int)
    ensures m * (n * v) == n * m * v
  {
  }

  lemma QuotientBetween(sum: int, area: int, lo: int, hi: int)
    requires area > 0 && area * lo <= sum <= area * hi
    ensures lo <= sum / area <= hi
  {
    var q := sum / area;
    AtLeast(area, lo - q);
    AtLeast(area, q - hi);
    assert area * (lo - q) == area * lo - area * q && area * (q - hi) == area * q - area * hi;
  }

  lemma AllBytes(image: Image, b: Block, k: int)
    requires Decoded(image) && InImage(image, b) && 0 <= k < 3
    ensures Between(image, b.x0, b.n, b.y0, b.m, k, 0, 255)
  {
    hide Decoded;
    forall xx, yy | b.x0 <= xx < b.x0 + b.n && b.y0 <= yy < b.y0 + b.m ensures 0 <= Sample(image, xx, yy, k) <= 255 {
      SampleIsByte(image, xx, yy, k);
    }
  }

  lemma SampleIsByte(image: Image, xx: int, yy: int, k: int)
    requires Decoded(image) && 0 <= xx < image.width && 0 <= yy < image.height && 0 <= k < 3
    ensures 0 <= Sample(image, xx, yy, k) <= 255
  {
    SampleInBuffer(image, xx, yy, k);
    var v := image.rgb[(yy * image.width + xx) * 3 + k];
  }

  /** So it fits an unsigned char, and a plain image stays plain. */
  lemma MeanIsByte(image: Image, b: Block, k: int)
    requires Decoded(image) && InImage(image, b) && 0 <= k < 3
    ensures 0 <= Mean(image, b, k) < 256
  {
    hide BlockSum, Mean, Sample;
    AllBytes(image, b, k);
    MeanBetween(image, b, k, 0, 255);
  }

  /** The output buffer by position: rows of pixels of three channels. */
  function Index(size: int, x: int, y: int, k: int): int {
    (y * size + x) * 3 + k
  }

  /** The inner loops: the three channel sums of one block. */
  method BlockSums(image: Image, b: Block) returns (sum: seq<int>)
    requires Decoded(image) && InImage(image, b)
    ensures |sum| == 3 && forall k :: 0 <= k < 3 ==> sum[k] == BlockSum(image, b.x0, b.n, b.y0, b.m, k)
  {
    sum := [0, 0, 0];
    var m := 0;
    while m < b.m
      invariant 0 <= m <= b.m && |sum| == 3
      invariant forall k :: 0 <= k < 3 ==> sum[k] == BlockSum(image, b.x0, b.n, b.y0, m, k)
    {
      var n := 0;
      while n < b.n
        invariant 0 <= n <= b.n && |sum| == 3
        invariant forall k :: 0 <= k < 3 ==> sum[k] == BlockSum(image, b.x0, b.n, b.y0, m, k) + RowSum(image, b.x0, n, b.y0 + m, k)
      {
        ghost var before := sum;
        var c := 0;
        while c < 3
          invariant 0 <= c <= 3 && |sum| == 3
          invariant forall k :: 0 <= k < c ==> sum[k] == before[k] + Sample(image, b.x0 + n, b.y0 + m, k)
          invariant forall k :: c <= k < 3 ==> sum[k] == before[k]
        {
          sum := sum[c := sum[c] + Sample(image, b.x0 + n, b.y0 + m, c)];
          c := c + 1;
        }
        n := n + 1;
      }
      m := m + 1;
    }
  }

  /** Output position `p` holds the mean of its block. */
  ghost predicate Sampled(image: Image, size: int, value: int, p: int)
    requires Usable(image, size)
  {
    forall x, y, k :: 0 <= x < size && 0 <= y < size && 0 <= k < 3 && Index(size, x, y, k) == p ==>
      value == Mean(image, BlockAt(image, size, x, y), k)
  }

  lemma IndexInjective(size: int, x: int, y: int, k: int, x': int, y': int, k': int)
    requires 0 <= x < size && 0 <= k < 3 && 0 <= x' < size && 0 <= k' < 3
    requires Index(size, x, y, k) == Index(size, x', y', k')
    ensures x == x' && y == y' && k == k'
  {
    assert y * size + x == y' * size + x';
    AtLeast(size, y - y');
    assert size * (y - y') == y * size - y' * size;
  }

  lemma OnlyHere(image: Image, size: int, x: int, y: int, k: int, value: int)
    requires Usable(image, size) && 0 <= x < size && 0 <= y < size && 0 <= k < 3
    requires value == Mean(image, BlockAt(image, size, x, y), k)
    ensures Sampled(image, size, value, Index(size, x, y, k))
  {
    forall x', y', k' | 0 <= x' < size && 0 <= y' < size && 0 <= k' < 3 && Index(size, x', y', k') == Index(size, x, y, k)
      ensures x' == x && y' == y && k' == k
    {
      IndexInjective(size, x, y, k, x', y', k');
    }
  }

  lemma SampledGives(image: Image, size: int, value: int, x: int, y: int, k: int)
    requires Usable(image, size) && 0 <= x < size && 0 <= y < size && 0 <= k < 3
    requires Sampled(image, size, value, Index(size, x, y, k))
    ensures value == Mean(image, BlockAt(image, size, x, y), k)
  {
  }

  lemma MeanOf(image: Image, b: Block, k: int)
    requires Decoded(image) && InImage(image, b) && 0 <= k < 3
    ensures b.n * b.m > 0 && Mean(image, b, k) == BlockSum(image, b.x0, b.n, b.y0, b.m, k) / (b.n * b.m)
  {
    assert b.n * b.m > 0;
  }

  lemma IndexBound(size: int, x: int, y: int, k: int)
    requires 0 <= x < size && 0 <= y < size && 0 <= k < 3
    ensures 0 <= Index(size, x, y, k) < size * size * 3
  {
    RowMajor(x, size, y, size);
  }

  /** The thumbnail before PNG encoding: every output value is the mean of its block. */
  method Shrink(image: Image, size: int) returns (pixels: array<int>)
    requires Usable(image, size)
    ensures fresh(pixels) && pixels.Length == size * size * 3
    ensures forall x, y, k :: 0 <= x < size && 0 <= y < size && 0 <= k < 3 ==>
              0 <= Index(size, x, y, k) < pixels.Length && pixels[Index(size, x, y, k)] == Mean(image, BlockAt(image, size, x, y), k)
  {
    hide Sampled, Mean, BlockSum, Decoded;
    assert size * size >= 0;
    pixels := new int[size * size * 3];
    var p, y := 0, 0;
    while y < size
      invariant 0 <= y <= size && p == Index(size, 0, y, 0) && pixels.Length == size * size * 3
      invariant 0 <= p <= pixels.Length && forall q :: 0 <= q < p ==> Sampled(image, size, pixels[q], q)
    {
      var x := 0;
      while x < size
        invariant 0 <= x <= size && p == Index(size, x, y, 0) && pixels.Length == size * size * 3
        invariant 0 <= p <= pixels.Length && forall q :: 0 <= q < p ==> Sampled(image, size, pixels[q], q)
      {
        IndexBound(size, x, y, 2);
        var b := BlockAt(image, size, x, y);
        var sum := BlockSums(image, b);
        var k := 0;
        while k < 3
          invariant 0 <= k <= 3 && p == Index(size, x, y, k) && pixels.Length == size * size * 3
          invariant 0 <= p <= pixels.Length && forall q :: 0 <= q < p ==> Sampled(image, size, pixels[q], q)
        {
          MeanOf(image, b, k);
          pixels[p] := sum[k] / (b.n * b.m);
          OnlyHere(image, size, x, y, k, pixels[p]);
          p, k := p + 1, k + 1;
        }
        x := x + 1;
      }
      y := y + 1;
    }
    forall x, y, k | 0 <= x < size && 0 <= y < size && 0 <= k < 3
      ensures 0 <= Index(size, x, y, k) < pixels.Length && pixels[Index(size, x, y, k)] == Mean(image, BlockAt(image, size, x, y), k)
    {
      IndexBound(size, x, y, k);
      SampledGives(image, size, pixels[Index(size, x, y, k)], x, y, k);
    }
  }
}
