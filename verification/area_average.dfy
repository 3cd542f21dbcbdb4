/** Area averaging by three quarters (internal/screenshot/image.go, lines 101-129). */
module AreaAverage {

  type Byte = b: int | 0 <= b < 256

  datatype Pixel = Pixel(r: Byte, g: Byte, b: Byte, a: Byte)

  datatype Channel = Red | Green | Blue | Alpha

  function Get(ch: Channel, p: Pixel): Byte {
    match ch
    case Red => p.r
    case Green => p.g
    case Blue => p.b
    case Alpha => p.a
  }

  /** A picture as a value: its rows from top to bottom. */
  type Rows = seq<seq<Pixel>>

  predicate Rect(rows: Rows, w: nat, h: nat) {
    |rows| == h && forall y :: 0 <= y < h ==> |rows[y]| == w
  }

  function RowsOf(img: array2<Pixel>): (rows: Rows)
    reads img
    ensures Rect(rows, img.Length1, img.Length0)
    ensures forall y, x :: 0 <= y < img.Length0 && 0 <= x < img.Length1 ==> rows[y][x] == img[y, x]
  {
    seq(img.Length0, y requires 0 <= y < img.Length0 reads img =>
      seq(img.Length1, x requires 0 <= x < img.Length1 reads img => img[y, x]))
  }

  // ---- the boxes ----

  /** Integer division by w: the left edge of box x when n pixels shrink to w. */
  function Edge(x: nat, n: nat, w: nat): nat
    requires w > 0
  {
    x * n / w
  }

  function Shorter(n: nat): nat { n * 3 / 4 }

  lemma Times(a: int, b: int, w: nat)
    requires a <= b
    ensures a * w <= b * w
  {
    assert (b - a) * w >= 0;
  }

  lemma Plus(a: int, b: int, w: int)
    ensures (a + b) * w == a * w + b * w
  {}

  /** A quotient is found by bracketing its numerator. */
  lemma QuotientBetween(a: int, w: nat, lo: int, hi: int)
    requires w > 0 && lo * w <= a < (hi + 1) * w
    ensures lo <= a / w <= hi
  {
    var d := a / w;
    assert a == d * w + a % w;
    Plus(d, 1, w);
    if d < lo {
      Times(d + 1, lo, w);
    } else if hi < d {
      Times(hi + 1, d, w);
    }
  }

  lemma MeanOfBounded(s: int, n: nat, lo: int, hi: int)
    requires n > 0 && n * lo <= s <= n * hi
    ensures lo <= s / n <= hi
  {
    Plus(hi, 1, n);
    QuotientBetween(s, n, lo, hi);
  }

  lemma Quotient(a: int, w: nat, q: int)
    requires w > 0 && q * w <= a < (q + 1) * w
    ensures a / w == q
  {
    QuotientBetween(a, w, q, q);
  }

  /** The left edge of a box is x n / w, rounded down. */
  lemma EdgeIsFloor(x: nat, n: nat, w: nat)
    requires w > 0
    ensures Edge(x, n, w) * w <= x * n < (Edge(x, n, w) + 1) * w
  {
    var a := x * n;
    assert a == a / w * w + a % w;
    Plus(a / w, 1, w);
  }

  /** Every box spans one or two pixels; none is empty. */
  lemma BoxSpan(x: nat, n: nat, w: nat)
    requires w == Shorter(n) && w > 0
    ensures Edge(x, n, w) + 1 <= Edge(x + 1, n, w) <= Edge(x, n, w) + 2
  {
    var a := x * n;
    var q := a / w;
    var rem := a % w;
    assert a == q * w + rem;
    assert (x + 1) * n == a + n;
    assert w <= n <= 2 * w;
    if rem + n < 2 * w {
      assert (q + 1) * w == q * w + w && (q + 2) * w == q * w + 2 * w;
      Quotient(a + n, w, q + 1);
    } else {
      assert (q + 2) * w == q * w + 2 * w && (q + 3) * w == q * w + 3 * w;
      Quotient(a + n, w, q + 2);
    }
  }

  lemma Edges(n: nat, w: nat)
    requires w > 0
    ensures Edge(0, n, w) == 0 && Edge(w, n, w) == n
  {
    Quotient(w * n, w, n);
  }

  lemma {:induction false} EdgesRise(x: nat, y: nat, n: nat, w: nat)
    requires w == Shorter(n) && w > 0 && x <= y
    ensures Edge(x, n, w) + (y - x) <= Edge(y, n, w)
    decreases y
  {
    if x < y {
      EdgesRise(x, y - 1, n, w);
      BoxSpan(y - 1, n, w);
    }
  }

  predicate InBox(s: nat, x: nat, n: nat, w: nat)
    requires w > 0
  {
    x < w && Edge(x, n, w) <= s < Edge(x + 1, n, w)
  }

  /** The box of a source pixel, found from the left. */
  lemma {:induction false} BoxOf(s: nat, k: nat, n: nat, w: nat) returns (x: nat)
    requires w == Shorter(n) && w > 0 && k <= w && s < Edge(k, n, w)
    ensures x < k && InBox(s, x, n, w)
    decreases k
  {
    Edges(n, w);
    if Edge(k - 1, n, w) <= s {
      x := k - 1;
    } else {
      x := BoxOf(s, k - 1, n, w);
    }
  }

  /** The boxes partition the pixels of a line: each pixel is in exactly one. */
  lemma BoxesPartition(s: nat, n: nat, w: nat) returns (x: nat)
    requires w == Shorter(n) && w > 0 && s < n
    ensures InBox(s, x, n, w)
    ensures forall x' :: 0 <= x' < w && InBox(s, x', n, w) ==> x' == x
  {
    Edges(n, w);
    x := BoxOf(s, w, n, w);
    forall x' | 0 <= x' < w && InBox(s, x', n, w) ensures x' == x {
      if x' < x {
        EdgesRise(x' + 1, x, n, w);
      } else if x < x' {
        EdgesRise(x + 1, x', n, w);
      }
    }
  }

  /** In two dimensions: every source pixel belongs to exactly one destination pixel. */
  lemma PixelsPartition(sx: nat, sy: nat, W: nat, H: nat) returns (x: nat, y: nat)
    requires Shorter(W) > 0 && Shorter(H) > 0 && sx < W && sy < H
    ensures InBox(sx, x, W, Shorter(W)) && InBox(sy, y, H, Shorter(H))
    ensures forall x', y' :: (0 <= x' < Shorter(W) && 0 <= y' < Shorter(H)
              && InBox(sx, x', W, Shorter(W)) && InBox(sy, y', H, Shorter(H))) ==> (x' == x && y' == y)
  {
    x := BoxesPartition(sx, W, Shorter(W));
    y := BoxesPartition(sy, H, Shorter(H));
  }

  // ---- averages ----

  function RowSum(row: seq<Pixel>, ch: Channel, x0: nat, x1: nat): nat
    requires x0 <= x1 <= |row|
    decreases x1
  {
    if x0 == x1 then 0 else RowSum(row, ch, x0, x1 - 1) + Get(ch, row[x1 - 1])
  }

  predicate Within(rows: Rows, x0: nat, x1: nat, y0: nat, y1: nat) {
    x0 <= x1 && y0 <= y1 <= |rows| && forall y :: 0 <= y < |rows| ==> x1 <= |rows[y]|
  }

  function BoxSum(rows: Rows, ch: Channel, x0: nat, x1: nat, y0: nat, y1: nat): nat
    requires Within(rows, x0, x1, y0, y1)
    decreases y1
  {
    if y0 == y1 then 0 else BoxSum(rows, ch, x0, x1, y0, y1 - 1) + RowSum(rows[y1 - 1], ch, x0, x1)
  }

  /** How many pixels the two loops over the box visit. */
  function BoxCount(x0: nat, x1: nat, y0: nat, y1: nat): nat
    requires x0 <= x1 && y0 <= y1
    decreases y1
  {
    if y0 == y1 then 0 else BoxCount(x0, x1, y0, y1 - 1) + (x1 - x0)
  }

  lemma {:induction false} BoxCountIsArea(x0: nat, x1: nat, y0: nat, y1: nat)
    requires x0 <= x1 && y0 <= y1
    ensures BoxCount(x0, x1, y0, y1) == (y1 - y0) * (x1 - x0)
    decreases y1
  {
    if y0 < y1 {
      BoxCountIsArea(x0, x1, y0, y1 - 1);
      Plus(y1 - 1 - y0, 1, x1 - x0);
    }
  }

  /** Every value of a channel in the box lies between lo and hi. */
  predicate Between(rows: Rows, ch: Channel, x0: nat, x1: nat, y0: nat, y1: nat, lo: nat, hi: nat)
    requires Within(rows, x0, x1, y0, y1)
  {
    forall y, x :: y0 <= y < y1 && x0 <= x < x1 ==> lo <= Get(ch, rows[y][x]) <= hi
  }

  lemma {:induction false} RowSumBetween(row: seq<Pixel>, ch: Channel, x0: nat, x1: nat, lo: nat, hi: nat)
    requires x0 <= x1 <= |row| && forall x :: x0 <= x < x1 ==> lo <= Get(ch, row[x]) <= hi
    ensures (x1 - x0) * lo <= RowSum(row, ch, x0, x1) <= (x1 - x0) * hi
    decreases x1
  {
    if x0 < x1 {
      RowSumBetween(row, ch, x0, x1 - 1, lo, hi);
      Plus(x1 - 1 - x0, 1, lo);
      Plus(x1 - 1 - x0, 1, hi);
    }
  }

  lemma {:induction false} BoxSumBetween(rows: Rows, ch: Channel, x0: nat, x1: nat, y0: nat, y1: nat, lo: nat, hi: nat)
    requires Within(rows, x0, x1, y0, y1) && Between(rows, ch, x0, x1, y0, y1, lo, hi)
    ensures BoxCount(x0, x1, y0, y1) * lo <= BoxSum(rows, ch, x0, x1, y0, y1) <= BoxCount(x0, x1, y0, y1) * hi
    decreases y1
  {
    if y0 < y1 {
      var m, n := BoxCount(x0, x1, y0, y1 - 1), x1 - x0;
      BoxSumBetween(rows, ch, x0, x1, y0, y1 - 1, lo, hi);
      RowSumBetween(rows[y1 - 1], ch, x0, x1, lo, hi);
      Plus(m, n, lo);
      Plus(m, n, hi);
    }
  }

  /** The mean of a channel over a box, rounded down. */
  function Mean(rows: Rows, ch: Channel, x0: nat, x1: nat, y0: nat, y1: nat): (m: nat)
    requires Within(rows, x0, x1, y0, y1) && x0 < x1 && y0 < y1
  {
    assert BoxCount(x0, x1, y0, y1) > 0;
    BoxSum(rows, ch, x0, x1, y0, y1) / BoxCount(x0, x1, y0, y1)
  }

  /** A mean lies between the smallest and the largest value of its box. */
  lemma MeanBetween(rows: Rows, ch: Channel, x0: nat, x1: nat, y0: nat, y1: nat, lo: nat, hi: nat)
    requires Within(rows, x0, x1, y0, y1) && x0 < x1 && y0 < y1 && Between(rows, ch, x0, x1, y0, y1, lo, hi)
    ensures lo <= Mean(rows, ch, x0, x1, y0, y1) <= hi
  {
    var s, n := BoxSum(rows, ch, x0, x1, y0, y1), BoxCount(x0, x1, y0, y1);
    BoxSumBetween(rows, ch, x0, x1, y0, y1, lo, hi);
    MeanOfBounded(s, n, lo, hi);
  }

  lemma MeanIsByte(rows: Rows, ch: Channel, x0: nat, x1: nat, y0: nat, y1: nat)
    requires Within(rows, x0, x1, y0, y1) && x0 < x1 && y0 < y1
    ensures Mean(rows, ch, x0, x1, y0, y1) < 256
  {
    MeanBetween(rows, ch, x0, x1, y0, y1, 0, 255);
  }

  function MeanPixel(rows: Rows, x0: nat, x1: nat, y0: nat, y1: nat): Pixel
    requires Within(rows, x0, x1, y0, y1) && x0 < x1 && y0 < y1
  {
    MeanIsByte(rows, Red, x0, x1, y0, y1);
    MeanIsByte(rows, Green, x0, x1, y0, y1);
    MeanIsByte(rows, Blue, x0, x1, y0, y1);
    MeanIsByte(rows, Alpha, x0, x1, y0, y1);
    Pixel(Mean(rows, Red, x0, x1, y0, y1), Mean(rows, Green, x0, x1, y0, y1),
          Mean(rows, Blue, x0, x1, y0, y1), Mean(rows, Alpha, x0, x1, y0, y1))
  }

  /** Pixel (x, y) of the smaller picture. */
  function Shrunk1(rows: Rows, W: nat, H: nat, x: nat, y: nat): Pixel
    requires Rect(rows, W, H) && Shorter(W) > 0 && Shorter(H) > 0 && x < Shorter(W) && y < Shorter(H)
  {
    BoxInside(x, W);
    BoxInside(y, H);
    MeanPixel(rows, Edge(x, W, Shorter(W)), Edge(x + 1, W, Shorter(W)), Edge(y, H, Shorter(H)), Edge(y + 1, H, Shorter(H)))
  }

  /** A box is not empty and ends inside the picture. */
  lemma BoxInside(x: nat, n: nat)
    requires x < Shorter(n)
    ensures Edge(x, n, Shorter(n)) < Edge(x + 1, n, Shorter(n)) <= n
  {
    BoxSpan(x, n, Shorter(n));
    Edges(n, Shorter(n));
    EdgesRise(x + 1, Shorter(n), n, Shorter(n));
  }

  function Shrunk(rows: Rows, W: nat, H: nat): (small: Rows)
    requires Rect(rows, W, H) && Shorter(W) > 0 && Shorter(H) > 0
    ensures Rect(small, Shorter(W), Shorter(H))
  {
    seq(Shorter(H), y requires 0 <= y < Shorter(H) =>
      seq(Shorter(W), x requires 0 <= x < Shorter(W) => Shrunk1(rows, W, H, x, y)))
  }

  /** Every channel of a smaller pixel lies within the range of the source pixels in its box. */
  lemma ShrunkBetween(rows: Rows, W: nat, H: nat, ch: Channel, x: nat, y: nat, lo: nat, hi: nat)
    requires Rect(rows, W, H) && Shorter(W) > 0 && Shorter(H) > 0 && x < Shorter(W) && y < Shorter(H)
    requires forall sx, sy :: (0 <= sx < W && 0 <= sy < H && InBox(sx, x, W, Shorter(W)) && InBox(sy, y, H, Shorter(H)))
               ==> lo <= Get(ch, rows[sy][sx]) <= hi
    ensures lo <= Get(ch, Shrunk(rows, W, H)[y][x]) <= hi
  {
    BoxInside(x, W);
    BoxInside(y, H);
    var x0, x1 := Edge(x, W, Shorter(W)), Edge(x + 1, W, Shorter(W));
    var y0, y1 := Edge(y, H, Shorter(H)), Edge(y + 1, H, Shorter(H));
    forall sy, sx | y0 <= sy < y1 && x0 <= sx < x1 ensures lo <= Get(ch, rows[sy][sx]) <= hi {
      assert InBox(sx, x, W, Shorter(W)) && InBox(sy, y, H, Shorter(H));
    }
    MeanBetween(rows, ch, x0, x1, y0, y1, lo, hi);
  }

  /** A box holds one, two or four pixels, so the divisor is never zero and no 32-bit sum can wrap around. */
  lemma BoxIsSmall(rows: Rows, W: nat, H: nat, ch: Channel, x: nat, y: nat)
    requires Rect(rows, W, H) && Shorter(W) > 0 && Shorter(H) > 0 && x < Shorter(W) && y < Shorter(H)
    ensures var x0, x1 := Edge(x, W, Shorter(W)), Edge(x + 1, W, Shorter(W));
            var y0, y1 := Edge(y, H, Shorter(H)), Edge(y + 1, H, Shorter(H));
            && Within(rows, x0, x1, y0, y1)
            && BoxCount(x0, x1, y0, y1) in {1, 2, 4}
            && BoxSum(rows, ch, x0, x1, y0, y1) <= 4 * 255
  {
    BoxInside(x, W);
    BoxInside(y, H);
    BoxSpan(x, W, Shorter(W));
    BoxSpan(y, H, Shorter(H));
    var x0, x1 := Edge(x, W, Shorter(W)), Edge(x + 1, W, Shorter(W));
    var y0, y1 := Edge(y, H, Shorter(H)), Edge(y + 1, H, Shorter(H));
    BoxCountIsArea(x0, x1, y0, y1);
    SmallArea(y1 - y0, x1 - x0);
    BoxSumBetween(rows, ch, x0, x1, y0, y1, 0, 255);
  }

  lemma SmallArea(a: int, b: int)
    requires 1 <= a <= 2 && 1 <= b <= 2
    ensures a * b in {1, 2, 4}
  {
    if a == 1 {
      assert a * b == b;
    } else {
      assert a * b == 2 * b;
    }
  }

  // ---- what the mean is, on the pixels ----

  /** v is the mean, rounded down, of the one, two or four values of a channel in the box. */
  predicate IsMean(rows: Rows, ch: Channel, x0: nat, x1: nat, y0: nat, y1: nat, v: int)
    requires Within(rows, x0, x1, y0, y1) && x0 < x1 <= x0 + 2 && y0 < y1 <= y0 + 2
  {
    var p := Get(ch, rows[y0][x0]);
    if x1 == x0 + 1 && y1 == y0 + 1 then v == p
    else if y1 == y0 + 1 then v == (p + Get(ch, rows[y0][x0 + 1])) / 2
    else if x1 == x0 + 1 then v == (p + Get(ch, rows[y0 + 1][x0])) / 2
    else v == (p + Get(ch, rows[y0][x0 + 1]) + Get(ch, rows[y0 + 1][x0]) + Get(ch, rows[y0 + 1][x0 + 1])) / 4
  }

  lemma RowSumOfSmall(row: seq<Pixel>, ch: Channel, x0: nat, x1: nat)
    requires x0 < x1 <= x0 + 2 && x1 <= |row|
    ensures RowSum(row, ch, x0, x1) == Get(ch, row[x0]) + if x1 == x0 + 2 then Get(ch, row[x0 + 1]) else 0
  {
    assert RowSum(row, ch, x0, x0 + 1) == RowSum(row, ch, x0, x0) + Get(ch, row[x0]);
  }

  lemma MeanOfSmallBox(rows: Rows, ch: Channel, x0: nat, x1: nat, y0: nat, y1: nat)
    requires Within(rows, x0, x1, y0, y1) && x0 < x1 <= x0 + 2 && y0 < y1 <= y0 + 2
    ensures IsMean(rows, ch, x0, x1, y0, y1, Mean(rows, ch, x0, x1, y0, y1))
  {
    RowSumOfSmall(rows[y0], ch, x0, x1);
    assert BoxSum(rows, ch, x0, x1, y0, y0 + 1) == BoxSum(rows, ch, x0, x1, y0, y0) + RowSum(rows[y0], ch, x0, x1);
    assert BoxCount(x0, x1, y0, y0 + 1) == BoxCount(x0, x1, y0, y0) + (x1 - x0);
    if y1 == y0 + 2 {
      RowSumOfSmall(rows[y0 + 1], ch, x0, x1);
    }
  }

  /** Every channel of every pixel of the smaller picture is the mean of the source pixels in its box. */
  lemma ShrunkIsTheMean(rows: Rows, W: nat, H: nat, ch: Channel, x: nat, y: nat, x0: nat, x1: nat, y0: nat, y1: nat)
    requires Rect(rows, W, H) && Shorter(W) > 0 && Shorter(H) > 0 && x < Shorter(W) && y < Shorter(H)
    requires x0 == Edge(x, W, Shorter(W)) && x1 == Edge(x + 1, W, Shorter(W))
    requires y0 == Edge(y, H, Shorter(H)) && y1 == Edge(y + 1, H, Shorter(H))
    ensures x0 < x1 <= x0 + 2 && y0 < y1 <= y0 + 2 && Within(rows, x0, x1, y0, y1)
    ensures IsMean(rows, ch, x0, x1, y0, y1, Get(ch, Shrunk(rows, W, H)[y][x]))
  {
    BoxInside(x, W);
    BoxInside(y, H);
    BoxSpan(x, W, Shorter(W));
    BoxSpan(y, H, Shorter(H));
    MeanOfSmallBox(rows, ch, x0, x1, y0, y1);
  }

  // ---- the loops ----

  /** Lines 114-126: sums the box and divides; the sums fit in 32 bits and the divisor is not zero. */
  method AverageBox(img: array2<Pixel>, x0: nat, x1: nat, y0: nat, y1: nat) returns (p: Pixel)
    requires x0 < x1 <= img.Length1 && y0 < y1 <= img.Length0
    ensures Within(RowsOf(img), x0, x1, y0, y1)
    ensures p == MeanPixel(RowsOf(img), x0, x1, y0, y1)
    ensures x1 <= x0 + 2 && y1 <= y0 + 2 ==> forall ch :: IsMean(RowsOf(img), ch, x0, x1, y0, y1, Get(ch, p))
  {
    ghost var rows := RowsOf(img);
    var r, g, b, a, n := 0, 0, 0, 0, 0;
    for sy := y0 to y1
      invariant r == BoxSum(rows, Red, x0, x1, y0, sy) && g == BoxSum(rows, Green, x0, x1, y0, sy)
      invariant b == BoxSum(rows, Blue, x0, x1, y0, sy) && a == BoxSum(rows, Alpha, x0, x1, y0, sy)
      invariant n == BoxCount(x0, x1, y0, sy)
    {
      for sx := x0 to x1
        invariant r == BoxSum(rows, Red, x0, x1, y0, sy) + RowSum(rows[sy], Red, x0, sx)
        invariant g == BoxSum(rows, Green, x0, x1, y0, sy) + RowSum(rows[sy], Green, x0, sx)
        invariant b == BoxSum(rows, Blue, x0, x1, y0, sy) + RowSum(rows[sy], Blue, x0, sx)
        invariant a == BoxSum(rows, Alpha, x0, x1, y0, sy) + RowSum(rows[sy], Alpha, x0, sx)
        invariant n == BoxCount(x0, x1, y0, sy) + (sx - x0)
      {
        var px := img[sy, sx];
        assert rows[sy][sx] == px;
        r, g, b, a, n := r + px.r, g + px.g, b + px.b, a + px.a, n + 1;
      }
    }
    MeanIsByte(rows, Red, x0, x1, y0, y1);
    MeanIsByte(rows, Green, x0, x1, y0, y1);
    MeanIsByte(rows, Blue, x0, x1, y0, y1);
    MeanIsByte(rows, Alpha, x0, x1, y0, y1);
    p := Pixel(r / n, g / n, b / n, a / n);
    if x1 <= x0 + 2 && y1 <= y0 + 2 {
      forall ch ensures IsMean(rows, ch, x0, x1, y0, y1, Get(ch, p)) {
        MeanOfSmallBox(rows, ch, x0, x1, y0, y1);
      }
    }
  }

  /** Lines 113-127: writes row y of the smaller picture and touches no other row. */
  method ShrinkRow(img: array2<Pixel>, scaled: array2<Pixel>, y: nat)
    requires img != scaled && y < scaled.Length0
    requires scaled.Length1 == Shorter(img.Length1) > 0 && scaled.Length0 == Shorter(img.Length0)
    modifies scaled
    ensures forall i :: 0 <= i < scaled.Length1 ==> scaled[y, i] == Shrunk1(RowsOf(img), img.Length1, img.Length0, i, y)
    ensures forall j, i :: 0 <= j < scaled.Length0 && 0 <= i < scaled.Length1 && j != y ==> scaled[j, i] == old(scaled[j, i])
  {
    var W, H := img.Length1, img.Length0;
    var w, h := scaled.Length1, scaled.Length0;
    ghost var rows := RowsOf(img);
    for x := 0 to w
      invariant RowsOf(img) == rows
      invariant forall i :: 0 <= i < x ==> scaled[y, i] == Shrunk1(rows, W, H, i, y)
      invariant forall j, i :: 0 <= j < h && 0 <= i < w && j != y ==> scaled[j, i] == old(scaled[j, i])
    {
      BoxInside(x, W);
      BoxInside(y, H);
      var p := AverageBox(img, x * W / w, (x + 1) * W / w, y * H / h, (y + 1) * H / h);
      scaled[y, x] := p;
    }
  }

  /** Lines 106-128: the smaller picture. */
  method Shrink(img: array2<Pixel>) returns (scaled: array2<Pixel>)
    requires Shorter(img.Length1) > 0 && Shorter(img.Length0) > 0
    ensures fresh(scaled)
    ensures scaled.Length1 == Shorter(img.Length1) && scaled.Length0 == Shorter(img.Length0)
    ensures RowsOf(scaled) == Shrunk(RowsOf(img), img.Length1, img.Length0)
  {
    var W, H := img.Length1, img.Length0;
    var w, h := Shorter(W), Shorter(H);
    ghost var rows := RowsOf(img);
    scaled := new Pixel[h, w]((y, x) => Pixel(0, 0, 0, 0));
    for y := 0 to h
      invariant RowsOf(img) == rows
      invariant forall j, i :: 0 <= j < y && 0 <= i < w ==> scaled[j, i] == Shrunk1(rows, W, H, i, j)
    {
      ShrinkRow(img, scaled, y);
    }
    ghost var small := Shrunk(rows, W, H);
    forall j | 0 <= j < h ensures RowsOf(scaled)[j] == small[j] {
      assert forall i :: 0 <= i < w ==> RowsOf(scaled)[j][i] == small[j][i];
    }
  }
}
