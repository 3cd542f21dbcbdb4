/** Cutting a tall screenshot into bounded tiles (internal/screenshot/image.go). */
module ScreenshotSplit {
  import opened Common
  import opened AreaAverage

  const WIDTH := 1280
  const MAX_HEIGHT := 12000
  const SEGMENT_HEIGHT := 1400
  const OVERLAP := 100
  const MAX_SEGMENTS := 10
  const MAX_IMAGE_BYTES := 384 * 1024
  const MAX_SOURCE_BYTES := 24 * 1024 * 1024
  const QUALITIES := [85, 70, 55]
  const MIN_WIDTH := 256

  type Data = seq<Byte>

  datatype Tile = Tile(data: Data, width: nat, height: nat, yStart: nat, yEnd: nat)

  datatype Capture = Capture(pageWidth: int, pageHeight: int, capturedHeight: int, tiles: seq<Tile>)

  datatype Size = Size(width: int, height: int)

  datatype Fault = SourceTooLarge | BadHeader | UnexpectedDimensions | BadPicture | EncoderFailed | CannotFit | SegmentLimit

  /** The JPEG encoder: a picture and a quality give bytes or an error. */
  type Encoder = (Rows, int) -> Option<Data>

  // ---- the ladder of sizes and qualities ----

  /** A length after k reductions by three quarters. */
  function Reduced(n: nat, k: nat): nat {
    if k == 0 then n else Shorter(Reduced(n, k - 1))
  }

  predicate Usable(w: nat, h: nat) { w >= MIN_WIDTH && h >= 1 }

  /** Reductions 1 to k of a picture of this size are all still usable. */
  predicate Reducible(w: nat, h: nat, k: nat) {
    k > 0 ==> Reducible(w, h, k - 1) && Usable(Reduced(w, k), Reduced(h, k))
  }

  /** The picture after k reductions. */
  function Scaled(rows: Rows, w: nat, h: nat, k: nat): (small: Rows)
    requires Rect(rows, w, h) && Reducible(w, h, k)
    ensures Rect(small, Reduced(w, k), Reduced(h, k))
  {
    if k == 0 then rows else Shrunk(Scaled(rows, w, h, k - 1), Reduced(w, k - 1), Reduced(h, k - 1))
  }

  /** Attempt i of the ladder: size i / 3 at quality i % 3. */
  function Attempt(jpeg: Encoder, rows: Rows, w: nat, h: nat, i: nat): Option<Data>
    requires Rect(rows, w, h) && Reducible(w, h, i / 3)
  {
    jpeg(Scaled(rows, w, h, i / 3), QUALITIES[i % 3])
  }

  predicate Oversized(d: Option<Data>) { d.Some? && |d.value| > MAX_IMAGE_BYTES }

  /** The first n attempts exist and all came out too large. */
  predicate AllOversized(jpeg: Encoder, rows: Rows, w: nat, h: nat, n: nat)
    requires Rect(rows, w, h)
  {
    forall i :: 0 <= i < n ==> Reducible(w, h, i / 3) && Oversized(Attempt(jpeg, rows, w, h, i))
  }

  /**
   * What encode owes for a picture: the first attempt that is not too large decides,
   * and the refusal comes only when every size of the ladder was tried at every quality.
   */
  predicate Encoded(jpeg: Encoder, rows: Rows, w: nat, h: nat, n: nat, r: Result<Tile, Fault>)
    requires Rect(rows, w, h)
  {
    && AllOversized(jpeg, rows, w, h, n)
    && if Reducible(w, h, n / 3) then
         var d := Attempt(jpeg, rows, w, h, n);
         && !Oversized(d)
         && match d
            case None => r == Err(EncoderFailed)
            case Some(data) => r == Ok(Tile(data, Reduced(w, n / 3), Reduced(h, n / 3), 0, 0))
       else
         n % 3 == 0 && r == Err(CannotFit)
  }

  /** r is what the ladder yields, by some deciding attempt. */
  ghost predicate Answers(jpeg: Encoder, rows: Rows, w: nat, h: nat, r: Result<Tile, Fault>)
    requires Rect(rows, w, h)
  {
    exists n: nat :: Encoded(jpeg, rows, w, h, n, r)
  }

  /** A picture has one answer. */
  lemma EncodedIsUnique(jpeg: Encoder, rows: Rows, w: nat, h: nat, n: nat, n': nat, r: Result<Tile, Fault>, r': Result<Tile, Fault>)
    requires Rect(rows, w, h) && Encoded(jpeg, rows, w, h, n, r) && Encoded(jpeg, rows, w, h, n', r')
    ensures n == n' && r == r'
  {}

  /** From the capture width the ladder has at most six sizes, the last 303 pixels wide. */
  lemma LadderFromFullWidth(h: nat, k: nat)
    requires Reducible(WIDTH, h, k)
    ensures k <= 5 && Reduced(WIDTH, k) == [1280, 960, 720, 540, 405, 303][k]
  {
    if k >= 6 {
      ReducibleDown(WIDTH, h, 6, k);
    }
  }

  lemma {:induction false} ReducibleDown(w: nat, h: nat, j: nat, k: nat)
    requires j <= k && Reducible(w, h, k)
    ensures Reducible(w, h, j)
    decreases k
  {
    if j < k {
      ReducibleDown(w, h, j, k - 1);
    }
  }

  /** Encoding a full-width picture takes at most 18 attempts, and a tile keeps to the byte limit. */
  lemma EncodedIsBounded(jpeg: Encoder, rows: Rows, h: nat, n: nat, r: Result<Tile, Fault>)
    requires Rect(rows, WIDTH, h) && Encoded(jpeg, rows, WIDTH, h, n, r)
    ensures n <= 18
    ensures r.Ok? ==> |r.value.data| <= MAX_IMAGE_BYTES && r.value.width in {1280, 960, 720, 540, 405, 303}
  {
    if n > 18 {
      assert Reducible(WIDTH, h, 18 / 3);
      LadderFromFullWidth(h, 6);
    } else if Reducible(WIDTH, h, n / 3) {
      LadderFromFullWidth(h, n / 3);
    }
  }

  /**
   * An image is the best that fits: it has one of the six sizes and the qualities 85, 70 and 55,
   * and every larger size, and every higher quality of its own size, came out too large.
   */
  lemma ImageIsTheBest(jpeg: Encoder, rows: Rows, h: nat, n: nat, tile: Tile, k: nat, quality: int)
    requires Rect(rows, WIDTH, h) && Encoded(jpeg, rows, WIDTH, h, n, Ok(tile)) && quality in {85, 70, 55}
    ensures n <= 17 && tile.width == [1280, 960, 720, 540, 405, 303][n / 3]
    ensures Reducible(WIDTH, h, n / 3) && jpeg(Scaled(rows, WIDTH, h, n / 3), [85, 70, 55][n % 3]) == Some(tile.data)
    ensures k < n / 3 || (k == n / 3 && quality > [85, 70, 55][n % 3]) ==>
              Reducible(WIDTH, h, k) && Oversized(jpeg(Scaled(rows, WIDTH, h, k), quality))
  {
    EncodedIsBounded(jpeg, rows, h, n, Ok(tile));
    LadderFromFullWidth(h, n / 3);
    if k < n / 3 || (k == n / 3 && quality > [85, 70, 55][n % 3]) {
      var q := if quality == 85 then 0 else if quality == 70 then 1 else 2;
      var i := 3 * k + q;
      assert i / 3 == k && i % 3 == q && i < n;
      assert Oversized(Attempt(jpeg, rows, WIDTH, h, i));
    }
  }

  /** What trying quality q of size k tells. */
  lemma Tried(jpeg: Encoder, rows: Rows, w: nat, h: nat, k: nat, q: nat, d: Option<Data>)
    requires Rect(rows, w, h) && Reducible(w, h, k) && q < 3 && AllOversized(jpeg, rows, w, h, 3 * k + q)
    requires d == jpeg(Scaled(rows, w, h, k), QUALITIES[q])
    ensures if Oversized(d) then AllOversized(jpeg, rows, w, h, 3 * k + q + 1)
            else if d.None? then Answers(jpeg, rows, w, h, Err(EncoderFailed))
            else Answers(jpeg, rows, w, h, Ok(Tile(d.value, Reduced(w, k), Reduced(h, k), 0, 0)))
  {
    var n := 3 * k + q;
    assert n / 3 == k && n % 3 == q;
    assert d == Attempt(jpeg, rows, w, h, n);
    if d.None? {
      assert Encoded(jpeg, rows, w, h, n, Err(EncoderFailed));
    } else if !Oversized(d) {
      assert Encoded(jpeg, rows, w, h, n, Ok(Tile(d.value, Reduced(w, k), Reduced(h, k), 0, 0)));
    }
  }

  /** Lines 85-131: every quality of a size, then the next smaller size. */
  method Encode(jpeg: Encoder, img: array2<Pixel>) returns (r: Result<Tile, Fault>)
    ensures Answers(jpeg, RowsOf(img), img.Length1, img.Length0, r)
  {
    ghost var rows, w0, h0 := RowsOf(img), img.Length1, img.Length0;
    var cur := img;
    ghost var k := 0;
    while true
      invariant RowsOf(img) == rows
      invariant Reducible(w0, h0, k) && cur.Length1 == Reduced(w0, k) && cur.Length0 == Reduced(h0, k)
      invariant RowsOf(cur) == Scaled(rows, w0, h0, k)
      invariant AllOversized(jpeg, rows, w0, h0, 3 * k)
      decreases cur.Length1
    {
      for q := 0 to 3
        invariant RowsOf(img) == rows && RowsOf(cur) == Scaled(rows, w0, h0, k)
        invariant AllOversized(jpeg, rows, w0, h0, 3 * k + q)
      {
        var d := jpeg(RowsOf(cur), QUALITIES[q]);
        Tried(jpeg, rows, w0, h0, k, q, d);
        if d.None? {
          return Err(EncoderFailed);
        }
        if |d.value| <= MAX_IMAGE_BYTES {
          return Ok(Tile(d.value, cur.Length1, cur.Length0, 0, 0));
        }
      }
      var w, h := cur.Length1 * 3 / 4, cur.Length0 * 3 / 4;
      assert Reduced(w0, k + 1) == w && Reduced(h0, k + 1) == h;
      if w < MIN_WIDTH || h < 1 {
        assert (3 * k + 3) / 3 == k + 1;
        assert Encoded(jpeg, rows, w0, h0, 3 * k + 3, Err(CannotFit));
        return Err(CannotFit);
      }
      cur := Shrink(cur);
      k := k + 1;
    }
  }

  // ---- the tiling ----

  function TileStart(i: nat): nat { i * (SEGMENT_HEIGHT - OVERLAP) }

  function TileEnd(i: nat, height: nat): nat { Min(TileStart(i) + SEGMENT_HEIGHT, height) }

  /** How many tiles a captured height needs. */
  function TileCount(height: nat): nat {
    if height <= SEGMENT_HEIGHT then 1 else (height - OVERLAP + SEGMENT_HEIGHT - OVERLAP - 1) / (SEGMENT_HEIGHT - OVERLAP)
  }

  datatype Span = Span(from: int, to: int)

  /** A tiling of [0, height) from the top by spans that each end past the one before and share at least OVERLAP rows with it. */
  ghost predicate Tiling(spans: seq<Span>, height: nat) {
    && |spans| > 0
    && spans[0].from == 0
    && spans[|spans| - 1].to == height
    && (forall i :: 0 <= i < |spans| ==> spans[i].from < spans[i].to <= spans[i].from + SEGMENT_HEIGHT)
    && (forall i, j :: 0 <= i && j == i + 1 && j < |spans| ==> spans[j].from + OVERLAP <= spans[i].to && spans[i].to < spans[j].to)
  }

  function Spans(height: nat): (s: seq<Span>) {
    seq(TileCount(height), i requires i >= 0 => Span(TileStart(i), TileEnd(i, height)))
  }

  /** The tiles split a height in order: the first starts at the top, the last ends at the bottom, neighbours share exactly OVERLAP rows. */
  lemma SpansTile(height: nat)
    requires height >= 1
    ensures Tiling(Spans(height), height)
    ensures forall i, j :: 0 <= i && j == i + 1 && j < TileCount(height)
              ==> Spans(height)[i].to == Spans(height)[j].from + OVERLAP
  {
    var spans := Spans(height);
    forall i | 0 <= i < TileCount(height)
      ensures spans[i].from < spans[i].to <= spans[i].from + SEGMENT_HEIGHT
      ensures i + 1 < TileCount(height) ==> spans[i].to == TileStart(i) + SEGMENT_HEIGHT < height
      ensures i + 1 == TileCount(height) ==> spans[i].to == height
    {
      TileEnds(i, height);
    }
    forall i, j | 0 <= i && j == i + 1 && j < |spans|
      ensures spans[j].from + OVERLAP == spans[i].to && spans[i].to < spans[j].to
    {
      TileEnds(j, height);
    }
  }

  /** Only the last tile reaches the bottom. */
  lemma TileEnds(i: nat, height: nat)
    requires height >= 1 && i < TileCount(height)
    ensures TileStart(i) < TileEnd(i, height)
    ensures i > 0 ==> TileStart(i) + OVERLAP < height
    ensures i + 1 < TileCount(height) <==> TileStart(i) + SEGMENT_HEIGHT < height
    ensures i + 1 == TileCount(height) <==> TileEnd(i, height) == height
  {
  }

  lemma {:induction false} EndsWithin(spans: seq<Span>, height: nat, i: nat)
    requires Tiling(spans, height) && i < |spans|
    ensures spans[i].to <= TileStart(i) + SEGMENT_HEIGHT
  {
    if i > 0 {
      EndsWithin(spans, height, i - 1);
    }
  }

  /** No tiling with spans of that height and overlap has fewer spans. */
  lemma SpansAreFewest(spans: seq<Span>, height: nat)
    requires height >= 1 && Tiling(spans, height)
    ensures TileCount(height) <= |spans|
  {
    EndsWithin(spans, height, |spans| - 1);
  }

  /** Every row of the capture is in some tile. */
  lemma SpansCover(y: nat, height: nat) returns (i: nat)
    requires y < height
    ensures i < TileCount(height) && Spans(height)[i].from <= y < Spans(height)[i].to
  {
    SpansTile(height);
    i := Min(y / (SEGMENT_HEIGHT - OVERLAP), TileCount(height) - 1);
  }

  /** A permitted height never needs more tiles than the limit. */
  lemma SpansWithinLimit(height: nat)
    requires 1 <= height <= MAX_HEIGHT
    ensures 1 <= TileCount(height) <= MAX_SEGMENTS
  {
  }

  /** Tile i of a picture, with the attempt that made it. */
  predicate TileOf(jpeg: Encoder, rows: Rows, height: nat, i: nat, n: nat, r: Result<Tile, Fault>)
    requires Rect(rows, WIDTH, height) && i < TileCount(height) && height >= 1
  {
    TileEnds(i, height);
    var from, to := TileStart(i), TileEnd(i, height);
    Encoded(jpeg, rows[from..to], WIDTH, to - from, n,
            if r.Ok? then Ok(r.value.(yStart := 0, yEnd := 0)) else r)
    && (r.Ok? ==> r.value.yStart == from && r.value.yEnd == to)
  }

  method Crop(rows: Rows, height: nat, from: nat, to: nat) returns (crop: array2<Pixel>)
    requires Rect(rows, WIDTH, height) && from <= to <= height
    ensures crop.Length1 == WIDTH && crop.Length0 == to - from
    ensures RowsOf(crop) == rows[from..to]
  {
    crop := new Pixel[to - from, WIDTH]((y, x) requires 0 <= y < to - from && 0 <= x < WIDTH => rows[from + y][x]);
    forall y | 0 <= y < to - from ensures RowsOf(crop)[y] == rows[from..to][y] {
      assert forall x :: 0 <= x < WIDTH ==> RowsOf(crop)[y][x] == rows[from + y][x];
    }
  }

  predicate Acceptable(size: Size, pageWidth: int, pageHeight: int, height: int) {
    size.width == WIDTH && size.height == height && 1 <= height <= MAX_HEIGHT && pageWidth >= 1 && pageHeight >= height
  }

  /** The PNG decoder returns a picture of the size its header declares. */
  predicate PictureMatches(header: Option<Size>, picture: Option<Rows>) {
    if header.Some? && picture.Some? then
      var size := header.value;
      size.width >= 0 && size.height >= 0 && Rect(picture.value, size.width, size.height)
    else
      true
  }

  predicate TilesOf(jpeg: Encoder, rows: Rows, height: nat, tiles: seq<Tile>, attempts: seq<nat>)
    requires Rect(rows, WIDTH, height) && height >= 1
  {
    && |tiles| <= |attempts|
    && |tiles| <= TileCount(height)
    && forall i :: 0 <= i < |tiles| ==> TileOf(jpeg, rows, height, i, attempts[i], Ok(tiles[i]))
  }

  /** The answer for the next crop extends the tiles made so far. */
  lemma TilesGrow(jpeg: Encoder, rows: Rows, height: nat, tiles: seq<Tile>, attempts: seq<nat>, n: nat, r: Result<Tile, Fault>)
    requires Rect(rows, WIDTH, height) && height >= 1 && |tiles| == |attempts| < TileCount(height)
    requires TilesOf(jpeg, rows, height, tiles, attempts)
    requires var from, to := TileStart(|tiles|), TileEnd(|tiles|, height);
             from < to && Encoded(jpeg, rows[from..to], WIDTH, to - from, n, r)
    ensures r.Ok? ==> TilesOf(jpeg, rows, height,
                              tiles + [r.value.(yStart := TileStart(|tiles|), yEnd := TileEnd(|tiles|, height))], attempts + [n])
    ensures r.Err? ==> TilesOf(jpeg, rows, height, tiles, attempts + [n]) && TileOf(jpeg, rows, height, |tiles|, n, r)
  {
    TileEnds(|tiles|, height);
    var from, to := TileStart(|tiles|), TileEnd(|tiles|, height);
    if r.Ok? {
      assert r.value.(yStart := 0, yEnd := 0) == r.value;
      assert TileOf(jpeg, rows, height, |tiles|, n, Ok(r.value.(yStart := from, yEnd := to)));
    }
  }

  /**
   * What a capture owes for an acceptable source: every tile in order, or the fault of
   * the first tile that cannot be encoded.
   */
  predicate SplitInto(jpeg: Encoder, rows: Rows, height: nat, pageWidth: int, pageHeight: int,
                      tiles: seq<Tile>, attempts: seq<nat>, r: Result<Capture, Fault>)
    requires Rect(rows, WIDTH, height) && height >= 1
  {
    && TilesOf(jpeg, rows, height, tiles, attempts)
    && match r
       case Ok(capture) =>
         |tiles| == TileCount(height) && capture == Capture(pageWidth, pageHeight, height, tiles)
       case Err(fault) =>
         |tiles| < TileCount(height) && |tiles| < |attempts| && TileOf(jpeg, rows, height, |tiles|, attempts[|tiles|], Err(fault))
  }

  ghost predicate Captures(jpeg: Encoder, rows: Rows, height: nat, pageWidth: int, pageHeight: int, r: Result<Capture, Fault>)
    requires Rect(rows, WIDTH, height) && height >= 1
  {
    exists tiles, attempts :: SplitInto(jpeg, rows, height, pageWidth, pageHeight, tiles, attempts, r)
  }

  /** Lines 61-82: crops and encodes one tile after the other. */
  method CutTiles(jpeg: Encoder, rows: Rows, height: nat, pageWidth: int, pageHeight: int) returns (r: Result<Capture, Fault>)
    requires 1 <= height <= MAX_HEIGHT && Rect(rows, WIDTH, height)
    ensures Captures(jpeg, rows, height, pageWidth, pageHeight, r)
  {
    var out := [];
    ghost var attempts: seq<nat> := [];
    var y := 0;
    SpansWithinLimit(height);
    while y < height
      invariant |out| < TileCount(height) && y == TileStart(|out|) < height
      invariant |attempts| == |out| && TilesOf(jpeg, rows, height, out, attempts)
      decreases height - y
    {
      TileEnds(|out|, height);
      var end := Min(y + SEGMENT_HEIGHT, height);
      var crop := Crop(rows, height, y, end);
      var encoded := Encode(jpeg, crop);
      ghost var n: nat :| Encoded(jpeg, rows[y..end], WIDTH, end - y, n, encoded);
      if encoded.Err? {
        r := Err(encoded.error);
        TilesGrow(jpeg, rows, height, out, attempts, n, encoded);
        assert SplitInto(jpeg, rows, height, pageWidth, pageHeight, out, attempts + [n], r);
        return;
      }
      var tile := encoded.value.(yStart := y, yEnd := end);
      TilesGrow(jpeg, rows, height, out, attempts, n, encoded);
      out := out + [tile];
      attempts := attempts + [n];
      if |out| > MAX_SEGMENTS {
        return Err(SegmentLimit);
      }
      if end == height {
        break;
      }
      y := y + (SEGMENT_HEIGHT - OVERLAP);
    }
    r := Ok(Capture(pageWidth, pageHeight, height, out));
    assert SplitInto(jpeg, rows, height, pageWidth, pageHeight, out, attempts, r);
  }

  /** Lines 44-83. The source arrives as its length, its decoded header and its decoded picture. */
  method Split(jpeg: Encoder, length: nat, header: Option<Size>, picture: Option<Rows>,
               pageWidth: int, pageHeight: int, capturedHeight: int)
    returns (r: Result<Capture, Fault>)
    requires PictureMatches(header, picture)
    ensures if length > MAX_SOURCE_BYTES then r == Err(SourceTooLarge)
            else if header.None? then r == Err(BadHeader)
            else if !Acceptable(header.value, pageWidth, pageHeight, capturedHeight) then r == Err(UnexpectedDimensions)
            else if picture.None? then r == Err(BadPicture)
            else Captures(jpeg, picture.value, capturedHeight, pageWidth, pageHeight, r)
  {
    if length > MAX_SOURCE_BYTES {
      return Err(SourceTooLarge);
    }
    if header.None? {
      return Err(BadHeader);
    }
    var size := header.value;
    if size.width != WIDTH || size.height != capturedHeight || capturedHeight < 1 || capturedHeight > MAX_HEIGHT
       || pageWidth < 1 || pageHeight < capturedHeight {
      return Err(UnexpectedDimensions);
    }
    if picture.None? {
      return Err(BadPicture);
    }
    r := CutTiles(jpeg, picture.value, capturedHeight, pageWidth, pageHeight);
  }

  /**
   * What leaves a capture of a permitted height: one to ten tiles on exactly the spans of
   * the tiling, each within the byte limit. The segment-limit fault never comes out.
   */
  lemma SplitIsBounded(jpeg: Encoder, rows: Rows, height: nat, pageWidth: int, pageHeight: int, r: Result<Capture, Fault>)
    requires Rect(rows, WIDTH, height) && 1 <= height <= MAX_HEIGHT && Captures(jpeg, rows, height, pageWidth, pageHeight, r)
    ensures r.Err? ==> r.error in {EncoderFailed, CannotFit}
    ensures r.Ok? ==>
              var ts := r.value.tiles;
              && 1 <= |ts| <= MAX_SEGMENTS
              && (forall i :: 0 <= i < |ts| ==> |ts[i].data| <= MAX_IMAGE_BYTES && ts[i].width <= WIDTH)
              && seq(|ts|, i requires 0 <= i < |ts| => Span(ts[i].yStart, ts[i].yEnd)) == Spans(height)
  {
    SpansWithinLimit(height);
    var tiles: seq<Tile>, attempts: seq<nat> :| SplitInto(jpeg, rows, height, pageWidth, pageHeight, tiles, attempts, r);
    forall i | 0 <= i < |tiles| ensures |tiles[i].data| <= MAX_IMAGE_BYTES && tiles[i].width <= WIDTH {
      TileIsBounded(jpeg, rows, height, i, attempts[i], Ok(tiles[i]));
    }
  }

  lemma TileIsBounded(jpeg: Encoder, rows: Rows, height: nat, i: nat, n: nat, r: Result<Tile, Fault>)
    requires Rect(rows, WIDTH, height) && height >= 1 && i < TileCount(height) && TileOf(jpeg, rows, height, i, n, r)
    ensures n <= 18
    ensures r.Ok? ==> |r.value.data| <= MAX_IMAGE_BYTES && r.value.width <= WIDTH
  {
    TileEnds(i, height);
    var from, to := TileStart(i), TileEnd(i, height);
    EncodedIsBounded(jpeg, rows[from..to], to - from, n, if r.Ok? then Ok(r.value.(yStart := 0, yEnd := 0)) else r);
  }

  /** Every image of a capture shows the rows it says: it is what the encoder made of them at some size and quality. */
  lemma TileShowsItsRows(jpeg: Encoder, rows: Rows, height: nat, pageWidth: int, pageHeight: int, capture: Capture, i: nat)
    returns (n: nat)
    requires Rect(rows, WIDTH, height) && 1 <= height <= MAX_HEIGHT
    requires Captures(jpeg, rows, height, pageWidth, pageHeight, Ok(capture)) && i < |capture.tiles|
    ensures capture.pageWidth == pageWidth && capture.pageHeight == pageHeight && capture.capturedHeight == height
    ensures var t := capture.tiles[i];
            && t.yStart == 1300 * i < t.yEnd <= height
            && n <= 17 && Reducible(WIDTH, t.yEnd - t.yStart, n / 3)
            && jpeg(Scaled(rows[t.yStart..t.yEnd], WIDTH, t.yEnd - t.yStart, n / 3), [85, 70, 55][n % 3]) == Some(t.data)
  {
    var tiles: seq<Tile>, attempts: seq<nat> :| SplitInto(jpeg, rows, height, pageWidth, pageHeight, tiles, attempts, Ok(capture));
    n := attempts[i];
    assert TileOf(jpeg, rows, height, i, n, Ok(tiles[i]));
    TileEnds(i, height);
    var from, to := TileStart(i), TileEnd(i, height);
    ImageIsTheBest(jpeg, rows[from..to], to - from, n, tiles[i].(yStart := 0, yEnd := 0), 0, 85);
  }
}
