/// The tiled image store of src/image.hpp and src/image.cpp.  A `Tile` owns
/// up to four float vectors (colour, albedo and normal with three floats per
/// pixel, depth with one), an `Image` owns up to four flat buffers of the
/// same layout; tiles are cut out of the image on a grid and merged back
/// row by row.  Sizes are unbounded naturals.
module ImageStore {
  import opened IntArith

  /// The buffer flags: single bits, and ALL their union.
  const Color: bv8 := 1
  const Albedo: bv8 := 2
  const Normal: bv8 := 4
  const Depth: bv8 := 8
  const All: bv8 := Color | Albedo | Normal | Depth

  /// The flags are distinct single bits and ALL is exactly their union.
  lemma BufferFlags()
    ensures Color & Albedo == 0 && Color & Normal == 0 && Color & Depth == 0
    ensures Albedo & Normal == 0 && Albedo & Depth == 0 && Normal & Depth == 0
    ensures All == 15
  {
  }

  /// A zero-filled buffer of n floats.
  function Zeros(n: nat): (r: seq<real>)
    ensures |r| == n && forall j :: 0 <= j < n ==> r[j] == 0.0
  {
    seq(n, _ => 0.0)
  }

  /// The buffer a constructor allocates for a flag: n zeros when the flag
  /// is set, nothing otherwise.
  function Allocate(buffers: bv8, flag: bv8, n: nat): (r: seq<real>)
    ensures buffers & flag != 0 ==> r == Zeros(n)
    ensures buffers & flag == 0 ==> r == []
  {
    if buffers & flag != 0 then Zeros(n) else []
  }

  /// s with r, g, b stored at i, i + 1 and i + 2 (positions past the end
  /// are not stored).
  function Store3(s: seq<real>, i: nat, r: real, g: real, b: real): (t: seq<real>)
    ensures |t| == |s|
    ensures forall j :: 0 <= j < |s| ==>
      t[j] == (if j == i then r else if j == i + 1 then g else if j == i + 2 then b else s[j])
  {
    seq(|s|, j requires 0 <= j < |s| => if j == i then r else if j == i + 1 then g else if j == i + 2 then b else s[j])
  }

  /// s with r stored at i (a position past the end is not stored).
  function Store1(s: seq<real>, i: nat, r: real): (t: seq<real>)
    ensures |t| == |s|
    ensures forall j :: 0 <= j < |s| ==> t[j] == (if j == i then r else s[j])
  {
    seq(|s|, j requires 0 <= j < |s| => if j == i then r else s[j])
  }

  /// The row-major position y*width + x of a pixel.
  function PixelIndex(width: nat, x: nat, y: nat): nat
  {
    MulNonNegative(y, width);
    y * width + x
  }

  /// Offsets of in-range row-major coordinates stay below w * h.
  lemma RowMajorBound(w: nat, h: nat, x: nat, y: nat)
    requires x < w && y < h
    ensures y * w + x < w * h
  {
    MulStrictMonotone(y, h, w);
  }

  /// A rectangular piece of the image, with its own buffers.
  class Tile {
    var width: nat
    var height: nat
    var xoff: nat
    var yoff: nat
    var buffers: bv8
    var color: seq<real>
    var albedo: seq<real>
    var normal: seq<real>
    var depth: seq<real>

    /// Every vector is either unallocated or sized for the tile.
    ghost predicate Valid()
      reads this
    {
      (color == [] || |color| == width * height * 3) &&
      (albedo == [] || |albedo| == width * height * 3) &&
      (normal == [] || |normal| == width * height * 3) &&
      (depth == [] || |depth| == width * height)
    }

    /// Tile(width, height, xoff, yoff, buffers): allocate and zero exactly
    /// the buffers whose flag is set.
    constructor(width: nat, height: nat, xoff: nat, yoff: nat, buffers: bv8)
      ensures Valid()
      ensures this.width == width && this.height == height
      ensures this.xoff == xoff && this.yoff == yoff && this.buffers == buffers
      ensures color == Allocate(buffers, Color, width * height * 3)
      ensures albedo == Allocate(buffers, Albedo, width * height * 3)
      ensures normal == Allocate(buffers, Normal, width * height * 3)
      ensures depth == Allocate(buffers, Depth, width * height)
    {
      this.width := width;
      this.height := height;
      this.xoff := xoff;
      this.yoff := yoff;
      this.buffers := buffers;
      color := Allocate(buffers, Color, width * height * 3);
      albedo := Allocate(buffers, Albedo, width * height * 3);
      normal := Allocate(buffers, Normal, width * height * 3);
      depth := Allocate(buffers, Depth, width * height);
    }

    /// Tile::set(buffer, x, y, r, g, b): out-of-range coordinates and
    /// unallocated buffers change nothing; COLOR, ALBEDO and NORMAL store
    /// (r, g, b) at (y*width + x)*3; DEPTH stores r at y*width + x.
    method Set(buffer: bv8, x: nat, y: nat, r: real, g: real, b: real)
      requires Valid()
      modifies this
      ensures Valid()
      ensures width == old(width) && height == old(height) && xoff == old(xoff) && yoff == old(yoff)
      ensures buffers == old(buffers)
      ensures x >= width || y >= height ==>
        color == old(color) && albedo == old(albedo) && normal == old(normal) && depth == old(depth)
      ensures x < width && y < height ==>
        color == (if buffer == Color && old(color) != [] then Store3(old(color), PixelIndex(width, x, y) * 3, r, g, b) else old(color)) &&
        albedo == (if buffer == Albedo && old(albedo) != [] then Store3(old(albedo), PixelIndex(width, x, y) * 3, r, g, b) else old(albedo)) &&
        normal == (if buffer == Normal && old(normal) != [] then Store3(old(normal), PixelIndex(width, x, y) * 3, r, g, b) else old(normal)) &&
        depth == (if buffer == Depth && old(depth) != [] then Store1(old(depth), PixelIndex(width, x, y), r) else old(depth))
    {
      if x >= width || y >= height {
        return;
      }
      var i := PixelIndex(width, x, y) * 3;
      if buffer == Color && color != [] {
        color := Store3(color, i, r, g, b);
      } else if buffer == Albedo && albedo != [] {
        albedo := Store3(albedo, i, r, g, b);
      } else if buffer == Normal && normal != [] {
        normal := Store3(normal, i, r, g, b);
      } else if buffer == Depth && depth != [] {
        i := PixelIndex(width, x, y);
        depth := Store1(depth, i, r);
      }
    }
  }

  /// The elements Tile::set writes for an in-range pixel all lie inside an
  /// allocated buffer: (y*width + x)*3 + 2 below width*height*3 and
  /// y*width + x below width*height.
  lemma SetStaysInside(width: nat, height: nat, x: nat, y: nat)
    requires x < width && y < height
    ensures (y * width + x) * 3 + 2 < width * height * 3
    ensures y * width + x < width * height
  {
    RowMajorBound(width, height, x, y);
  }

  /// ceil(n / d), written as the source writes it.
  function CeilDiv(n: nat, d: nat): (r: nat)
    requires d > 0
    ensures r * d >= n
    ensures r > 0 ==> (r - 1) * d < n
    ensures n > 0 <==> r > 0
  {
    n / d + (if n % d != 0 then 1 else 0)
  }

  /// Where a tile sits and how large it is.
  datatype Geometry = Geometry(width: nat, height: nat, xoff: nat, yoff: nat)

  /// The length of the tile at grid position c along an axis of n pixels
  /// cut into count = ceil(n / ts) tiles: ts, except in the last position,
  /// where it is ts - (count*ts - n).
  function SpanLength(c: nat, ts: nat, n: nat): (l: nat)
    requires ts > 0
  {
    var count := CeilDiv(n, ts);
    if c == count - 1 then
      Distribute(count - 1, 1, ts);
      ts - (count * ts - n)
    else ts
  }

  /// get_tile(i): the tile at column i mod ceil(w/ts) and row i div ceil(w/ts).
  function TileGeometry(w: nat, h: nat, ts: nat, i: nat): (g: Geometry)
    requires ts > 0 && w > 0
  {
    var wide := CeilDiv(w, ts);
    Geometry(SpanLength(i % wide, ts, w), SpanLength(i / wide, ts, h), Offset(i % wide, ts), Offset(i / wide, ts))
  }

  /// Where the tile at grid position c starts along an axis: c * ts.
  function Offset(c: nat, ts: nat): (o: nat)
  {
    MulNonNegative(c, ts);
    c * ts
  }

  /// tile_count(): ceil(w / ts) * ceil(h / ts).
  function TileCount(w: nat, h: nat, ts: nat): nat
    requires ts > 0
  {
    CeilDiv(w, ts) * CeilDiv(h, ts)
  }

  /// Along one axis, the tile at grid position c < ceil(n / ts) is
  /// non-empty, is ts long except in the last position, and ends inside
  /// the axis, exactly at its end in the last position.
  lemma SpanInside(c: nat, ts: nat, n: nat)
    requires ts > 0 && c < CeilDiv(n, ts)
    ensures 0 < SpanLength(c, ts, n) <= ts
    ensures c * ts + SpanLength(c, ts, n) <= n
    ensures c < CeilDiv(n, ts) - 1 ==> SpanLength(c, ts, n) == ts
    ensures c == CeilDiv(n, ts) - 1 ==> c * ts + SpanLength(c, ts, n) == n
  {
    var count := CeilDiv(n, ts);
    Distribute(count - 1, 1, ts);
    if c < count - 1 {
      MulStrictMonotone(c, count - 1, ts);
    }
  }

  /// Along one axis, position p < n lies in the tile at grid position
  /// c < ceil(n / ts) exactly when p / ts == c, and p / ts is always a grid
  /// position.
  lemma SpanMembership(c: nat, ts: nat, n: nat, p: nat)
    requires ts > 0 && c < CeilDiv(n, ts) && p < n
    ensures c * ts <= p < c * ts + SpanLength(c, ts, n) <==> p / ts == c
  {
    SpanInside(c, ts, n);
    DivIff(p, ts, c);
  }

  lemma SpanOf(ts: nat, n: nat, p: nat)
    requires ts > 0 && p < n
    ensures 0 <= p / ts < CeilDiv(n, ts)
  {
    var q := p / ts;
    DivIff(p, ts, q);
    if CeilDiv(n, ts) <= q {
      MulMonotone(CeilDiv(n, ts), q, ts);
    }
  }

  /// Grid position i < wide*tall has a row i div wide inside the grid.
  lemma GridPosition(i: nat, wide: nat, tall: nat)
    requires 0 < wide && i < wide * tall
    ensures i / wide < tall && i % wide < wide
  {
    if tall <= i / wide {
      MulMonotone(tall, i / wide, wide);
    }
  }

  /// A tile of the grid lies inside the image and is non-empty.
  lemma TileInside(w: nat, h: nat, ts: nat, i: nat)
    requires ts > 0 && w > 0 && i < TileCount(w, h, ts)
    ensures var g := TileGeometry(w, h, ts, i);
      0 < g.width <= ts && 0 < g.height <= ts &&
      g.xoff + g.width <= w && g.yoff + g.height <= h
  {
    var wide := CeilDiv(w, ts);
    GridPosition(i, wide, CeilDiv(h, ts));
    GridTileInside(w, h, ts, i % wide, i / wide);
  }

  /// The tile at column cx and row cy of the grid lies inside the image and
  /// is non-empty.
  lemma GridTileInside(w: nat, h: nat, ts: nat, cx: nat, cy: nat)
    requires ts > 0 && cx < CeilDiv(w, ts) && cy < CeilDiv(h, ts)
    ensures var g := Geometry(SpanLength(cx, ts, w), SpanLength(cy, ts, h), Offset(cx, ts), Offset(cy, ts));
      0 < g.width <= ts && 0 < g.height <= ts &&
      g.xoff + g.width <= w && g.yoff + g.height <= h
  {
    SpanInside(cx, ts, w);
    SpanInside(cy, ts, h);
  }

  /// The grid position of the tile holding pixel (px, py).
  function TileOf(w: nat, ts: nat, px: nat, py: nat): nat
    requires ts > 0
  {
    Offset(py / ts, CeilDiv(w, ts)) + px / ts
  }

  predicate InTile(g: Geometry, px: nat, py: nat)
  {
    g.xoff <= px < g.xoff + g.width && g.yoff <= py < g.yoff + g.height
  }

  /// The tiles 0 .. tile_count()-1 partition the image: pixel (px, py)
  /// lies in tile i exactly when i is TileOf(px, py), which is in range.
  lemma TilesPartition(w: nat, h: nat, ts: nat, i: nat, px: nat, py: nat)
    requires ts > 0 && px < w && py < h && i < TileCount(w, h, ts)
    ensures TileOf(w, ts, px, py) < TileCount(w, h, ts)
    ensures InTile(TileGeometry(w, h, ts, i), px, py) <==> i == TileOf(w, ts, px, py)
  {
    var wide := CeilDiv(w, ts);
    var cx, cy := px / ts, py / ts;
    SpanOf(ts, w, px);
    SpanOf(ts, h, py);
    DivModOfSum(cy, wide, cx);
    assert TileOf(w, ts, px, py) == cy * wide + cx;
    TileOfInRange(w, h, ts, px, py);
    InTileIff(w, h, ts, i, px, py);
    DivMod(i, wide);
  }

  lemma TileOfInRange(w: nat, h: nat, ts: nat, px: nat, py: nat)
    requires ts > 0 && px < w && py < h
    ensures TileOf(w, ts, px, py) < TileCount(w, h, ts)
  {
    SpanOf(ts, w, px);
    SpanOf(ts, h, py);
    RowMajorBound(CeilDiv(w, ts), CeilDiv(h, ts), px / ts, py / ts);
  }

  /// Pixel (px, py) lies in tile i when its per-axis grid positions are
  /// the column and row of i.
  lemma InTileIff(w: nat, h: nat, ts: nat, i: nat, px: nat, py: nat)
    requires ts > 0 && px < w && py < h && i < TileCount(w, h, ts)
    ensures var wide := CeilDiv(w, ts);
      InTile(TileGeometry(w, h, ts, i), px, py) <==> px / ts == i % wide && py / ts == i / wide
  {
    var wide := CeilDiv(w, ts);
    GridPosition(i, wide, CeilDiv(h, ts));
    InGridTile(w, h, ts, i % wide, i / wide, px, py);
  }

  /// Pixel (px, py) lies in the tile at column cx and row cy exactly when
  /// its per-axis grid positions are cx and cy.
  lemma InGridTile(w: nat, h: nat, ts: nat, cx: nat, cy: nat, px: nat, py: nat)
    requires ts > 0 && px < w && py < h && cx < CeilDiv(w, ts) && cy < CeilDiv(h, ts)
    ensures InTile(Geometry(SpanLength(cx, ts, w), SpanLength(cy, ts, h), Offset(cx, ts), Offset(cy, ts)), px, py)
      <==> px / ts == cx && py / ts == cy
  {
    SpanMembership(cx, ts, w, px);
    SpanMembership(cy, ts, h, py);
  }

  /// piece written over s starting at off.
  function Splice(s: seq<real>, off: nat, piece: seq<real>): (t: seq<real>)
    requires off + |piece| <= |s|
    ensures |t| == |s|
    ensures forall j :: 0 <= j < |s| ==> t[j] == if off <= j < off + |piece| then piece[j - off] else s[j]
  {
    s[..off] + piece + s[off + |piece|..]
  }

  /// The shape of a merge: an image w pixels wide and h tall, a tile of
  /// g.width x g.height pixels at (g.xoff, g.yoff), k floats per pixel.
  predicate Fits(w: nat, h: nat, g: Geometry)
  {
    g.xoff + g.width <= w && g.yoff + g.height <= h
  }

  /// Where row r of the tile goes in the image buffer, and where it comes
  /// from in the tile buffer.
  function DstRow(w: nat, g: Geometry, k: nat, r: nat): nat
  {
    ((g.yoff + r) * w + g.xoff) * k
  }

  function SrcRow(g: Geometry, k: nat, r: nat): nat
  {
    (r * g.width) * k
  }

  lemma RowBounds(w: nat, h: nat, g: Geometry, k: nat, r: nat)
    requires Fits(w, h, g) && r < g.height
    ensures DstRow(w, g, k, r) + g.width * k <= w * h * k
    ensures SrcRow(g, k, r) + g.width * k <= g.width * g.height * k
  {
    DstRowBound(w, h, g, k, r);
    SrcRowBound(g, k, r);
  }

  /// Row r of a tile that fits ends inside the w*h*k image buffer.
  lemma DstRowBound(w: nat, h: nat, g: Geometry, k: nat, r: nat)
    requires Fits(w, h, g) && r < g.height
    ensures DstRow(w, g, k, r) + g.width * k <= w * h * k
  {
    var q := (g.yoff + r) * w + g.xoff;
    if g.width > 0 {
      RowMajorBound(w, h, g.xoff + g.width - 1, g.yoff + r);
    } else if w > 0 {
      MulStrictMonotone(g.yoff + r, h, w);
    }
    assert q + g.width <= w * h;
    MulMonotone(q + g.width, w * h, k);
    Distribute(q, g.width, k);
  }

  /// Row r < height of a tile ends inside its width*height*k buffer.
  lemma SrcRowBound(g: Geometry, k: nat, r: nat)
    requires r < g.height
    ensures SrcRow(g, k, r) + g.width * k <= g.width * g.height * k
  {
    if g.width > 0 {
      MulStrictMonotone(r, g.height, g.width);
    }
    MulMonotone(r * g.width + g.width, g.height * g.width, k);
    Distribute(r * g.width, g.width, k);
  }

  /// Every row of the tile has its place in a destination of n elements and
  /// its data in a source of m elements.
  predicate RowsFit(n: nat, m: nat, w: nat, g: Geometry, k: nat)
  {
    forall r :: 0 <= r < g.height ==>
      DstRow(w, g, k, r) + g.width * k <= n && SrcRow(g, k, r) + g.width * k <= m
  }

  /// A tile that fits the image has every row in place in buffers of
  /// w*h*k and width*height*k elements.
  lemma FitsRows(w: nat, h: nat, g: Geometry, k: nat)
    requires Fits(w, h, g)
    ensures RowsFit(w * h * k, g.width * g.height * k, w, g, k)
  {
    forall r | 0 <= r < g.height
      ensures DstRow(w, g, k, r) + g.width * k <= w * h * k
      ensures SrcRow(g, k, r) + g.width * k <= g.width * g.height * k
    {
      RowBounds(w, h, g, k, r);
    }
  }

  /// The image buffer after copying the first `rows` rows of the tile, as
  /// merge_tile's loop does one memcpy per row.
  function MergeRows(img: seq<real>, src: seq<real>, w: nat, h: nat, g: Geometry, k: nat, rows: nat): (r: seq<real>)
    requires Fits(w, h, g) && rows <= g.height
    requires |img| == w * h * k && |src| == g.width * g.height * k
    ensures |r| == |img|
  {
    if rows == 0 then img
    else
      FitsRows(w, h, g, k);
      var prev := MergeRows(img, src, w, h, g, k, rows - 1);
      var from := SrcRow(g, k, rows - 1);
      Splice(prev, DstRow(w, g, k, rows - 1), src[from..from + g.width * k])
  }

  /// The element of pixel (px, py), channel c, lies in the destination of
  /// row r exactly when the pixel is in that row of the tile.
  lemma {:induction false} ElementInRow(w: nat, g: Geometry, k: nat, r: nat, px: nat, py: nat, c: nat)
    requires g.xoff + g.width <= w && px < w && c < k
    ensures var j := ImageElement(w, k, px, py, c);
      DstRow(w, g, k, r) <= j < DstRow(w, g, k, r) + g.width * k <==>
      (py == g.yoff + r && g.xoff <= px < g.xoff + g.width)
    ensures var j := ImageElement(w, k, px, py, c);
      py == g.yoff + r && g.xoff <= px < g.xoff + g.width ==>
      j - DstRow(w, g, k, r) == (px - g.xoff) * k + c
  {
    var p := py * w + px;
    var q := (g.yoff + r) * w + g.xoff;
    assert ImageElement(w, k, px, py, c) == p * k + c;
    assert DstRow(w, g, k, r) == q * k;
    ScaledRange(p, q, g.width, k, c);
    PixelInRow(w, px, py, g.xoff, g.yoff + r, g.width);
  }

  /// Scaling by k elements per pixel: element c of pixel p lies in the
  /// elements of pixels q .. q+n-1 exactly when p does.
  lemma ScaledRange(p: nat, q: nat, n: nat, k: nat, c: nat)
    requires c < k
    ensures q * k <= p * k + c < q * k + n * k <==> q <= p < q + n
    ensures q <= p ==> p * k + c - q * k == (p - q) * k + c
  {
    Distribute(p, 1, k);
    Distribute(q, n, k);
    if q <= p {
      Distribute(p - q, q, k);
    }
    if q <= p < q + n {
      MulMonotone(q, p, k);
      MulMonotone(p + 1, q + n, k);
    } else if p < q {
      MulMonotone(p + 1, q, k);
    } else {
      MulMonotone(q + n, p, k);
    }
  }

  /// Pixel (px, py) lies between (x0, y) and (x0 + n, y) in row-major order
  /// exactly when it is in row y between those columns.
  lemma PixelInRow(w: nat, px: nat, py: nat, x0: nat, y: nat, n: nat)
    requires px < w && x0 + n <= w
    ensures y * w + x0 <= py * w + px < y * w + x0 + n <==> py == y && x0 <= px < x0 + n
  {
    if y * w + x0 <= py * w + px < y * w + x0 + n {
      DivModOfSum(py, w, px);
      MulNonNegative(y, w);
      DivIff(py * w + px, w, y);
    }
  }

  /// Row-major order: pixel (px, py) precedes (x, y) in the same row when
  /// px < x, and crosses into another row only when the rows differ.
  lemma PixelRowOrder(w: nat, px: nat, py: nat, x: nat, y: nat)
    requires px < w && x <= w
    ensures py == y ==> (py * w + px < y * w + x <==> px < x)
  {
  }

  /// One more row: an element inside the destination of row rows-1 takes
  /// the corresponding element of that tile row, every other element keeps
  /// its value.
  lemma MergeRowsStep(img: seq<real>, src: seq<real>, w: nat, h: nat, g: Geometry, k: nat, rows: nat, j: nat)
    requires Fits(w, h, g) && 0 < rows <= g.height
    requires |img| == w * h * k && |src| == g.width * g.height * k
    requires j < |img|
    ensures DstRow(w, g, k, rows - 1) + g.width * k <= |img|
    ensures SrcRow(g, k, rows - 1) + g.width * k <= |src|
    ensures MergeRows(img, src, w, h, g, k, rows)[j] ==
      var d := DstRow(w, g, k, rows - 1);
      if d <= j < d + g.width * k then src[SrcRow(g, k, rows - 1) + (j - d)]
      else MergeRows(img, src, w, h, g, k, rows - 1)[j]
  {
    RowBounds(w, h, g, k, rows - 1);
  }

  /// The source element of pixel (px, py), channel c, of a pixel inside
  /// the tile lies inside the tile's buffer.
  lemma SourceElement(w: nat, h: nat, g: Geometry, k: nat, px: nat, py: nat, c: nat)
    requires Fits(w, h, g) && px < w && c < k && InTile(g, px, py)
    ensures SrcRow(g, k, py - g.yoff) + (px - g.xoff) * k + c < g.width * g.height * k
  {
    RowBounds(w, h, g, k, py - g.yoff);
    MulStrictMonotone(px - g.xoff, g.width, k);
  }

  /// Where channel c of pixel (px, py) sits in an image buffer w pixels wide
  /// with k floats per pixel.
  function ImageElement(w: nat, k: nat, px: nat, py: nat, c: nat): nat
  {
    (py * w + px) * k + c
  }

  /// Where channel c of image pixel (px, py) sits in the buffer of tile g.
  function TileElement(g: Geometry, k: nat, px: nat, py: nat, c: nat): nat
    requires g.xoff <= px && g.yoff <= py
  {
    MulNonNegative(px - g.xoff, k);
    SrcRow(g, k, py - g.yoff) + (px - g.xoff) * k + c
  }

  /// The tile keeps its own pixels in the row-major layout Tile::set writes:
  /// image pixel (px, py) is tile pixel (px - xoff, py - yoff).
  lemma TileElementLayout(g: Geometry, k: nat, px: nat, py: nat, c: nat)
    requires g.xoff <= px && g.yoff <= py
    ensures TileElement(g, k, px, py, c) == ImageElement(g.width, k, px - g.xoff, py - g.yoff, c)
  {
    Distribute((py - g.yoff) * g.width, px - g.xoff, k);
  }

  /// merge_tile copies tile pixel (x, y) to image pixel (xoff + x, yoff + y)
  /// for every row already copied and leaves every other element alone.
  lemma {:induction false} MergePixel(img: seq<real>, src: seq<real>, w: nat, h: nat, g: Geometry, k: nat,
                                      rows: nat, px: nat, py: nat, c: nat)
    requires Fits(w, h, g) && rows <= g.height
    requires |img| == w * h * k && |src| == g.width * g.height * k
    requires px < w && py < h && c < k
    ensures ImageElement(w, k, px, py, c) < |img|
    ensures InTile(g, px, py) ==> TileElement(g, k, px, py, c) < |src|
    ensures MergeRows(img, src, w, h, g, k, rows)[ImageElement(w, k, px, py, c)] ==
        if InTile(g, px, py) && py < g.yoff + rows
        then src[TileElement(g, k, px, py, c)]
        else img[ImageElement(w, k, px, py, c)]
  {
    ElementBound(w, h, k, px, py, c);
    if InTile(g, px, py) {
      SourceElement(w, h, g, k, px, py, c);
    }
    if rows > 0 {
      MergePixel(img, src, w, h, g, k, rows - 1, px, py, c);
      MergePixelStep(img, src, w, h, g, k, rows, px, py, c);
    }
  }

  /// Copying row rows-1 gives pixel (px, py) the tile's value exactly when
  /// it lies in that row of the tile.
  lemma MergePixelStep(img: seq<real>, src: seq<real>, w: nat, h: nat, g: Geometry, k: nat,
                       rows: nat, px: nat, py: nat, c: nat)
    requires Fits(w, h, g) && 0 < rows <= g.height
    requires |img| == w * h * k && |src| == g.width * g.height * k
    requires px < w && py < h && c < k
    requires ImageElement(w, k, px, py, c) < |img|
    requires InTile(g, px, py) ==> TileElement(g, k, px, py, c) < |src|
    requires MergeRows(img, src, w, h, g, k, rows - 1)[ImageElement(w, k, px, py, c)] ==
        if InTile(g, px, py) && py < g.yoff + (rows - 1)
        then src[TileElement(g, k, px, py, c)]
        else img[ImageElement(w, k, px, py, c)]
    ensures MergeRows(img, src, w, h, g, k, rows)[ImageElement(w, k, px, py, c)] ==
        if InTile(g, px, py) && py < g.yoff + rows
        then src[TileElement(g, k, px, py, c)]
        else img[ImageElement(w, k, px, py, c)]
  {
    var j := ImageElement(w, k, px, py, c);
    var d := DstRow(w, g, k, rows - 1);
    MergeRowsStep(img, src, w, h, g, k, rows, j);
    ElementInRow(w, g, k, rows - 1, px, py, c);
    if d <= j < d + g.width * k {
      assert InTile(g, px, py) && py == g.yoff + (rows - 1);
      assert SrcRow(g, k, rows - 1) + (j - d) == TileElement(g, k, px, py, c);
    } else {
      assert !(InTile(g, px, py) && py == g.yoff + (rows - 1));
    }
  }

  lemma ElementBound(w: nat, h: nat, k: nat, px: nat, py: nat, c: nat)
    requires px < w && py < h && c < k
    ensures (py * w + px) * k + c < w * h * k
  {
    RowMajorBound(w, h, px, py);
    MulStrictMonotone(py * w + px, w * h, k);
  }

  /// The image: its size, tiling and up to four flat buffers (null when the
  /// flag was not given).
  class Image {
    var width: nat
    var height: nat
    var tileSize: nat
    var buffers: bv8
    var color: array?<real>
    var albedo: array?<real>
    var normal: array?<real>
    var depth: array?<real>

    /// Each buffer exists exactly when its flag is set, has its size, and
    /// no two buffers share storage.
    ghost predicate Valid()
      reads this
    {
      (color != null <==> buffers & Color != 0) &&
      (albedo != null <==> buffers & Albedo != 0) &&
      (normal != null <==> buffers & Normal != 0) &&
      (depth != null <==> buffers & Depth != 0) &&
      (color != null ==> color.Length == width * height * 3) &&
      (albedo != null ==> albedo.Length == width * height * 3) &&
      (normal != null ==> normal.Length == width * height * 3) &&
      (depth != null ==> depth.Length == width * height) &&
      (color != null && albedo != null ==> color != albedo) &&
      (color != null && normal != null ==> color != normal) &&
      (color != null && depth != null ==> color != depth) &&
      (albedo != null && normal != null ==> albedo != normal) &&
      (albedo != null && depth != null ==> albedo != depth) &&
      (normal != null && depth != null ==> normal != depth)
    }

    /// Image(width, height, tile_size, buffers): allocate and zero exactly
    /// the buffers whose flag is set.
    constructor(width: nat, height: nat, tileSize: nat, buffers: bv8)
      ensures Valid()
      ensures this.width == width && this.height == height
      ensures this.tileSize == tileSize && this.buffers == buffers
      ensures color != null ==> fresh(color) && color[..] == Zeros(width * height * 3)
      ensures albedo != null ==> fresh(albedo) && albedo[..] == Zeros(width * height * 3)
      ensures normal != null ==> fresh(normal) && normal[..] == Zeros(width * height * 3)
      ensures depth != null ==> fresh(depth) && depth[..] == Zeros(width * height)
    {
      this.width := width;
      this.height := height;
      this.tileSize := tileSize;
      this.buffers := buffers;
      color := null;
      albedo := null;
      normal := null;
      depth := null;
      new;
      if buffers & Color != 0 {
        color := new real[width * height * 3](_ => 0.0);
      }
      if buffers & Albedo != 0 {
        albedo := new real[width * height * 3](_ => 0.0);
      }
      if buffers & Normal != 0 {
        normal := new real[width * height * 3](_ => 0.0);
      }
      if buffers & Depth != 0 {
        depth := new real[width * height](_ => 0.0);
      }
    }

    /// get_buffer(buffer): that buffer, or null for an unallocated buffer or
    /// a value that names no single buffer.
    function GetBuffer(buffer: bv8): (r: array?<real>)
      reads this
      ensures buffer == Color ==> r == color
      ensures buffer == Albedo ==> r == albedo
      ensures buffer == Normal ==> r == normal
      ensures buffer == Depth ==> r == depth
      ensures buffer != Color && buffer != Albedo && buffer != Normal && buffer != Depth ==> r == null
    {
      if buffer == Color then color
      else if buffer == Albedo then albedo
      else if buffer == Normal then normal
      else if buffer == Depth then depth
      else null
    }

    /// size() = width * height: the pixel count, so each colour buffer
    /// holds three floats per pixel and the depth buffer one.
    function Size(): (r: nat)
      reads this
      ensures Valid() && color != null ==> color.Length == 3 * r
      ensures Valid() && albedo != null ==> albedo.Length == 3 * r
      ensures Valid() && normal != null ==> normal.Length == 3 * r
      ensures Valid() && depth != null ==> depth.Length == r
    {
      width * height
    }

    /// get_tile(i): a fresh tile with the grid geometry of i and the image's
    /// buffer flags.
    method GetTile(i: nat) returns (t: Tile)
      requires tileSize > 0 && width > 0
      ensures fresh(t) && t.Valid()
      ensures Geometry(t.width, t.height, t.xoff, t.yoff) == TileGeometry(width, height, tileSize, i)
      ensures t.buffers == buffers
    {
      var wide := CeilDiv(width, tileSize);
      var x, y := i % wide, i / wide;
      t := new Tile(SpanLength(x, tileSize, width), SpanLength(y, tileSize, height), Offset(x, tileSize), Offset(y, tileSize), buffers);
    }

    /// get_tiles(): tile_count() fresh tiles, the i-th with the geometry of
    /// get_tile(i).
    method GetTiles() returns (tiles: seq<Tile>)
      requires tileSize > 0
      ensures |tiles| == TileCount(width, height, tileSize)
      ensures forall i :: 0 <= i < |tiles| ==>
        width > 0 && fresh(tiles[i]) && tiles[i].Valid() && tiles[i].buffers == buffers &&
        Geometry(tiles[i].width, tiles[i].height, tiles[i].xoff, tiles[i].yoff) == TileGeometry(width, height, tileSize, i)
    {
      tiles := [];
      var count := TileCount(width, height, tileSize);
      if width == 0 {
        assert CeilDiv(width, tileSize) == 0;
      }
      var i := 0;
      while i < count
        invariant 0 <= i <= count
        invariant count > 0 ==> width > 0
        invariant |tiles| == i
        invariant forall j :: 0 <= j < i ==>
          width > 0 && fresh(tiles[j]) && tiles[j].Valid() && tiles[j].buffers == buffers &&
          Geometry(tiles[j].width, tiles[j].height, tiles[j].xoff, tiles[j].yoff) == TileGeometry(width, height, tileSize, j)
      {
        // The loop body builds exactly the tile get_tile(i) builds.
        var t := GetTile(i);
        tiles := tiles + [t];
        i := i + 1;
      }
    }

    /// merge_tile(tile): for each row of the tile, copy it into every image
    /// buffer for which the tile holds data.
    method MergeTile(tile: Tile)
      requires Valid() && tile.Valid()
      requires Fits(width, height, Geometry(tile.width, tile.height, tile.xoff, tile.yoff))
      requires tile.color != [] ==> color != null
      requires tile.albedo != [] ==> albedo != null
      requires tile.normal != [] ==> normal != null
      requires tile.depth != [] ==> depth != null
      modifies color, albedo, normal, depth
      ensures var g := Geometry(tile.width, tile.height, tile.xoff, tile.yoff);
        (color != null ==> Merged(color[..], old(color[..]), tile.color, width, height, g, 3, g.height)) &&
        (albedo != null ==> Merged(albedo[..], old(albedo[..]), tile.albedo, width, height, g, 3, g.height)) &&
        (normal != null ==> Merged(normal[..], old(normal[..]), tile.normal, width, height, g, 3, g.height)) &&
        (depth != null ==> Merged(depth[..], old(depth[..]), tile.depth, width, height, g, 1, g.height))
    {
      var g := Geometry(tile.width, tile.height, tile.xoff, tile.yoff);
      MergeBuffers(color, albedo, normal, depth, width, height, g, tile.color, tile.albedo, tile.normal, tile.depth);
    }
  }

  /// The loop of merge_tile over the image buffers c, al, n and d (color,
  /// albedo, normal, depth): row by row, every buffer for which the tile
  /// holds data receives that row.
  method MergeBuffers(c: array?<real>, al: array?<real>, n: array?<real>, d: array?<real>, w: nat, h: nat, g: Geometry,
                      tc: seq<real>, ta: seq<real>, tn: seq<real>, td: seq<real>)
    requires Fits(w, h, g)
    requires c != null ==> c.Length == w * h * 3
    requires al != null ==> al.Length == w * h * 3
    requires n != null ==> n.Length == w * h * 3
    requires d != null ==> d.Length == w * h
    requires tc != [] ==> c != null && |tc| == g.width * g.height * 3
    requires ta != [] ==> al != null && |ta| == g.width * g.height * 3
    requires tn != [] ==> n != null && |tn| == g.width * g.height * 3
    requires td != [] ==> d != null && |td| == g.width * g.height
    requires c != null && al != null ==> c != al
    requires c != null && n != null ==> c != n
    requires c != null && d != null ==> c != d
    requires al != null && n != null ==> al != n
    requires al != null && d != null ==> al != d
    requires n != null && d != null ==> n != d
    modifies c, al, n, d
    ensures c != null ==> Merged(c[..], old(c[..]), tc, w, h, g, 3, g.height)
    ensures al != null ==> Merged(al[..], old(al[..]), ta, w, h, g, 3, g.height)
    ensures n != null ==> Merged(n[..], old(n[..]), tn, w, h, g, 3, g.height)
    ensures d != null ==> Merged(d[..], old(d[..]), td, w, h, g, 1, g.height)
  {
    ghost var c0 := if c != null then c[..] else [];
    ghost var a0 := if al != null then al[..] else [];
    ghost var n0 := if n != null then n[..] else [];
    ghost var d0 := if d != null then d[..] else [];
    assert w * h * 1 == w * h && g.width * g.height * 1 == g.width * g.height;
    var y := 0;
    while y < g.height
      invariant 0 <= y <= g.height
      invariant c != null ==> Merged(c[..], c0, tc, w, h, g, 3, y)
      invariant al != null ==> Merged(al[..], a0, ta, w, h, g, 3, y)
      invariant n != null ==> Merged(n[..], n0, tn, w, h, g, 3, y)
      invariant d != null ==> Merged(d[..], d0, td, w, h, g, 1, y)
    {
      MergeBufferRow(c, tc, w, h, g, 3, y, c0);
      MergeBufferRow(al, ta, w, h, g, 3, y, a0);
      MergeBufferRow(n, tn, w, h, g, 3, y, n0);
      MergeBufferRow(d, td, w, h, g, 1, y, d0);
      y := y + 1;
    }
  }

  /// A buffer holding cur, which held base before the merge, holds the
  /// first `rows` rows of the tile's src merged in (or still base, when the
  /// tile has no such buffer).
  ghost predicate Merged(cur: seq<real>, base: seq<real>, src: seq<real>, w: nat, h: nat, g: Geometry, k: nat, rows: nat)
  {
    if src != [] then
      Fits(w, h, g) && rows <= g.height &&
      |base| == w * h * k && |src| == g.width * g.height * k &&
      cur == MergeRows(base, src, w, h, g, k, rows)
    else cur == base
  }

  /// One buffer's share of an iteration of merge_tile's loop: when the tile
  /// holds data for the buffer, its row y is copied in.
  method MergeBufferRow(a: array?<real>, src: seq<real>, w: nat, h: nat, g: Geometry, k: nat, y: nat, ghost base: seq<real>)
    requires Fits(w, h, g) && y < g.height
    requires src != [] ==> a != null
    requires a != null ==> Merged(a[..], base, src, w, h, g, k, y)
    modifies a
    ensures a != null ==> Merged(a[..], base, src, w, h, g, k, y + 1)
  {
    if src != [] {
      CopyRow(a, src, w, h, g, k, y, base);
    }
  }

  /// One buffer's share of an iteration of merge_tile's loop: copy
  /// tile.width*k floats from src + t*k to dst + i*k, where t = y*tile.width
  /// (SrcRow) and i = (yoff + y)*width + xoff (DstRow).
  method CopyRow(dst: array<real>, src: seq<real>, w: nat, h: nat, g: Geometry, k: nat, y: nat, ghost base: seq<real>)
    requires Fits(w, h, g) && y < g.height
    requires dst.Length == w * h * k && |base| == w * h * k && |src| == g.width * g.height * k
    requires dst[..] == MergeRows(base, src, w, h, g, k, y)
    modifies dst
    ensures dst[..] == MergeRows(base, src, w, h, g, k, y + 1)
  {
    RowBounds(w, h, g, k, y);
    Memcpy(dst, DstRow(w, g, k, y), src, SrcRow(g, k, y), g.width * k);
  }

  /// memcpy(dst + off, src + from, n floats).
  method Memcpy(dst: array<real>, off: nat, src: seq<real>, from: nat, n: nat)
    requires off + n <= dst.Length && from + n <= |src|
    modifies dst
    ensures dst[..] == Splice(old(dst[..]), off, src[from..from + n])
  {
    forall j | off <= j < off + n {
      dst[j] := src[from + (j - off)];
    }
  }
}
