/// The per-pixel random number generator and the tile and index arithmetic
/// of src/render.hpp.  The generator state is four 32-bit words, stepped
/// with three Tausworthe components and one linear congruential component;
/// the image size is three 32-bit words (width, height, tile size).
module Render {
  import opened SdfOps
  import opened IntArith

  const U32: int := 0x1_0000_0000

  /// An unsigned 32-bit value held as an integer.
  newtype u32 = x: int | 0 <= x < 0x1_0000_0000

  /// One Tausworthe step: ((z & m) << s3) ^ (((z << s1) ^ z) >> s2), with
  /// shifts that drop the bits pushed out of the word.
  function TausStep(z: bv32, s1: bv32, s2: bv32, s3: bv32, m: bv32): bv32
    requires s1 < 32 && s2 < 32 && s3 < 32
  {
    var b := ((z << s1) ^ z) >> s2;
    ((z & m) << s3) ^ b
  }

  /// One linear congruential step: a * z + c, wrapping at 2^32.
  function LcgStep(z: bv32, a: bv32, c: bv32): bv32
  {
    a * z + c
  }

  /// The state after one call to random.
  function NextState(s: seq<bv32>): (r: seq<bv32>)
    requires |s| == 4
    ensures |r| == 4
  {
    [TausStep(s[0], 13, 19, 12, 0xFFFF_FFFE),
     TausStep(s[1], 2, 25, 4, 0xFFFF_FFF8),
     TausStep(s[2], 3, 11, 17, 0xFFFF_FFF0),
     LcgStep(s[3], 1664525, 1013904223)]
  }

  /// The 32-bit word random scales into [0, 1): the exclusive or of the new state.
  function Draw(s: seq<bv32>): bv32
    requires |s| == 4
  {
    s[0] ^ s[1] ^ s[2] ^ s[3]
  }

  /// random(state): replace the four state words in place and return the
  /// word the float draw is made from.
  method Random(state: array<bv32>) returns (draw: bv32)
    requires state.Length == 4
    modifies state
    ensures state[..] == NextState(old(state[..]))
    ensures draw == Draw(state[..])
  {
    state[0] := TausStep(state[0], 13, 19, 12, 0xFFFF_FFFE);
    state[1] := TausStep(state[1], 2, 25, 4, 0xFFFF_FFF8);
    state[2] := TausStep(state[2], 3, 11, 17, 0xFFFF_FFF0);
    state[3] := LcgStep(state[3], 1664525, 1013904223);
    draw := Draw(state[..]);
  }

  /// Each new word depends only on the same old word, and equal states give
  /// equal successors and equal draws.
  lemma NextStatePerWord(s: seq<bv32>, t: seq<bv32>, i: nat)
    requires |s| == 4 && |t| == 4 && i < 4
    requires s[i] == t[i]
    ensures NextState(s)[i] == NextState(t)[i]
  {
  }

  /// A Tausworthe component whose seed has no bit under its mask collapses
  /// to zero, and zero is a fixed point: seeds must be at least 2, 8 and 16.
  lemma TausSmallSeedsCollapse(z: bv32)
    ensures z < 2 ==> TausStep(z, 13, 19, 12, 0xFFFF_FFFE) == 0
    ensures z < 8 ==> TausStep(z, 2, 25, 4, 0xFFFF_FFF8) == 0
    ensures z < 16 ==> TausStep(z, 3, 11, 17, 0xFFFF_FFF0) == 0
  {
  }

  /// The image size triple (width, height, tile size).
  datatype Size = Size(w: u32, h: u32, ts: u32)

  /// A tile rectangle [x0, x1) x [y0, y1).
  datatype Rect = Rect(x0: u32, y0: u32, x1: u32, y1: u32)

  function Wrap(x: int): u32
  {
    (x % U32) as u32
  }

  function MinU(a: u32, b: u32): u32 { if a < b then a else b }

  lemma WrapSmall(x: int)
    requires 0 <= x < U32
    ensures Wrap(x) as int == x
  {
  }

  /// One axis of a tile: [start, end).
  datatype Span = Span(start: u32, end: u32)

  /// One axis of Image::tile as written: start = id * ts and end = start + ts
  /// are computed in 32 bits, then the end is clamped to the image extent n.
  function SpanAsWritten(i: u32, ts: u32, n: u32): (r: Span)
    ensures r.end <= n
  {
    SpanFromAsWritten(Wrap(i as int * ts as int), ts, n)
  }

  function SpanFromAsWritten(x: u32, ts: u32, n: u32): (r: Span)
    ensures r.end <= n
  {
    Span(x, MinU(Wrap(x as int + ts as int), n))
  }

  /// Image::tile(id) as written.
  function TileAsWritten(size: Size, i: u32, j: u32): (r: Rect)
    ensures r.x1 <= size.w && r.y1 <= size.h
  {
    var sx := SpanAsWritten(i, size.ts, size.w);
    var sy := SpanAsWritten(j, size.ts, size.h);
    Rect(sx.start, sy.start, sx.end, sy.end)
  }

  /// tile_size(): (ceil(w / ts), ceil(h / ts)) as the source computes it.
  function TileGrid(size: Size): (r: (u32, u32))
    requires size.ts > 0
  {
    (CeilDiv(size.w, size.ts), CeilDiv(size.h, size.ts))
  }

  /// n / d rounded up, written as the source writes it.
  function CeilDiv(n: u32, d: u32): (r: u32)
    requires d > 0
    ensures (r as int) * (d as int) >= n as int
    ensures r > 0 ==> (r as int - 1) * (d as int) < n as int
  {
    n / d + (if n % d != 0 then 1 else 0)
  }

  /// The 32-bit end start + ts wraps when the last column starts within ts
  /// of 2^32, and then a tile whose id is inside the grid comes out reversed:
  /// width 0xFFFF_FFFF with tile size 0x8000_0000.
  lemma TileWrapsAtTheTop()
    ensures var size := Size(0xFFFF_FFFF, 1, 0x8000_0000);
      TileGrid(size).0 == 2 &&
      TileAsWritten(size, 1, 0).x0 == 0x8000_0000 &&
      TileAsWritten(size, 1, 0).x1 == 0
  {
  }

  /// One axis of a tile with the end clamped before it can wrap.
  function TileSpan(i: u32, ts: u32, n: u32): (r: Span)
    ensures r.end <= n
  {
    SpanFrom(Wrap(i as int * ts as int), ts, n)
  }

  function SpanFrom(x: u32, ts: u32, n: u32): (r: Span)
    ensures r.end <= n
  {
    var e := x as int + ts as int;
    Span(x, if e < n as int then e as u32 else n)
  }

  lemma SpanFromAgrees(x: u32, ts: u32, n: u32)
    requires x as int + ts as int < U32
    ensures SpanFrom(x, ts, n) == SpanFromAsWritten(x, ts, n)
  {
    WrapSmall(x as int + ts as int);
  }

  /// Image::tile(id) with each end clamped before it can wrap.
  function Tile(size: Size, i: u32, j: u32): (r: Rect)
    ensures r.x1 <= size.w && r.y1 <= size.h
  {
    var sx := TileSpan(i, size.ts, size.w);
    var sy := TileSpan(j, size.ts, size.h);
    Rect(sx.start, sy.start, sx.end, sy.end)
  }

  /// Where id * ts + ts fits in 32 bits, the clamped span is the source's.
  lemma SpanAgreesWithoutOverflow(i: u32, ts: u32, n: u32)
    requires i as int * ts as int + ts as int < U32
    ensures TileSpan(i, ts, n) == SpanAsWritten(i, ts, n)
  {
    var x := i as int * ts as int;
    MulMonotone(0, i as int, ts as int);
    WrapSmall(x);
    SpanFromAgrees(Wrap(x), ts, n);
  }

  /// Where nothing overflows, Tile agrees with the source's arithmetic.
  lemma TileAgreesWithoutOverflow(size: Size, i: u32, j: u32)
    requires i as int * size.ts as int + size.ts as int < U32
    requires j as int * size.ts as int + size.ts as int < U32
    ensures Tile(size, i, j) == TileAsWritten(size, i, j)
  {
    SpanAgreesWithoutOverflow(i, size.ts, size.w);
    SpanAgreesWithoutOverflow(j, size.ts, size.h);
  }

  /// An index inside the grid of one axis yields a non-empty span inside
  /// the extent, starting at id * ts.
  lemma SpanInsideGridIsNonEmpty(i: u32, ts: u32, n: u32)
    requires ts > 0 && i < CeilDiv(n, ts)
    ensures TileSpan(i, ts, n).start as int == i as int * ts as int
    ensures TileSpan(i, ts, n).start < TileSpan(i, ts, n).end <= n
  {
    CeilBelow(n, ts, i);
    WrapSmall(i as int * ts as int);
  }

  /// Every id inside the tile grid yields a non-empty tile inside the image.
  lemma TileInsideGridIsNonEmpty(size: Size, i: u32, j: u32)
    requires size.ts > 0
    requires i < TileGrid(size).0 && j < TileGrid(size).1
    ensures var r := Tile(size, i, j);
      r.x0 < r.x1 <= size.w && r.y0 < r.y1 <= size.h &&
      r.x0 as int == i as int * size.ts as int && r.y0 as int == j as int * size.ts as int
  {
    SpanInsideGridIsNonEmpty(i, size.ts, size.w);
    SpanInsideGridIsNonEmpty(j, size.ts, size.h);
  }

  /// An index below ceil(n / d) starts strictly inside [0, n).
  lemma CeilBelow(n: u32, d: u32, i: u32)
    requires d > 0 && i < CeilDiv(n, d)
    ensures i as int * d as int < n as int
  {
    var r := CeilDiv(n, d);
    assert (r as int - 1) * (d as int) < n as int;
    MulMonotone(i as int, r as int - 1, d as int);
  }

  /// Image::idx(c) = c1 * w + c0, computed in 32 bits.
  function Idx(size: Size, c0: u32, c1: u32): u32
  {
    Wrap(c1 as int * size.w as int + c0 as int)
  }

  /// For in-range coordinates of an image with fewer than 2^32 pixels, idx
  /// does not wrap and is below w * h.
  lemma IdxInRange(size: Size, c0: u32, c1: u32)
    requires size.w as int * size.h as int < U32
    requires c0 < size.w && c1 < size.h
    ensures Idx(size, c0, c1) as int == c1 as int * size.w as int + c0 as int
    ensures (Idx(size, c0, c1) as int) < size.w as int * size.h as int
  {
    RowMajorBound(size.w as int, size.h as int, c0 as int, c1 as int);
    WrapSmall(c1 as int * size.w as int + c0 as int);
  }

  /// idx is injective on in-range coordinates.
  lemma IdxInjective(size: Size, c0: u32, c1: u32, d0: u32, d1: u32)
    requires size.w as int * size.h as int < U32
    requires c0 < size.w && c1 < size.h && d0 < size.w && d1 < size.h
    requires Idx(size, c0, c1) == Idx(size, d0, d1)
    ensures c0 == d0 && c1 == d1
  {
    IdxInRange(size, c0, c1);
    IdxInRange(size, d0, d1);
    RowMajorUnique(size.w as int, c0 as int, c1 as int, d0 as int, d1 as int);
  }

  /// Row-major offsets of in-range coordinates stay below w * h.
  lemma RowMajorBound(w: int, h: int, c0: int, c1: int)
    requires 0 <= c0 < w && 0 <= c1 < h
    ensures c1 * w + c0 < w * h
  {
    MulMonotone(c1, h - 1, w);
    assert (h - 1) * w == h * w - w;
  }

  /// Row-major offsets determine the coordinates.
  lemma RowMajorUnique(w: int, c0: int, c1: int, d0: int, d1: int)
    requires 0 <= c0 < w && 0 <= d0 < w && 0 <= c1 && 0 <= d1
    requires c1 * w + c0 == d1 * w + d0
    ensures c0 == d0 && c1 == d1
  {
    if c1 < d1 {
      assert (c1 + 1) * w == c1 * w + w;
      MulMonotone(c1 + 1, d1, w);
    } else if d1 < c1 {
      assert (d1 + 1) * w == d1 * w + w;
      MulMonotone(d1 + 1, c1, w);
    }
  }

  /// A colour image: its size and a flat buffer of pixels.
  datatype RenderImage = RenderImage(size: Size, buffer: seq<Vec3>)

  /// Image(w, h, ts): a zero-filled buffer of w * h pixels, the product
  /// taken in 32 bits.
  function NewImage(w: u32, h: u32, ts: u32): (img: RenderImage)
    ensures img.size == Size(w, h, ts)
    ensures w as int * h as int < U32 ==> |img.buffer| == w as int * h as int
    ensures forall k :: 0 <= k < |img.buffer| ==> img.buffer[k] == Origin
  {
    RenderImage(Size(w, h, ts), seq(Wrap(w as int * h as int) as int, _ => Origin))
  }
}
