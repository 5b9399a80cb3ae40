/**
 VideoMixer: one to four scaled pictures are tiled into one planar YUV420 buffer. Sizes
 are in units of eight pixels, so that every halving the code does is exact; the server
 runs at 640 by 480, which is Size(80, 60).
 */
module PictureTiling {
  import opened Bytes
  import opened FlvWriting

  datatype Size = Size(w: nat, h: nat) {
    function W(): nat { 8 * w }
    function H(): nat { 8 * h }
    /** An eighth of the width times an eighth of the height. */
    function Unit(): nat { w * h }
  }

  datatype Plane = Y | U | V

  function Width(z: Size, p: Plane): nat {
    if p == Y then 8 * z.w else 4 * z.w
  }

  function Height(z: Size, p: Plane): nat {
    if p == Y then 8 * z.h else 4 * z.h
  }

  /** Where a plane starts in the buffer: Y, then U of a quarter, then V of a quarter. */
  function Base(z: Size, p: Plane): nat {
    match p
    case Y => 0
    case U => 64 * z.Unit()
    case V => 80 * z.Unit()
  }

  function Black(p: Plane): byte {
    if p == Y then 16 else 128
  }

  /** The byte of plane p at row y, column x. */
  function Index(z: Size, p: Plane, y: nat, x: nat): nat {
    Base(z, p) + y * Width(z, p) + x
  }

  /** A picture scaled by libswscale: tightly packed rows, chroma halved. */
  datatype Scaled = Scaled(y: seq<byte>, u: seq<byte>, v: seq<byte>) {
    function Of(p: Plane): seq<byte> {
      match p case Y => y case U => u case V => v
    }
  }

  /** The tile of the t-th of n pictures, in luma pixels. */
  function TileRect(z: Size, n: nat, t: nat): VideoRect {
    if n == 1 then VideoRect(0, 0, 8 * z.w, 8 * z.h)
    else if n == 2 then VideoRect(if t == 0 then 0 else 4 * z.w, 2 * z.h, 4 * z.w, 4 * z.h)
    else if n == 3 then
      VideoRect(if t == 0 then 2 * z.w else if t == 1 then 0 else 4 * z.w,
                if t == 0 then 0 else 4 * z.h, 4 * z.w, 4 * z.h)
    else VideoRect(if t == 0 || t == 2 then 0 else 4 * z.w, if t < 2 then 0 else 4 * z.h, 4 * z.w, 4 * z.h)
  }

  /** The tile in a plane's own pixels. */
  function PlaneRect(z: Size, n: nat, t: nat, p: Plane): VideoRect {
    var r := TileRect(z, n, t);
    if p == Y then r else VideoRect(r.x / 2, r.y / 2, r.width / 2, r.height / 2)
  }

  predicate Inside(r: VideoRect, y: nat, x: nat) {
    r.x <= x < r.x + r.width && r.y <= y < r.y + r.height
  }

  /** Tiles lie inside the picture, in every plane. */
  lemma TilesFit(z: Size, n: nat, t: nat, p: Plane)
    requires 1 <= n <= 4 && t < n
    ensures var r := PlaneRect(z, n, t, p); r.x + r.width <= Width(z, p) && r.y + r.height <= Height(z, p)
  {
  }

  /** No two tiles share a pixel, in any plane. */
  lemma TilesDisjoint(z: Size, n: nat, s: nat, t: nat, p: Plane, y: nat, x: nat)
    requires 1 <= n <= 4 && s < n && t < n && s != t
    ensures !(Inside(PlaneRect(z, n, s, p), y, x) && Inside(PlaneRect(z, n, t, p), y, x))
  {
  }

  /** Sizes libswscale is asked for. */
  ghost predicate Fits(z: Size, n: nat, s: Scaled) {
    forall p :: |s.Of(p)| >= PlaneRect(z, n, 0, p).width * PlaneRect(z, n, 0, p).height
  }

  /** The byte of a scaled picture that belongs at a place inside its tile. */
  function Pixel(z: Size, n: nat, t: nat, s: Scaled, p: Plane, y: nat, x: nat): byte
    requires Inside(PlaneRect(z, n, t, p), y, x)
  {
    var r := PlaneRect(z, n, t, p);
    At(s.Of(p), y - r.y, r.width, x - r.x)
  }

  function At(s: seq<byte>, row: nat, pitch: nat, col: nat): byte {
    var k := row * pitch + col;
    if k < |s| then s[k] else 0
  }

  /** What the finished buffer shows at a place: the picture whose tile it is in, or black. */
  function Shown(z: Size, n: nat, m: nat, pics: seq<Scaled>, p: Plane, y: nat, x: nat): byte
    requires m <= |pics|
  {
    if m == 0 then Black(p)
    else if Inside(PlaneRect(z, n, m - 1, p), y, x) then Pixel(z, n, m - 1, pics[m - 1], p, y, x)
    else Shown(z, n, m - 1, pics, p, y, x)
  }

  /** The buffer shows the first m tiles on black, in all three planes. */
  ghost predicate Shows(s: seq<byte>, z: Size, n: nat, m: nat, pics: seq<Scaled>)
    requires |s| == 96 * z.Unit() && m <= |pics|
  {
    forall p: Plane, y: nat, x: nat :: y < Height(z, p) && x < Width(z, p) ==>
      Index(z, p, y, x) < |s| && s[Index(z, p, y, x)] == Shown(z, n, m, pics, p, y, x)
  }

  /** A pixel inside a tile shows that tile's picture; one outside all tiles is black. */
  lemma {:induction false} ShownExactly(z: Size, n: nat, m: nat, pics: seq<Scaled>, p: Plane, y: nat, x: nat)
    requires 1 <= n <= 4 && m <= n && m <= |pics|
    ensures forall t :: 0 <= t < m && Inside(PlaneRect(z, n, t, p), y, x) ==>
              Shown(z, n, m, pics, p, y, x) == Pixel(z, n, t, pics[t], p, y, x)
    ensures (forall t :: 0 <= t < m ==> !Inside(PlaneRect(z, n, t, p), y, x)) ==>
            Shown(z, n, m, pics, p, y, x) == Black(p)
  {
    if m > 0 {
      ShownExactly(z, n, m - 1, pics, p, y, x);
      forall t | 0 <= t < m - 1 && Inside(PlaneRect(z, n, t, p), y, x)
        ensures !Inside(PlaneRect(z, n, m - 1, p), y, x)
      {
        TilesDisjoint(z, n, t, m - 1, p, y, x);
      }
    }
  }

  // ----- the layout in numbers

  /** Planar YUV420 of W by H pixels: W * H luma bytes, then two planes of half the width and height. */
  lemma PlanesExactly(z: Size, y: nat, x: nat)
    ensures var w, h := 8 * z.w, 8 * z.h;
            Index(z, Y, y, x) == y * w + x && Index(z, U, y, x) == w * h + y * (w / 2) + x &&
            Index(z, V, y, x) == w * h + w * h / 4 + y * (w / 2) + x &&
            Width(z, Y) == w && Height(z, Y) == h &&
            (forall p :: p != Y ==> Width(z, p) == w / 2 && Height(z, p) == h / 2)
  {
    Eighths(z);
  }

  lemma Eighths(z: Size)
    ensures (8 * z.w) * (8 * z.h) == 64 * z.Unit() && (8 * z.w) * (8 * z.h) / 4 == 16 * z.Unit()
  {
    assert (8 * z.w) * (8 * z.h) == 64 * (z.w * z.h);
  }

  /** A single picture has the whole plane; two to four have tiles of half its width and half its height. */
  lemma TileSizes(z: Size, n: nat, t: nat, p: Plane)
    requires 1 <= n <= 4 && t < n
    ensures var w, h := if p == Y then 8 * z.w else 4 * z.w, if p == Y then 8 * z.h else 4 * z.h;
            var r := PlaneRect(z, n, t, p);
            if n == 1 then r == VideoRect(0, 0, w, h) else r.width == w / 2 && r.height == h / 2
  {
  }

  /**
   The places the tiles cover: with one picture or four, all; with two, the middle half of the
   rows; with three, the upper half but for its outer quarters, and all of the lower half.
   */
  lemma TilesCoverExactly(z: Size, n: nat, p: Plane, y: nat, x: nat)
    requires 1 <= n <= 4 && y < Height(z, p) && x < Width(z, p)
    ensures var w, h := if p == Y then 8 * z.w else 4 * z.w, if p == Y then 8 * z.h else 4 * z.h;
            (exists t: nat :: t < n && Inside(PlaneRect(z, n, t, p), y, x)) <==>
            n == 1 || n == 4 || (n == 2 && h / 4 <= y < 3 * h / 4) ||
            (n == 3 && (y >= h / 2 || w / 4 <= x < 3 * w / 4))
  {
    if n == 1 {
      assert Inside(PlaneRect(z, n, 0, p), y, x);
    } else if n == 2 {
      CoversTwo(z, p, y, x);
    } else if n == 3 {
      CoversThree(z, p, y, x);
    } else {
      CoversFour(z, p, y, x);
    }
  }

  lemma Quarters(k: nat)
    ensures 8 * k / 2 == 4 * k && 8 * k / 4 == 2 * k && 3 * (8 * k) / 4 == 6 * k
    ensures 4 * k / 2 == 2 * k && 4 * k / 4 == k && 3 * (4 * k) / 4 == 3 * k && 2 * k / 2 == k && 0 / 2 == 0
  {
  }

  lemma CoversTwo(z: Size, p: Plane, y: nat, x: nat)
    requires y < Height(z, p) && x < Width(z, p)
    ensures var w, h := if p == Y then 8 * z.w else 4 * z.w, if p == Y then 8 * z.h else 4 * z.h;
            h / 4 <= y < 3 * h / 4 ==> Inside(PlaneRect(z, 2, if x < w / 2 then 0 else 1, p), y, x)
  {
    Quarters(z.w);
    Quarters(z.h);
  }

  lemma CoversThree(z: Size, p: Plane, y: nat, x: nat)
    requires y < Height(z, p) && x < Width(z, p)
    ensures var w, h := if p == Y then 8 * z.w else 4 * z.w, if p == Y then 8 * z.h else 4 * z.h;
            y >= h / 2 || w / 4 <= x < 3 * w / 4 ==>
              Inside(PlaneRect(z, 3, if y < h / 2 then 0 else if x < w / 2 then 1 else 2, p), y, x)
  {
    Quarters(z.w);
    Quarters(z.h);
  }

  lemma CoversFour(z: Size, p: Plane, y: nat, x: nat)
    requires y < Height(z, p) && x < Width(z, p)
    ensures var w, h := if p == Y then 8 * z.w else 4 * z.w, if p == Y then 8 * z.h else 4 * z.h;
            Inside(PlaneRect(z, 4, (if x < w / 2 then 0 else 1) + (if y < h / 2 then 0 else 2), p), y, x)
  {
    Quarters(z.w);
    Quarters(z.h);
  }

  /** What is shown, in numbers: the scaled picture's own pixel, row by row, or black: luma 16, chroma 128. */
  lemma ShownInNumbers(z: Size, n: nat, pics: seq<Scaled>, p: Plane, y: nat, x: nat)
    requires 1 <= n <= 4 && |pics| == n && forall t :: 0 <= t < n ==> Fits(z, n, pics[t])
    requires y < Height(z, p) && x < Width(z, p)
    ensures forall t :: 0 <= t < n && Inside(PlaneRect(z, n, t, p), y, x) ==>
              PixelTold(z, n, t, pics[t], p, y, x, Shown(z, n, n, pics, p, y, x))
    ensures (forall t :: 0 <= t < n ==> !Inside(PlaneRect(z, n, t, p), y, x)) ==>
              Shown(z, n, n, pics, p, y, x) == if p == Y then 16 else 128
  {
    ShownExactly(z, n, n, pics, p, y, x);
    forall t | 0 <= t < n && Inside(PlaneRect(z, n, t, p), y, x)
      ensures PixelTold(z, n, t, pics[t], p, y, x, Pixel(z, n, t, pics[t], p, y, x))
    {
      PixelInNumbers(z, n, t, pics[t], p, y, x);
    }
  }

  /** The value is the byte of the picture at the tile's own row and column. */
  predicate PixelTold(z: Size, n: nat, t: nat, s: Scaled, p: Plane, y: nat, x: nat, value: byte) {
    var r := PlaneRect(z, n, t, p);
    var k := (y - r.y) * r.width + (x - r.x);
    0 <= k < |s.Of(p)| && value == s.Of(p)[k]
  }

  lemma PixelInNumbers(z: Size, n: nat, t: nat, s: Scaled, p: Plane, y: nat, x: nat)
    requires 1 <= n <= 4 && t < n && Fits(z, n, s) && Inside(PlaneRect(z, n, t, p), y, x)
    ensures PixelTold(z, n, t, s, p, y, x, Pixel(z, n, t, s, p, y, x))
  {
    var r, r0 := PlaneRect(z, n, t, p), PlaneRect(z, n, 0, p);
    AllAlike(z, n, t, p);
    assert |s.Of(p)| >= r0.width * r0.height;
    InBlock(y - r.y, x - r.x, r0.width, r0.height);
  }

  lemma AllAlike(z: Size, n: nat, t: nat, p: Plane)
    requires 1 <= n <= 4 && t < n
    ensures PlaneRect(z, n, t, p).width == PlaneRect(z, n, 0, p).width
    ensures PlaneRect(z, n, t, p).height == PlaneRect(z, n, 0, p).height
  {
  }

  lemma InBlock(row: nat, col: nat, cols: nat, rows: nat)
    requires row < rows && col < cols
    ensures row * cols + col < cols * rows
  {
    assert (row + 1) * cols <= rows * cols;
  }

  // ----- rows

  /** Place j of the buffer lies under a block of rows, `pitch` apart, each `cols` long. */
  predicate Covered(offset: nat, pitch: nat, rows: nat, cols: nat, j: nat) {
    pitch > 0 && j >= offset && (j - offset) / pitch < rows && (j - offset) % pitch < cols
  }

  /** The buffer after such a block is copied from a source with rows `cols` apart. */
  function BlitAt(s: seq<byte>, offset: nat, pitch: nat, src: seq<byte>, rows: nat, cols: nat, j: nat): byte
    requires j < |s|
  {
    if Covered(offset, pitch, rows, cols, j) then
      At(src, (j - offset) / pitch, cols, (j - offset) % pitch)
    else s[j]
  }

  lemma DivMod(d: int, pitch: nat, q: int, r: nat)
    requires pitch > 0 && r < pitch && d == q * pitch + r
    ensures d / pitch == q && d % pitch == r
  {
    if d / pitch < q {
      MulMono(d / pitch + 1, q, pitch);
    } else if d / pitch > q {
      MulMono(q + 1, d / pitch, pitch);
    }
  }

  lemma MulMono(a: int, b: int, c: nat)
    requires a <= b
    ensures a * c <= b * c
  {
  }

  /** Row r of the block, and nothing else, is what copying one more row adds. */
  lemma RowAdded(offset: nat, pitch: nat, r: nat, cols: nat, j: nat)
    requires pitch > 0 && cols <= pitch && j >= offset
    ensures Covered(offset, pitch, r + 1, cols, j) <==>
            Covered(offset, pitch, r, cols, j) || offset + r * pitch <= j < offset + r * pitch + cols
    ensures offset + r * pitch <= j < offset + r * pitch + cols ==>
              (j - offset) / pitch == r && (j - offset) % pitch == j - offset - r * pitch
  {
    var d := j - offset;
    assert d == d / pitch * pitch + d % pitch;
    if offset + r * pitch <= j < offset + r * pitch + cols {
      DivMod(d, pitch, r, d - r * pitch);
    }
  }

  /** The memcpy loop of one plane of one picture. */
  method Blit(out: array<byte>, offset: nat, pitch: nat, src: seq<byte>, rows: nat, cols: nat)
    requires pitch > 0 && cols <= pitch && rows * cols <= |src|
    requires rows > 0 ==> offset + (rows - 1) * pitch + cols <= out.Length
    modifies out
    ensures forall j :: 0 <= j < out.Length ==> out[j] == BlitAt(old(out[..]), offset, pitch, src, rows, cols, j)
  {
    var offsetOut, offsetIn := offset, 0;
    ghost var before := out[..];
    for i := 0 to rows
      invariant offsetOut == offset + i * pitch && offsetIn == i * cols
      invariant forall j :: 0 <= j < out.Length ==> out[j] == BlitAt(before, offset, pitch, src, i, cols, j)
    {
      RowFits(offset, pitch, i, rows, cols);
      CopyRow(out, offset, pitch, src, i, cols, before);
      offsetIn := offsetIn + cols;
      offsetOut := offsetOut + pitch;
      assert (i + 1) * pitch == i * pitch + pitch && (i + 1) * cols == i * cols + cols;
    }
  }

  lemma RowFits(offset: nat, pitch: nat, i: nat, rows: nat, cols: nat)
    requires i < rows
    ensures offset + i * pitch + cols <= offset + (rows - 1) * pitch + cols
    ensures i * cols + cols <= rows * cols
  {
    MulMono(i, rows - 1, pitch);
    MulMono(i + 1, rows, cols);
  }

  /** One memcpy of the loop. */
  method CopyRow(out: array<byte>, offset: nat, pitch: nat, src: seq<byte>, i: nat, cols: nat, ghost before: seq<byte>)
    requires pitch > 0 && cols <= pitch && |before| == out.Length
    requires i * cols + cols <= |src| && offset + i * pitch + cols <= out.Length
    requires forall j :: 0 <= j < out.Length ==> out[j] == BlitAt(before, offset, pitch, src, i, cols, j)
    modifies out
    ensures forall j :: 0 <= j < out.Length ==> out[j] == BlitAt(before, offset, pitch, src, i + 1, cols, j)
  {
    var offsetOut, offsetIn := offset + i * pitch, i * cols;
    Memcpy(out, offsetOut, src[offsetIn..offsetIn + cols]);
    forall j | 0 <= j < out.Length
      ensures out[j] == BlitAt(before, offset, pitch, src, i + 1, cols, j)
    {
      if j >= offset {
        RowAdded(offset, pitch, i, cols, j);
      }
    }
  }

  /** A distance of dy rows and dx columns falls into a block exactly if both are in range. */
  lemma BlockHit(pitch: int, dy: int, dx: int, rows: nat, cols: nat)
    requires pitch > 0 && -pitch < dx < pitch && cols <= pitch && (dx < 0 ==> cols <= pitch + dx)
    ensures var d := dy * pitch + dx;
            (d >= 0 && d / pitch < rows && d % pitch < cols <==> 0 <= dx < cols && 0 <= dy < rows) &&
            (0 <= dx ==> d / pitch == dy && d % pitch == dx)
  {
    var d := dy * pitch + dx;
    if dx >= 0 {
      DivMod(d, pitch, dy, dx);
    } else {
      assert d == (dy - 1) * pitch + (pitch + dx);
      DivMod(d, pitch, dy - 1, pitch + dx);
    }
  }

  lemma Distance(pitch: int, a: int, b: int)
    ensures a * pitch - b * pitch == (a - b) * pitch
  {
  }

  /** Rows laid from the corner of a rectangle cover exactly the rectangle in their own plane. */
  lemma CoverIsRect(z: Size, p: Plane, r: VideoRect, y: nat, x: nat)
    requires r.width > 0 && r.x + r.width <= Width(z, p) && x < Width(z, p)
    ensures var offset, j := Index(z, p, r.y, r.x), Index(z, p, y, x);
            (Covered(offset, Width(z, p), r.height, r.width, j) <==> Inside(r, y, x)) &&
            (Inside(r, y, x) ==>
               (j - offset) / Width(z, p) == y - r.y && (j - offset) % Width(z, p) == x - r.x)
  {
    var pitch := Width(z, p);
    var dy: int, dx: int := y - r.y, x - r.x;
    Distance(pitch, y, r.y);
    BlockHit(pitch, dy, dx, r.height, r.width);
  }

  /** They never reach into another plane. */
  lemma CoverStaysInPlane(z: Size, p: Plane, r: VideoRect, q: Plane, y: nat, x: nat)
    requires z.w > 0 && r.x + r.width <= Width(z, p) && r.y + r.height <= Height(z, p)
    requires q != p && y < Height(z, q) && x < Width(z, q)
    ensures !Covered(Index(z, p, r.y, r.x), Width(z, p), r.height, r.width, Index(z, q, y, x))
  {
    var offset, j := Index(z, p, r.y, r.x), Index(z, q, y, x);
    PlaneBounds(z, q, y, x);
    if Covered(offset, Width(z, p), r.height, r.width, j) {
      var row, col := CoveredPlace(offset, Width(z, p), r.height, r.width, j);
      IndexShift(z, p, r.y, r.x, row, col);
      PlaneBounds(z, p, r.y + row, r.x + col);
    }
  }

  lemma CoveredPlace(offset: nat, pitch: nat, rows: nat, cols: nat, j: nat) returns (row: nat, col: nat)
    requires Covered(offset, pitch, rows, cols, j)
    ensures row < rows && col < cols && j == offset + row * pitch + col
  {
    row, col := (j - offset) / pitch, (j - offset) % pitch;
  }

  lemma IndexShift(z: Size, p: Plane, y: nat, x: nat, dy: nat, dx: nat)
    ensures Index(z, p, y + dy, x + dx) == Index(z, p, y, x) + dy * Width(z, p) + dx
  {
    assert (y + dy) * Width(z, p) == y * Width(z, p) + dy * Width(z, p);
  }

  /** The planes do not overlap and fill the buffer. */
  lemma PlaneBounds(z: Size, p: Plane, y: nat, x: nat)
    requires y < Height(z, p) && x < Width(z, p)
    ensures Base(z, p) <= Index(z, p, y, x) < Base(z, p) + (if p == Y then 64 else 16) * z.Unit()
  {
    MulMono(y + 1, Height(z, p), Width(z, p));
    assert (y + 1) * Width(z, p) == y * Width(z, p) + Width(z, p);
    assert Height(z, p) * Width(z, p) == (if p == Y then 64 else 16) * z.Unit() by {
      if p == Y {
        Area(8, z);
      } else {
        Area(4, z);
      }
    }
  }

  lemma Area(k: nat, z: Size)
    ensures (k * z.h) * (k * z.w) == (k * k) * z.Unit()
  {
  }

  // ----- pictures

  /** A buffer place by place: s' is s with one plane of a picture laid over a rectangle. */
  ghost predicate Laid(s: seq<byte>, s': seq<byte>, z: Size, p: Plane, r: VideoRect, src: seq<byte>)
    requires |s| == |s'|
  {
    forall j :: 0 <= j < |s| ==> s'[j] == BlitAt(s, Index(z, p, r.y, r.x), Width(z, p), src, r.height, r.width, j)
  }

  lemma LaidAt(s: seq<byte>, s': seq<byte>, z: Size, p: Plane, r: VideoRect, src: seq<byte>, q: Plane, y: nat, x: nat)
    requires |s| == |s'| == 96 * z.Unit() && Laid(s, s', z, p, r, src)
    requires r.width > 0 && r.x + r.width <= Width(z, p) && r.y + r.height <= Height(z, p) && z.w > 0
    requires y < Height(z, q) && x < Width(z, q)
    ensures Index(z, q, y, x) < |s|
    ensures s'[Index(z, q, y, x)] ==
            if q == p && Inside(r, y, x) then At(src, y - r.y, r.width, x - r.x) else s[Index(z, q, y, x)]
  {
    PlaneBounds(z, q, y, x);
    if q == p {
      CoverIsRect(z, p, r, y, x);
    } else {
      CoverStaysInPlane(z, p, r, q, y, x);
    }
  }

  /** The block of a plane's rectangle ends inside the buffer. */
  lemma LastRowFits(z: Size, p: Plane, r: VideoRect)
    requires r.width > 0 && r.height > 0 && r.x + r.width <= Width(z, p) && r.y + r.height <= Height(z, p)
    ensures Index(z, p, r.y, r.x) + (r.height - 1) * Width(z, p) + r.width <= 96 * z.Unit()
  {
    IndexShift(z, p, r.y, r.x, r.height - 1, r.width - 1);
    PlaneBounds(z, p, r.y + (r.height - 1), r.x + (r.width - 1));
  }

  /** What the row loop needs: the tile's rows end inside the buffer, and the source has them all. */
  lemma BlockFits(z: Size, n: nat, t: nat, p: Plane, pic: Scaled)
    requires z.w > 0 && z.h > 0 && 1 <= n <= 4 && t < n && Fits(z, n, pic)
    ensures var r := PlaneRect(z, n, t, p);
            Index(z, p, r.y, r.x) + (r.height - 1) * Width(z, p) + r.width <= 96 * z.Unit() &&
            r.height > 0 && 0 < r.width <= Width(z, p) && |pic.Of(p)| >= r.height * r.width
  {
    var r := PlaneRect(z, n, t, p);
    TilesFit(z, n, t, p);
    LastRowFits(z, p, r);
    var r0 := PlaneRect(z, n, 0, p);
    assert r.height == r0.height && r.width == r0.width;
    Commutes(r.height, r.width);
  }

  lemma Commutes(a: nat, b: nat)
    ensures a * b == b * a
  {
  }

  /** One plane of the t-th picture, from the offset the source computes for it. */
  method LayPlane(out: array<byte>, z: Size, n: nat, t: nat, p: Plane, offset: nat, pic: Scaled)
    requires z.w > 0 && z.h > 0 && 1 <= n <= 4 && t < n && out.Length == 96 * z.Unit() && Fits(z, n, pic)
    requires offset == Index(z, p, PlaneRect(z, n, t, p).y, PlaneRect(z, n, t, p).x)
    modifies out
    ensures Laid(old(out[..]), out[..], z, p, PlaneRect(z, n, t, p), pic.Of(p))
  {
    var r := PlaneRect(z, n, t, p);
    BlockFits(z, n, t, p, pic);
    Blit(out, offset, Width(z, p), pic.Of(p), r.height, r.width);
  }

  /** The three loops for one picture: its tile shows it, every other place is as it was. */
  method LayPicture(out: array<byte>, z: Size, n: nat, t: nat, offsetY: nat, offsetU: nat, offsetV: nat, pic: Scaled)
    requires z.w > 0 && z.h > 0 && 1 <= n <= 4 && t < n && out.Length == 96 * z.Unit() && Fits(z, n, pic)
    requires offsetY == Index(z, Y, PlaneRect(z, n, t, Y).y, PlaneRect(z, n, t, Y).x)
    requires offsetU == Index(z, U, PlaneRect(z, n, t, U).y, PlaneRect(z, n, t, U).x)
    requires offsetV == Index(z, V, PlaneRect(z, n, t, V).y, PlaneRect(z, n, t, V).x)
    modifies out
    ensures forall p: Plane, y: nat, x: nat :: y < Height(z, p) && x < Width(z, p) ==>
              Index(z, p, y, x) < out.Length &&
              out[Index(z, p, y, x)] == (if Inside(PlaneRect(z, n, t, p), y, x) then Pixel(z, n, t, pic, p, y, x)
                                         else old(out[..])[Index(z, p, y, x)])
  {
    ghost var s0 := out[..];
    LayPlane(out, z, n, t, Y, offsetY, pic);
    ghost var s1 := out[..];
    LayPlane(out, z, n, t, U, offsetU, pic);
    ghost var s2 := out[..];
    LayPlane(out, z, n, t, V, offsetV, pic);
    ghost var s3 := out[..];
    forall p: Plane, y: nat, x: nat | y < Height(z, p) && x < Width(z, p)
      ensures Index(z, p, y, x) < out.Length &&
              out[Index(z, p, y, x)] == (if Inside(PlaneRect(z, n, t, p), y, x) then Pixel(z, n, t, pic, p, y, x)
                                         else s0[Index(z, p, y, x)])
    {
      ThreePlanes(s0, s1, s2, s3, z, n, t, pic, p, y, x);
    }
  }

  lemma ThreePlanes(s0: seq<byte>, s1: seq<byte>, s2: seq<byte>, s3: seq<byte>, z: Size, n: nat, t: nat, pic: Scaled,
                    p: Plane, y: nat, x: nat)
    requires z.w > 0 && z.h > 0 && 1 <= n <= 4 && t < n && |s0| == |s1| == |s2| == |s3| == 96 * z.Unit()
    requires Laid(s0, s1, z, Y, PlaneRect(z, n, t, Y), pic.y)
    requires Laid(s1, s2, z, U, PlaneRect(z, n, t, U), pic.u)
    requires Laid(s2, s3, z, V, PlaneRect(z, n, t, V), pic.v)
    requires y < Height(z, p) && x < Width(z, p)
    ensures var j := Index(z, p, y, x);
            j < |s3| && s3[j] == if Inside(PlaneRect(z, n, t, p), y, x) then Pixel(z, n, t, pic, p, y, x) else s0[j]
  {
    TilesFit(z, n, t, Y);
    TilesFit(z, n, t, U);
    TilesFit(z, n, t, V);
    LaidAt(s0, s1, z, Y, PlaneRect(z, n, t, Y), pic.y, p, y, x);
    LaidAt(s1, s2, z, U, PlaneRect(z, n, t, U), pic.u, p, y, x);
    LaidAt(s2, s3, z, V, PlaneRect(z, n, t, V), pic.v, p, y, x);
  }

  /** startingOffsetY for the t-th of n pictures, n at least 2. */
  function StartY(z: Size, n: nat, t: nat): nat {
    var r := TileRect(z, n, t);
    if n == 2 then r.x else r.y * (8 * z.w) + r.x
  }

  function StartUV(z: Size, n: nat, t: nat): nat {
    var r := PlaneRect(z, n, t, U);
    if n == 2 then r.x else r.y * (4 * z.w) + r.x
  }

  /** The fractions of width times height by which the source finds rows and planes. */
  lemma Fractions(z: Size)
    ensures var area := (8 * z.w) * (8 * z.h); var u := z.Unit();
            area == 64 * u && area / 4 == 16 * u && area / 2 == 32 * u && area / 8 == 8 * u &&
            area * 17 / 16 == 68 * u && area * 21 / 16 == 84 * u && area * 5 / 4 == 80 * u && area * 3 / 2 == 96 * u
    ensures (2 * z.h) * (8 * z.w) == 16 * z.Unit() && (4 * z.h) * (8 * z.w) == 32 * z.Unit()
    ensures z.h * (4 * z.w) == 4 * z.Unit() && (2 * z.h) * (4 * z.w) == 8 * z.Unit()
  {
    Scale(8, 8, z.w, z.h);
    Scale(8, 2, z.w, z.h);
    Scale(8, 4, z.w, z.h);
    Scale(4, 1, z.w, z.h);
    Scale(4, 2, z.w, z.h);
  }

  lemma Scale(a: nat, b: nat, w: nat, h: nat)
    ensures (a * w) * (b * h) == (a * b) * (w * h) && (b * h) * (a * w) == (a * b) * (w * h)
  {
  }

  /** The offsets the source adds up are those of the tile's corner in each plane. */
  lemma OffsetsAreCorners(z: Size, n: nat, t: nat)
    requires 2 <= n <= 4 && t < n
    ensures var area := (8 * z.w) * (8 * z.h);
            (if n == 2 then area / 4 else 0) + StartY(z, n, t) ==
                Index(z, Y, PlaneRect(z, n, t, Y).y, PlaneRect(z, n, t, Y).x) &&
            (if n == 2 then area * 17 / 16 else area) + StartUV(z, n, t)
              == Index(z, U, PlaneRect(z, n, t, U).y, PlaneRect(z, n, t, U).x) &&
            (if n == 2 then area * 21 / 16 else area * 5 / 4) + StartUV(z, n, t)
              == Index(z, V, PlaneRect(z, n, t, V).y, PlaneRect(z, n, t, V).x)
  {
    Fractions(z);
  }

  class VideoMixer {
    constructor () {
    }

    /** memset of the luma plane to 16 and of both chroma planes to 128. */
    method PaintBlack(out: array<byte>, z: Size, n: nat, pics: seq<Scaled>)
      requires out.Length == 96 * z.Unit()
      modifies out
      ensures Shows(out[..], z, n, 0, pics)
    {
      var luma := 64 * z.Unit();
      for k := 0 to out.Length
        invariant forall j :: 0 <= j < k ==> out[j] == if j < luma then 16 else 128
      {
        out[k] := if k < luma then 16 else 128;
      }
      forall p: Plane, y: nat, x: nat | y < Height(z, p) && x < Width(z, p)
        ensures Index(z, p, y, x) < out.Length && out[Index(z, p, y, x)] == Black(p)
      {
        PlaneBounds(z, p, y, x);
      }
    }

    /**
     Mixes one to four pictures; also tells each stream's rectangle. The source repeats the
     loop for two, three and four streams with the offsets chosen here by `n`.
     */
    method MixStreams(pics: seq<Scaled>, z: Size) returns (out: array<byte>, videoRect: seq<VideoRect>)
      requires 1 <= |pics| <= 4 && z.w > 0 && z.h > 0
      requires forall t :: 0 <= t < |pics| ==> Fits(z, |pics|, pics[t])
      ensures fresh(out) && out.Length == z.W() * z.H() * 3 / 2 == 96 * z.Unit()
      ensures Shows(out[..], z, |pics|, |pics|, pics)
      ensures |videoRect| == |pics| && forall t :: 0 <= t < |pics| ==> videoRect[t] == TileRect(z, |pics|, t)
    {
      var n := |pics|;
      Fractions(z);
      out := new byte[z.W() * z.H() * 3 / 2];
      videoRect := [];
      if n == 1 {
        LayOnly(out, z, pics);
        videoRect := [VideoRect(0, 0, z.W(), z.H())];
      } else {
        PaintBlack(out, z, n, pics);
        var startingOffsetY, startingOffsetUV := if n == 3 then 2 * z.w else 0, if n == 3 then z.w else 0;
        StartFirst(z, n);
        for t := 0 to n
          invariant Shows(out[..], z, n, t, pics)
          invariant t < n ==> startingOffsetY == StartY(z, n, t) && startingOffsetUV == StartUV(z, n, t)
          invariant |videoRect| == t && forall k :: 0 <= k < t ==> videoRect[k] == TileRect(z, n, k)
        {
          var r := RectFromOffset(z, n, t, startingOffsetY);
          videoRect := videoRect + [r];
          LayNext(out, z, pics, t, startingOffsetY, startingOffsetUV);
          StartNext(z, n, t);
          if (n == 3 && t == 0) || (n == 4 && t + 1 == 2) {
            startingOffsetY, startingOffsetUV := z.W() * z.H() / 2, z.W() * z.H() / 8;
          } else {
            startingOffsetY, startingOffsetUV := startingOffsetY + 4 * z.w, startingOffsetUV + 2 * z.w;
          }
        }
      }
    }

    /** The single picture fills the whole buffer; there is no background. */
    method LayOnly(out: array<byte>, z: Size, pics: seq<Scaled>)
      requires |pics| == 1 && z.w > 0 && z.h > 0 && out.Length == 96 * z.Unit() && Fits(z, 1, pics[0])
      modifies out
      ensures Shows(out[..], z, 1, 1, pics)
    {
      LayPicture(out, z, 1, 0, 0, 64 * z.Unit(), 80 * z.Unit(), pics[0]);
      forall p: Plane, y: nat, x: nat | y < Height(z, p) && x < Width(z, p)
        ensures Index(z, p, y, x) < out.Length && out[Index(z, p, y, x)] == Shown(z, 1, 1, pics, p, y, x)
      {
        assert Inside(PlaneRect(z, 1, 0, p), y, x);
      }
    }

    method LayNext(out: array<byte>, z: Size, pics: seq<Scaled>, t: nat, startY: nat, startUV: nat)
      requires 2 <= |pics| <= 4 && t < |pics| && z.w > 0 && z.h > 0 && out.Length == 96 * z.Unit()
      requires Fits(z, |pics|, pics[t]) && Shows(out[..], z, |pics|, t, pics)
      requires startY == StartY(z, |pics|, t) && startUV == StartUV(z, |pics|, t)
      modifies out
      ensures Shows(out[..], z, |pics|, t + 1, pics)
    {
      var n := |pics|;
      var area := z.W() * z.H();
      OffsetsAreCorners(z, n, t);
      ghost var before := out[..];
      LayPicture(out, z, n, t, (if n == 2 then area / 4 else 0) + startY,
                 (if n == 2 then area * 17 / 16 else area) + startUV,
                 (if n == 2 then area * 21 / 16 else area * 5 / 4) + startUV, pics[t]);
      forall p: Plane, y: nat, x: nat | y < Height(z, p) && x < Width(z, p)
        ensures Index(z, p, y, x) < out.Length && out[Index(z, p, y, x)] == Shown(z, n, t + 1, pics, p, y, x)
      {
        assert before[Index(z, p, y, x)] == Shown(z, n, t, pics, p, y, x);
      }
    }

    /** The rectangle told to the receiver, from the offset by remainder and quotient. */
    method RectFromOffset(z: Size, n: nat, t: nat, startY: nat) returns (r: VideoRect)
      requires z.w > 0 && 2 <= n <= 4 && t < n && startY == StartY(z, n, t)
      ensures r == TileRect(z, n, t)
    {
      ghost var tile := TileRect(z, n, t);
      DivMod(startY, 8 * z.w, if n == 2 then 0 else tile.y, tile.x);
      r := VideoRect(startY % z.W(), if n == 2 then z.H() / 4 else startY / z.W(), 4 * z.w, 4 * z.h);
    }
  }

  lemma StartFirst(z: Size, n: nat)
    requires 2 <= n <= 4
    ensures StartY(z, n, 0) == (if n == 3 then 2 * z.w else 0) && StartUV(z, n, 0) == (if n == 3 then z.w else 0)
  {
  }

  /** How the starting offsets move from picture to picture. */
  lemma StartNext(z: Size, n: nat, t: nat)
    requires 2 <= n <= 4 && t < n
    ensures t + 1 < n ==>
              if (n == 3 && t == 0) || (n == 4 && t + 1 == 2) then
                StartY(z, n, t + 1) == (8 * z.w) * (8 * z.h) / 2 && StartUV(z, n, t + 1) == (8 * z.w) * (8 * z.h) / 8
              else
                StartY(z, n, t + 1) == StartY(z, n, t) + 4 * z.w && StartUV(z, n, t + 1) == StartUV(z, n, t) + 2 * z.w
  {
    Fractions(z);
  }
}
