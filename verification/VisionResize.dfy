/** Nearest-neighbour resizing and grey conversion of byte images. */
module VisionResize {
  import opened Results
  import opened Q32

  type byte = n: int | 0 <= n < 256

  // ----- arithmetic of the pixel grid -----

  /** The source coordinate of an output coordinate along one axis. */
  function Source(o: int, inSize: int, outSize: int): int
    requires outSize > 0
  {
    (o * inSize) / outSize
  }

  lemma DivExact(n: int, d: int, q: int)
    requires d > 0 && q * d <= n < q * d + d
    ensures n / d == q && n % d == n - q * d
  {
    FloorIsGreatest(n, d, q);
    FloorIsGreatest(n, d, q + 1);
    assert (q + 1) * d == q * d + d;
  }

  /** The index clamps of the source never fire. */
  lemma SourceInRange(o: int, inSize: int, outSize: int)
    requires 0 <= o < outSize && inSize > 0
    ensures 0 <= Source(o, inSize, outSize) < inSize
  {
    assert 0 <= o * inSize < outSize * inSize;
    FloorIsGreatest(o * inSize, outSize, 0);
    FloorIsGreatest(o * inSize, outSize, inSize);
  }

  lemma SourceSameSize(o: int, size: int)
    requires size > 0
    ensures Source(o, size, size) == o
  {
    DivExact(o * size, size, o);
  }

  lemma DivScaled(n: int, d: int, k: int)
    requires d > 0 && k >= 1
    ensures k * d > 0 && (k * n) / (k * d) == n / d
  {
    var q := n / d;
    assert q * d <= n < q * d + d;
    assert k * d >= d;
    assert q * (k * d) == k * (q * d);
    assert k * (q * d) <= k * n < k * (q * d + d);
    assert k * (q * d + d) == k * (q * d) + k * d;
    DivExact(k * n, k * d, q);
  }

  /** A factor common to the coordinate and the output size cancels. */
  lemma SourceScaled(o: int, inSize: int, outSize: int, k: int)
    requires outSize > 0 && k >= 1
    ensures k * outSize > 0
    ensures Source(o, k * outSize, outSize) == o * k
    ensures Source(o * k, inSize, k * outSize) == Source(o, inSize, outSize)
  {
    DivScaled(o * inSize, outSize, k);
    assert (o * k) * inSize == k * (o * inSize);
    assert o * (k * outSize) == (o * k) * outSize;
    DivExact(o * (k * outSize), outSize, o * k);
  }

  /** Enlarging an axis by a whole factor repeats every coordinate that often;
      shrinking by one takes the first of every run. */
  lemma WholeFactors(o: int, size: int, k: int)
    requires size > 0 && k >= 1
    ensures k * size > 0
    ensures Source(o, size, k * size) == o / k
    ensures Source(o, k * size, size) == o * k
  {
    DivScaled(o, k, size);
    assert o * size == size * o && k * size == size * k;
    SourceScaled(o, size, size, k);
  }

  /** The pixel at row `y` and column `x` of an image `w` pixels wide. */
  lemma RowColumn(y: int, x: int, w: int)
    requires w > 0 && 0 <= x < w
    ensures (y * w + x) / w == y && (y * w + x) % w == x
  {
    DivExact(y * w + x, w, y);
  }

  lemma PixelInRange(y: int, x: int, w: int, h: int)
    requires 0 <= x < w && 0 <= y < h
    ensures 0 <= y * w + x < w * h
  {
    assert 0 <= y * w;
    assert (y + 1) * w <= h * w;
  }

  lemma RowInRange(n: int, w: int, h: int)
    requires w > 0 && h > 0 && 0 <= n < w * h
    ensures 0 <= n / w < h && 0 <= n % w < w && n == (n / w) * w + n % w
  {
    FloorIsGreatest(n, w, 0);
    FloorIsGreatest(n, w, h);
    assert h * w == w * h;
  }

  /** The source pixel of output pixel `n`. */
  function SourcePixel(iw: int, ih: int, ow: int, oh: int, n: int): int
    requires ow > 0 && oh > 0
  {
    Source(n / ow, ih, oh) * iw + Source(n % ow, iw, ow)
  }

  lemma SourcePixelInRange(iw: int, ih: int, ow: int, oh: int, n: int)
    requires iw > 0 && ih > 0 && ow > 0 && oh > 0 && 0 <= n < ow * oh
    ensures 0 <= SourcePixel(iw, ih, ow, oh, n) < iw * ih
  {
    RowInRange(n, ow, oh);
    SourceInRange(n / ow, ih, oh);
    SourceInRange(n % ow, iw, ow);
    PixelInRange(Source(n / ow, ih, oh), Source(n % ow, iw, ow), iw, ih);
  }

  lemma SourcePixelSameSize(w: int, h: int, n: int)
    requires w > 0 && h > 0 && 0 <= n < w * h
    ensures SourcePixel(w, h, w, h, n) == n
  {
    RowInRange(n, w, h);
    SourceSameSize(n / w, h);
    SourceSameSize(n % w, w);
  }

  lemma ScaledInRange(x: int, w: int, k: int)
    requires 0 <= x < w && k >= 1
    ensures 0 <= x * k < k * w
  {
    assert (x + 1) * k <= w * k;
    assert 0 <= x * k;
  }

  /** Going through an image scaled by whole factors changes no source pixel. */
  lemma SourcePixelScaled(iw: int, ih: int, w: int, h: int, kx: int, ky: int, n: int)
    requires iw > 0 && ih > 0 && w > 0 && h > 0 && kx >= 1 && ky >= 1 && 0 <= n < w * h
    ensures kx * w > 0 && ky * h > 0
    ensures 0 <= SourcePixel(kx * w, ky * h, w, h, n) < (kx * w) * (ky * h)
    ensures SourcePixel(iw, ih, kx * w, ky * h, SourcePixel(kx * w, ky * h, w, h, n)) == SourcePixel(iw, ih, w, h, n)
  {
    RowInRange(n, w, h);
    var y, x := n / w, n % w;
    SourceScaled(y, ih, h, ky);
    SourceScaled(x, iw, w, kx);
    ScaledInRange(x, w, kx);
    SourcePixelInRange(kx * w, ky * h, w, h, n);
    hide Source;
    var m := SourcePixel(kx * w, ky * h, w, h, n);
    assert m == (y * ky) * (kx * w) + x * kx;
    RowColumn(y * ky, x * kx, kx * w);
    assert m / (kx * w) == y * ky && m % (kx * w) == x * kx;
  }

  // ----- resizing -----

  predicate GoodSize(iw: int, ih: int, bytes: int, depth: int, ow: int, oh: int) {
    iw >= 1 && ih >= 1 && ow >= 1 && oh >= 1 && bytes == iw * ih * depth
  }

  /** The bytes of output byte `k`, for `depth` bytes a pixel. */
  function SourceByte(iw: int, ih: int, ow: int, oh: int, depth: int, k: int): int
    requires ow > 0 && oh > 0 && depth > 0
  {
    SourcePixel(iw, ih, ow, oh, k / depth) * depth + k % depth
  }

  lemma SourceByteInRange(iw: int, ih: int, ow: int, oh: int, depth: int, k: int)
    requires iw > 0 && ih > 0 && ow > 0 && oh > 0 && depth > 0 && 0 <= k < ow * oh * depth
    ensures 0 <= k / depth < ow * oh
    ensures 0 <= SourceByte(iw, ih, ow, oh, depth, k) < iw * ih * depth
  {
    assert ow * oh > 0 && iw * ih > 0;
    RowInRange(k, depth, ow * oh);
    SourcePixelInRange(iw, ih, ow, oh, k / depth);
    PixelInRange(SourcePixel(iw, ih, ow, oh, k / depth), k % depth, depth, iw * ih);
  }

  /** Every output byte is a copy of its source byte. */
  function Resized(iw: int, ih: int, raw: seq<byte>, depth: int, ow: int, oh: int): (r: seq<byte>)
    requires depth > 0 && GoodSize(iw, ih, |raw|, depth, ow, oh)
    ensures |r| == ow * oh * depth
    ensures forall k :: 0 <= k < |r| ==>
      && 0 <= SourceByte(iw, ih, ow, oh, depth, k) < |raw|
      && r[k] == raw[SourceByte(iw, ih, ow, oh, depth, k)]
  {
    assert 0 <= ow * oh * depth by {
      assert ow * oh > 0;
    }
    assert forall k :: 0 <= k < ow * oh * depth ==> 0 <= SourceByte(iw, ih, ow, oh, depth, k) < |raw| by {
      forall k | 0 <= k < ow * oh * depth ensures 0 <= SourceByte(iw, ih, ow, oh, depth, k) < |raw| {
        SourceByteInRange(iw, ih, ow, oh, depth, k);
      }
    }
    seq(ow * oh * depth, k requires 0 <= k < ow * oh * depth => raw[SourceByte(iw, ih, ow, oh, depth, k)])
  }

  /** What the resizers return; `depth` is 1 for grey and 3 for colour. */
  function Resize(iw: int, ih: int, raw: seq<byte>, depth: int, ow: int, oh: int): Result<seq<byte>>
    requires depth > 0
  {
    if !GoodSize(iw, ih, |raw|, depth, ow, oh) then Fail("SCHEMA_FAIL")
    else Ok(Resized(iw, ih, raw, depth, ow, oh))
  }

  /** The equal-size shortcut agrees with the copying loop. */
  lemma ResizedSameSize(w: int, h: int, raw: seq<byte>, depth: int)
    requires depth > 0 && GoodSize(w, h, |raw|, depth, w, h)
    ensures Resized(w, h, raw, depth, w, h) == raw
  {
    assert w * h > 0;
    forall k | 0 <= k < |raw| ensures SourceByte(w, h, w, h, depth, k) == k {
      RowInRange(k, depth, w * h);
      SourcePixelSameSize(w, h, k / depth);
    }
  }

  /** The scaled coordinate with the source's two clamps. */
  method ClampedSource(o: int, inSize: int, outSize: int) returns (i: int)
    requires 0 <= o < outSize && inSize >= 1
    ensures i == Source(o, inSize, outSize) && 0 <= i < inSize
  {
    i := (o * inSize) / outSize;
    SourceInRange(o, inSize, outSize);
    if i < 0 {
      i := 0;
    }
    if i >= inSize {
      i := inSize - 1;
    }
  }

  lemma NextRow(yo: int, ow: int, oh: int)
    requires 0 <= yo < oh && ow >= 1
    ensures (yo + 1) * ow == yo * ow + ow <= ow * oh
    ensures 0 <= yo * ow
  {
    assert (yo + 1) * ow <= oh * ow;
  }

  /** Output pixel (x, y) holds the bytes of its source pixel. */
  lemma PixelCopied(iw: int, ih: int, raw: seq<byte>, depth: int, ow: int, oh: int, y: int, x: int, c: int)
    requires depth > 0 && GoodSize(iw, ih, |raw|, depth, ow, oh)
    requires 0 <= y < oh && 0 <= x < ow && 0 <= c < depth
    ensures var dst, src := (y * ow + x) * depth + c, (Source(y, ih, oh) * iw + Source(x, iw, ow)) * depth + c;
      && 0 <= dst < ow * oh * depth
      && 0 <= src < |raw|
      && Resized(iw, ih, raw, depth, ow, oh)[dst] == raw[src]
  {
    hide Source;
    var n := y * ow + x;
    RowColumn(y, x, ow);
    PixelInRange(y, x, ow, oh);
    ByteOfPixel(iw, ih, raw, depth, ow, oh, n, c);
    assert SourcePixel(iw, ih, ow, oh, n) == Source(y, ih, oh) * iw + Source(x, iw, ow);
  }

  lemma ByteOfPixel(iw: int, ih: int, raw: seq<byte>, depth: int, ow: int, oh: int, n: int, c: int)
    requires depth > 0 && GoodSize(iw, ih, |raw|, depth, ow, oh)
    requires 0 <= n < ow * oh && 0 <= c < depth
    ensures var dst, src := n * depth + c, SourcePixel(iw, ih, ow, oh, n) * depth + c;
      && 0 <= dst < ow * oh * depth
      && 0 <= src < |raw|
      && Resized(iw, ih, raw, depth, ow, oh)[dst] == raw[src]
  {
    hide SourcePixel;
    RowColumn(n, c, depth);
    PixelInRange(n, c, depth, ow * oh);
    assert depth * (ow * oh) == ow * oh * depth;
    var r := Resized(iw, ih, raw, depth, ow, oh);
    var k := n * depth + c;
    assert 0 <= k < |r| && r[k] == raw[SourceByte(iw, ih, ow, oh, depth, k)];
    assert SourceByte(iw, ih, ow, oh, depth, n * depth + c) == SourcePixel(iw, ih, ow, oh, n) * depth + c;
  }

  /** The inner loop of the grey resizer: one output row, from byte `base`. */
  method GrayRow(iw: int, ih: int, pixels: seq<byte>, ow: int, oh: int, yo: int, base: int, out: array<byte>)
    requires GoodSize(iw, ih, |pixels|, 1, ow, oh) && 0 <= yo < oh && base == yo * ow
    requires out.Length == ow * oh && 0 <= base && base + ow <= ow * oh
    requires out[..base] == Resized(iw, ih, pixels, 1, ow, oh)[..base]
    modifies out
    ensures out[..base + ow] == Resized(iw, ih, pixels, 1, ow, oh)[..base + ow]
  {
    var yi := ClampedSource(yo, ih, oh);
    ghost var want := Resized(iw, ih, pixels, 1, ow, oh);
    hide Source, SourceByte, Resized;
    for xo := 0 to ow
      invariant forall k :: 0 <= k < base + xo ==> out[k] == want[k]
    {
      var xi := ClampedSource(xo, iw, ow);
      PixelCopied(iw, ih, pixels, 1, ow, oh, yo, xo, 0);
      out[base + xo] := pixels[yi * iw + xi];
    }
  }

  method ResizeGray(iw: int, ih: int, pixels: seq<byte>, ow: int, oh: int) returns (r: Result<seq<byte>>)
    ensures r == Resize(iw, ih, pixels, 1, ow, oh)
  {
    if iw < 1 || ih < 1 || ow < 1 || oh < 1 || |pixels| != iw * ih {
      return Fail("SCHEMA_FAIL");
    }
    if iw == ow && ih == oh {
      ResizedSameSize(iw, ih, pixels, 1);
      return Ok(pixels);
    }
    assert ow * oh > 0;
    var out := new byte[ow * oh];
    ghost var want := Resized(iw, ih, pixels, 1, ow, oh);
    hide Source, SourcePixel, SourceByte, Resized;
    ghost var total := ow * oh;
    var base := 0;
    for yo := 0 to oh
      invariant base == yo * ow && 0 <= base <= total
      invariant out[..base] == want[..base]
    {
      NextRow(yo, ow, oh);
      GrayRow(iw, ih, pixels, ow, oh, yo, base, out);
      base := base + ow;
    }
    assert base == total;
    assert out[..] == want;
    r := Ok(out[..]);
  }

  /** `out[dst : dst + 3] = raw[src : src + 3]`. */
  method CopyThree(out: array<byte>, dst: int, raw: seq<byte>, src: int)
    requires 0 <= dst && dst + 3 <= out.Length && 0 <= src && src + 3 <= |raw|
    modifies out
    ensures out[..] == old(out[..])[..dst] + raw[src..src + 3] + old(out[..])[dst + 3..]
  {
    out[dst], out[dst + 1], out[dst + 2] := raw[src], raw[src + 1], raw[src + 2];
  }

  /** Three agreeing bytes extend an agreeing prefix. */
  lemma PrefixGrows(before: seq<byte>, after: seq<byte>, want: seq<byte>, dst: int, raw: seq<byte>, src: int)
    requires |before| == |want| && 0 <= dst && dst + 3 <= |want| && 0 <= src && src + 3 <= |raw|
    requires before[..dst] == want[..dst]
    requires after == before[..dst] + raw[src..src + 3] + before[dst + 3..]
    requires want[dst] == raw[src] && want[dst + 1] == raw[src + 1] && want[dst + 2] == raw[src + 2]
    ensures |after| == |want| && after[..dst + 3] == want[..dst + 3]
  {
  }

  lemma PixelCopiedRgb(iw: int, ih: int, raw: seq<byte>, ow: int, oh: int, y: int, x: int)
    requires GoodSize(iw, ih, |raw|, 3, ow, oh)
    requires 0 <= y < oh && 0 <= x < ow
    ensures var dst, src := (y * ow + x) * 3, (Source(y, ih, oh) * iw + Source(x, iw, ow)) * 3;
            var want := Resized(iw, ih, raw, 3, ow, oh);
      && 0 <= dst && dst + 3 <= |want|
      && 0 <= src && src + 3 <= |raw|
      && want[dst] == raw[src] && want[dst + 1] == raw[src + 1] && want[dst + 2] == raw[src + 2]
  {
    hide Source;
    PixelCopied(iw, ih, raw, 3, ow, oh, y, x, 0);
    PixelCopied(iw, ih, raw, 3, ow, oh, y, x, 1);
    PixelCopied(iw, ih, raw, 3, ow, oh, y, x, 2);
  }

  /** The inner loop of the colour resizer: one output row, from byte 3 * base. */
  method RgbRow(iw: int, ih: int, pixels: seq<byte>, ow: int, oh: int, yo: int, base: int, out: array<byte>)
    requires GoodSize(iw, ih, |pixels|, 3, ow, oh) && 0 <= yo < oh && base == yo * ow
    requires out.Length == ow * oh * 3 && 0 <= base && base + ow <= ow * oh
    requires out[..base * 3] == Resized(iw, ih, pixels, 3, ow, oh)[..base * 3]
    modifies out
    ensures out[..(base + ow) * 3] == Resized(iw, ih, pixels, 3, ow, oh)[..(base + ow) * 3]
  {
    var yi := ClampedSource(yo, ih, oh);
    ghost var want := Resized(iw, ih, pixels, 3, ow, oh);
    ghost var total := ow * oh;
    hide Source, SourceByte, Resized;
    for xo := 0 to ow
      invariant out[..(base + xo) * 3] == want[..(base + xo) * 3]
    {
      var xi := ClampedSource(xo, iw, ow);
      var src, dst := (yi * iw + xi) * 3, (yo * ow + xo) * 3;
      PixelCopiedRgb(iw, ih, pixels, ow, oh, yo, xo);
      ghost var before := out[..];
      assert before[..dst] == want[..dst];
      CopyThree(out, dst, pixels, src);
      PrefixGrows(before, out[..], want, dst, pixels, src);
      assert (base + xo + 1) * 3 == dst + 3;
    }
  }

  method ResizeRgb(iw: int, ih: int, pixels: seq<byte>, ow: int, oh: int) returns (r: Result<seq<byte>>)
    ensures r == Resize(iw, ih, pixels, 3, ow, oh)
  {
    if iw < 1 || ih < 1 || ow < 1 || oh < 1 || |pixels| != iw * ih * 3 {
      return Fail("SCHEMA_FAIL");
    }
    if iw == ow && ih == oh {
      ResizedSameSize(iw, ih, pixels, 3);
      return Ok(pixels);
    }
    assert ow * oh > 0;
    var out := new byte[ow * oh * 3];
    ghost var want := Resized(iw, ih, pixels, 3, ow, oh);
    hide Source, SourcePixel, SourceByte, Resized;
    ghost var total := ow * oh;
    var base := 0;
    for yo := 0 to oh
      invariant base == yo * ow && 0 <= base <= total
      invariant out[..base * 3] == want[..base * 3]
    {
      NextRow(yo, ow, oh);
      RgbRow(iw, ih, pixels, ow, oh, yo, base, out);
      base := base + ow;
    }
    assert base == total;
    assert out[..] == want;
    r := Ok(out[..]);
  }

  /** Output pixel (x, y) is the source pixel whose row and column are y * ih / oh
      and x * iw / ow rounded down. */
  lemma ResizedMeaning(iw: int, ih: int, raw: seq<byte>, depth: int, ow: int, oh: int,
                       y: int, x: int, ys: int, xs: int, c: int)
    requires depth > 0 && GoodSize(iw, ih, |raw|, depth, ow, oh)
    requires 0 <= y < oh && 0 <= x < ow && 0 <= c < depth
    requires IsFloor(ys, y * ih, oh) && IsFloor(xs, x * iw, ow)
    ensures 0 <= ys < ih && 0 <= xs < iw
    ensures var dst, src := (y * ow + x) * depth + c, (ys * iw + xs) * depth + c;
      && 0 <= dst < ow * oh * depth
      && 0 <= src < |raw|
      && Resize(iw, ih, raw, depth, ow, oh).Ok?
      && Resize(iw, ih, raw, depth, ow, oh).value[dst] == raw[src]
  {
    FloorIff(ys, y * ih, oh);
    FloorIff(xs, x * iw, ow);
    SourceInRange(y, ih, oh);
    SourceInRange(x, iw, ow);
    PixelCopied(iw, ih, raw, depth, ow, oh, y, x, c);
  }

  // ----- up and down again -----

  lemma BytesScaled(iw: int, ih: int, raw: seq<byte>, depth: int, w: int, h: int, kx: int, ky: int)
    requires depth > 0 && kx >= 1 && ky >= 1 && GoodSize(iw, ih, |raw|, depth, w, h)
    requires GoodSize(iw, ih, |raw|, depth, kx * w, ky * h)
    ensures Resized(kx * w, ky * h, Resized(iw, ih, raw, depth, kx * w, ky * h), depth, w, h)
         == Resized(iw, ih, raw, depth, w, h)
  {
    hide SourcePixel;
    var big := Resized(iw, ih, raw, depth, kx * w, ky * h);
    assert w * h > 0;
    forall k | 0 <= k < w * h * depth
      ensures Resized(kx * w, ky * h, big, depth, w, h)[k] == Resized(iw, ih, raw, depth, w, h)[k]
    {
      RowInRange(k, depth, w * h);
      SourcePixelScaled(iw, ih, w, h, kx, ky, k / depth);
      var n := SourcePixel(kx * w, ky * h, w, h, k / depth);
      RowColumn(n, k % depth, depth);
      assert SourceByte(kx * w, ky * h, w, h, depth, k) == n * depth + k % depth;
    }
  }

  /** Resizing to a whole multiple of a size and then to the size is resizing to
      the size directly. In particular enlarging by whole factors is undone. */
  lemma ThroughMultiple(iw: int, ih: int, raw: seq<byte>, depth: int, w: int, h: int, kx: int, ky: int)
    requires depth > 0 && kx >= 1 && ky >= 1 && GoodSize(iw, ih, |raw|, depth, w, h)
    ensures Resize(iw, ih, raw, depth, kx * w, ky * h).Ok?
    ensures Resize(kx * w, ky * h, Resize(iw, ih, raw, depth, kx * w, ky * h).value, depth, w, h)
         == Resize(iw, ih, raw, depth, w, h)
    ensures iw == w && ih == h ==> Resize(iw, ih, raw, depth, w, h) == Ok(raw)
  {
    assert kx * w >= w && ky * h >= h;
    BytesScaled(iw, ih, raw, depth, w, h, kx, ky);
    if iw == w && ih == h {
      ResizedSameSize(w, h, raw, depth);
    }
  }

  // ----- grey -----

  /** The weighted mean with the weights 77, 150 and 29, rounded down. */
  function Gray(r: byte, g: byte, b: byte): (v: byte)
    ensures IsFloor(v, 77 * r + 150 * g + 29 * b, 256)
    ensures r <= v || g <= v || b <= v
    ensures v <= r || v <= g || v <= b
  {
    (77 * r + 150 * g + 29 * b) / 256
  }

  /** One grey byte for each colour triple. */
  function Grayed(rgb: seq<byte>): (r: seq<byte>)
    ensures |r| == |rgb| / 3
    ensures forall k :: 0 <= k < |r| ==> 3 * k + 2 < |rgb| && r[k] == Gray(rgb[3 * k], rgb[3 * k + 1], rgb[3 * k + 2])
  {
    seq(|rgb| / 3, k requires 0 <= k < |rgb| / 3 => Gray(rgb[3 * k], rgb[3 * k + 1], rgb[3 * k + 2]))
  }

  function ToGray(rgb: seq<byte>): Result<seq<byte>> {
    if |rgb| % 3 != 0 then Fail("SCHEMA_FAIL") else Ok(Grayed(rgb))
  }

  method RgbToGray(rgb: seq<byte>) returns (gray: Result<seq<byte>>)
    ensures gray == ToGray(rgb)
  {
    if |rgb| % 3 != 0 {
      return Fail("SCHEMA_FAIL");
    }
    ghost var n := |rgb| / 3;
    assert |rgb| == 3 * n;
    var out := new byte[|rgb| / 3];
    var j, i := 0, 0;
    while i < |rgb|
      invariant i == 3 * j && i <= |rgb|
      invariant forall k :: 0 <= k < j ==> out[k] == Gray(rgb[3 * k], rgb[3 * k + 1], rgb[3 * k + 2])
    {
      var r: int, g: int, b: int := rgb[i], rgb[i + 1], rgb[i + 2];
      out[j] := (77 * r + 150 * g + 29 * b) / 256;
      j, i := j + 1, i + 3;
    }
    assert out[..] == Grayed(rgb);
    gray := Ok(out[..]);
  }

  /** Converting and then resizing is resizing and then converting. */
  lemma GrayCommutes(iw: int, ih: int, rgb: seq<byte>, ow: int, oh: int)
    requires GoodSize(iw, ih, |rgb|, 3, ow, oh)
    ensures ToGray(rgb).Ok? && Resize(iw, ih, rgb, 3, ow, oh).Ok?
    ensures ToGray(Resize(iw, ih, rgb, 3, ow, oh).value) == Resize(iw, ih, ToGray(rgb).value, 1, ow, oh)
  {
    assert iw * ih > 0 && ow * oh > 0;
    assert |Grayed(rgb)| == iw * ih * 1;
    var big, small := Resized(iw, ih, rgb, 3, ow, oh), Resized(iw, ih, Grayed(rgb), 1, ow, oh);
    forall n | 0 <= n < ow * oh ensures Grayed(big)[n] == small[n] {
      SourcePixelInRange(iw, ih, ow, oh, n);
      var p := SourcePixel(iw, ih, ow, oh, n);
      TripleSource(iw, ih, ow, oh, n);
      assert small[n] == Grayed(rgb)[p];
    }
    assert Grayed(big) == small;
  }

  lemma TripleSource(iw: int, ih: int, ow: int, oh: int, n: int)
    requires ow > 0 && oh > 0
    ensures var p := SourcePixel(iw, ih, ow, oh, n);
      && SourceByte(iw, ih, ow, oh, 1, n) == p
      && SourceByte(iw, ih, ow, oh, 3, 3 * n) == 3 * p
      && SourceByte(iw, ih, ow, oh, 3, 3 * n + 1) == 3 * p + 1
      && SourceByte(iw, ih, ow, oh, 3, 3 * n + 2) == 3 * p + 2
  {
    RowColumn(n, 0, 3);
    RowColumn(n, 1, 3);
    RowColumn(n, 2, 3);
  }
}
