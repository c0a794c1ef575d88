/** Nearest-neighbour thumbnails: the size of the target and the pixels it samples. */
module Thumbnails {

  /** The shorter side of the target, when the longer one is cut to `maxDim`. */
  function Scaled(short: nat, long: nat, maxDim: nat): nat
    requires long > 0
  {
    short * maxDim / long
  }

  /** The target's width and height. */
  function Target(width: nat, height: nat, maxDim: nat): (nat, nat) {
    if width <= maxDim && height <= maxDim then (width, height)
    else if width > height then (maxDim, Scaled(height, width, maxDim))
    else (Scaled(width, height, maxDim), maxDim)
  }

  /** The source coordinate sampled for target coordinate i. */
  function Sample(i: nat, size: nat, target: nat): nat
    requires target > 0
  {
    i * size / target
  }

  lemma QuotientAtMost(a: nat, d: nat, bound: nat)
    requires d > 0 && a <= bound * d
    ensures a / d <= bound
  {
    assert a == (a / d) * d + a % d;
    if a / d > bound {
      LessTimes(bound + 1, a / d, d);
    }
  }

  lemma LessTimes(a: nat, b: nat, d: nat)
    requires a <= b
    ensures a * d <= b * d
  {}

  lemma QuotientBelow(a: nat, d: nat, bound: nat)
    requires d > 0 && a < bound * d
    ensures a / d < bound
  {
    assert a == (a / d) * d + a % d;
    if a / d >= bound {
      LessTimes(bound, a / d, d);
    }
  }

  lemma QuotientAtLeast(a: nat, d: nat, bound: nat)
    requires d > 0 && bound * d <= a
    ensures bound <= a / d
  {
    assert a == (a / d) * d + a % d;
    if a / d < bound {
      LessTimes(a / d + 1, bound, d);
    }
  }

  /** The target is larger than neither the source nor the limit. */
  lemma TargetFits(width: nat, height: nat, maxDim: nat)
    ensures var (w, h) := Target(width, height, maxDim);
            w <= width && h <= height && w <= maxDim && h <= maxDim
  {
    if width > maxDim || height > maxDim {
      var long, short := if width > height then width else height, if width > height then height else width;
      LessTimes(maxDim, long, short);
      LessTimes(short, long, maxDim);
      assert short * maxDim == maxDim * short && short * long == long * short;
      QuotientAtMost(short * maxDim, long, short);
      QuotientAtMost(short * maxDim, long, maxDim);
    }
  }

  lemma QuotientIs(a: nat, d: nat, q: nat)
    requires d > 0 && q == a / d
    ensures q * d <= a < (q + 1) * d
  {
    assert a == q * d + a % d;
  }

  /** A larger source keeps its shape: the longer side becomes the limit, the shorter one its share of it. */
  lemma TargetKeepsShape(width: nat, height: nat, maxDim: nat)
    requires width > maxDim || height > maxDim
    ensures var (w, h) := Target(width, height, maxDim);
            if width > height then w == maxDim && h * width <= height * maxDim < (h + 1) * width
            else h == maxDim && w * height <= width * maxDim < (w + 1) * height
  {
    var (w, h) := Target(width, height, maxDim);
    if width > height {
      QuotientIs(height * maxDim, width, h);
    } else {
      QuotientIs(width * maxDim, height, w);
    }
  }

  /** The pixel sampled is the one that the corner of the target pixel falls in. */
  lemma SampleIs(i: nat, size: nat, target: nat)
    requires target > 0
    ensures Sample(i, size, target) * target <= i * size < (Sample(i, size, target) + 1) * target
  {
    QuotientIs(i * size, target, Sample(i, size, target));
  }

  /** The target has no pixel exactly when the source has none or is more than `maxDim` times as long as it is wide. */
  lemma EmptyTargetIff(width: nat, height: nat, maxDim: nat)
    requires maxDim > 0
    ensures var (w, h) := Target(width, height, maxDim);
            w == 0 || h == 0 <==> width == 0 || height == 0 || TooLong(width, height, maxDim)
  {
    if width > maxDim || height > maxDim {
      if width > height {
        ShortSideVanishesIff(height, width, maxDim);
      } else {
        ShortSideVanishesIff(width, height, maxDim);
      }
    }
  }

  predicate TooLong(width: nat, height: nat, maxDim: nat) {
    (width > maxDim || height > maxDim) && if width > height then width > height * maxDim else height > width * maxDim
  }

  lemma ShortSideVanishesIff(short: nat, long: nat, maxDim: nat)
    requires long > 0
    ensures short * maxDim / long == 0 <==> short * maxDim < long
  {
    if short * maxDim < long {
      QuotientBelow(short * maxDim, long, 1);
    } else {
      QuotientAtLeast(short * maxDim, long, 1);
    }
  }

  /** Every sample lies inside the source. */
  lemma SampleInside(i: nat, size: nat, target: nat)
    requires i < target <= size
    ensures Sample(i, size, target) < size
  {
    LessTimes(i + 1, target, size);
    assert size * target == target * size;
    QuotientBelow(i * size, target, size);
  }

  /** Different target coordinates sample different source coordinates, in the same order. */
  lemma SampleIncreasing(i: nat, j: nat, size: nat, target: nat)
    requires i < j && 0 < target <= size
    ensures Sample(i, size, target) < Sample(j, size, target)
  {
    LessTimes(i + 1, j, size);
    var q := Sample(i, size, target);
    assert i * size == q * target + i * size % target;
    assert (q + 1) * target == q * target + target;
    assert (i + 1) * size == i * size + size;
    QuotientAtLeast(j * size, target, q + 1);
  }

  /** Two pixels of the target that sample the same pixel of the source are the same pixel. */
  lemma PixelsInjective(x: nat, y: nat, x2: nat, y2: nat, width: nat, height: nat, maxDim: nat)
    requires var (w, h) := Target(width, height, maxDim);
             && x < w && x2 < w && y < h && y2 < h
             && Sample(x, width, w) == Sample(x2, width, w) && Sample(y, height, h) == Sample(y2, height, h)
    ensures x == x2 && y == y2
  {
    var (w, h) := Target(width, height, maxDim);
    TargetFits(width, height, maxDim);
    if x != x2 {
      SampleIncreasing(if x < x2 then x else x2, if x < x2 then x2 else x, width, w);
    }
    if y != y2 {
      SampleIncreasing(if y < y2 then y else y2, if y < y2 then y2 else y, height, h);
    }
  }

  /** A source within the limit is copied pixel by pixel. */
  lemma SmallSourceCopied(i: nat, width: nat, height: nat, maxDim: nat)
    requires width <= maxDim && height <= maxDim
    ensures Target(width, height, maxDim) == (width, height)
    ensures width > 0 ==> Sample(i, width, width) == i
  {
    if width > 0 {
      QuotientAtMost(i * width, width, i);
      QuotientAtLeast(i * width, width, i);
    }
  }

  /** The sampled coordinates of one axis. */
  ghost function Samples(size: nat, target: nat): (all: seq<nat>)
    requires target <= size
    ensures |all| == target && forall i :: 0 <= i < target ==> all[i] == Sample(i, size, target) && all[i] < size
  {
    var all := seq(target, i requires 0 <= i < target => Sample(i, size, target));
    assert forall i :: 0 <= i < target ==> all[i] < size by {
      forall i | 0 <= i < target ensures all[i] < size {
        SampleInside(i, size, target);
      }
    }
    all
  }

  type Color = int

  /** Pixel (x, y) of the target is a copy of the pixel it samples, which exists. */
  ghost predicate Copied(src: array2<Color>, dst: array2<Color>, x: nat, y: nat)
    requires x < dst.Length0 && y < dst.Length1
    reads src, dst
  {
    var sx, sy := Sample(x, src.Length0, dst.Length0), Sample(y, src.Length1, dst.Length1);
    sx < src.Length0 && sy < src.Length1 && dst[x, y] == src[sx, sy]
  }

  /** `src[x, y]` is the pixel x to the right of and y below the corner of the source. */
  method ResizeImage(src: array2<Color>, maxDim: nat) returns (dst: array2<Color>)
    ensures fresh(dst)
    ensures (dst.Length0, dst.Length1) == Target(src.Length0, src.Length1, maxDim)
    ensures forall x, y :: 0 <= x < dst.Length0 && 0 <= y < dst.Length1 ==> Copied(src, dst, x, y)
  {
    var width, height := src.Length0, src.Length1;
    var targetW, targetH := width, height;
    if width > maxDim || height > maxDim {
      if width > height {
        targetW := maxDim;
        targetH := height * maxDim / width;
      } else {
        targetH := maxDim;
        targetW := width * maxDim / height;
      }
    }
    TargetFits(width, height, maxDim);
    dst := new Color[targetW, targetH];
    ghost var xs, ys := Samples(width, targetW), Samples(height, targetH);
    for y := 0 to targetH
      invariant forall i, j :: 0 <= i < targetW && 0 <= j < y ==> dst[i, j] == src[xs[i], ys[j]]
    {
      for x := 0 to targetW
        invariant forall i, j :: 0 <= i < targetW && 0 <= j < y ==> dst[i, j] == src[xs[i], ys[j]]
        invariant forall i :: 0 <= i < x ==> dst[i, y] == src[xs[i], ys[y]]
      {
        var srcX := x * width / targetW;
        var srcY := y * height / targetH;
        assert srcX == xs[x] && srcY == ys[y];
        dst[x, y] := src[srcX, srcY];
      }
    }
  }
}
