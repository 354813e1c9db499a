/**
 * Heatmap decoding: the argmax scan of `LocateKeyPoint` and the grid-to-texture
 * mapping of `ProcessResults`, stated as pure specifications.
 */
module HeatmapDecode {
  import opened PoseTypes

  /**
   * The network's output tensor with the batch dimension dropped: `cells[y][x][k]`
   * is `heatmaps[0, y, x, k]`.
   */
  datatype Heatmap = Heatmap(height: nat, width: nat, channels: nat, cells: seq<seq<seq<real>>>)
  {
    predicate Wf() {
      && |cells| == height
      && forall y | 0 <= y < height ::
           && |cells[y]| == width
           && forall x | 0 <= x < width :: |cells[y][x]| == channels
    }

    function At(y: nat, x: nat, k: nat): real
      requires Wf() && y < height && x < width && k < channels
    {
      cells[y][x][k]
    }
  }

  /** What the scan keeps: the winning cell `(x, y)` and `maxConfidence`. */
  datatype Peak = Peak(x: nat, y: nat, conf: real)

  /** Row-major order, `y` outer and `x` inner: cell (y1, x1) is visited before (y2, x2). */
  predicate Before(y1: nat, x1: nat, y2: nat, x2: nat) {
    y1 < y2 || (y1 == y2 && x1 < x2)
  }

  /**
   * `c` is what a scan starting from `(0, 0)` with maximum `0` and a strict `>` comparison
   * holds once it has visited every cell before `(y, x)`: the maximum of 0 and those
   * cells, and the first of them attaining it (or `(0, 0)` when none exceeds 0).
   */
  ghost predicate ScannedUpTo(h: Heatmap, k: nat, y: nat, x: nat, c: Peak)
    requires h.Wf() && k < h.channels
  {
    && 0.0 <= c.conf
    && (forall y': nat, x': nat | y' < h.height && x' < h.width && Before(y', x', y, x) ::
          h.At(y', x', k) <= c.conf)
    && ( (c.conf == 0.0 && c.x == 0 && c.y == 0)
      || ( && 0.0 < c.conf
           && c.y < h.height && c.x < h.width
           && Before(c.y, c.x, y, x)
           && h.At(c.y, c.x, k) == c.conf
           && forall y': nat, x': nat | y' < h.height && x' < h.width && Before(y', x', c.y, c.x) ::
                h.At(y', x', k) < c.conf))
  }

  /** `c` is the result of scanning the whole of channel `k`. */
  ghost predicate IsPeak(h: Heatmap, k: nat, c: Peak)
    requires h.Wf() && k < h.channels
  {
    ScannedUpTo(h, k, h.height, 0, c)
  }

  /** The peak of a channel is determined by the heatmap: the scan is deterministic. */
  lemma PeakUnique(h: Heatmap, k: nat, c1: Peak, c2: Peak)
    requires h.Wf() && k < h.channels
    requires IsPeak(h, k, c1) && IsPeak(h, k, c2)
    ensures c1 == c2
  {
  }

  function Abs(a: int): nat {
    if a < 0 then -a else a
  }

  /**
   * C#'s `int / int`: the quotient truncated toward zero (Dafny's own `/` is Euclidean).
   */
  function CsDiv(a: int, b: int): (q: int)
    requires b != 0
    ensures 0 <= a && 0 < b ==> q == a / b
    ensures Abs(q) * Abs(b) <= Abs(a) < (Abs(q) + 1) * Abs(b)
    ensures (a < 0) == (b < 0) ==> 0 <= q
    ensures (a < 0) != (b < 0) ==> q <= 0
  {
    var m := Abs(a) / Abs(b);
    DivBounds(Abs(a), Abs(b));
    if (a < 0) == (b < 0) then m else -m
  }

  lemma DivBounds(a: nat, b: nat)
    requires 0 < b
    ensures (a / b) * b <= a < (a / b + 1) * b
  {
    assert a == b * (a / b) + a % b;
  }

  /**
   * Grid cell `(x, y)` in texture space: `x * stride * scaleX` and
   * `(imageHeight - y * stride) * scaleY`, with `scaleX = texWidth / imageWidth`
   * and `scaleY = texHeight / imageHeight`.
   */
  function ToTexture(x: nat, y: nat, stride: int, imageHeight: int, imageWidth: int,
                     texWidth: int, texHeight: int): Vec2
    requires imageHeight != 0 && imageWidth != 0
  {
    var scaleY := texHeight as real / imageHeight as real;
    var scaleX := texWidth as real / imageWidth as real;
    Vec2(x as real * stride as real * scaleX,
         (imageHeight as real - y as real * stride as real) * scaleY)
  }

  /**
   * `obs` is what `ProcessResults` stores for joint `k`: the peak of channel `k`,
   * mapped to texture space with `stride = imageHeight / heatmapHeight` (integer division).
   */
  ghost predicate DecodedAs(h: Heatmap, k: nat, obs: Observation, imageHeight: int, imageWidth: int,
                            texWidth: int, texHeight: int)
    requires h.Wf() && k < h.channels && 0 < h.height
    requires imageHeight != 0 && imageWidth != 0
  {
    exists c: Peak :: IsPeak(h, k, c) &&
      var p := ToTexture(c.x, c.y, CsDiv(imageHeight, h.height), imageHeight, imageWidth, texWidth, texHeight);
      obs == Observation(p.x, p.y, c.conf)
  }

  /**
   * For a positive network input size, every heatmap row lands inside the texture's
   * height: `0 < imageHeight - y * stride <= imageHeight`, so `yPos` is in `(0, texHeight]`.
   */
  lemma ToTextureRange(x: nat, y: nat, heatmapHeight: nat, imageHeight: int, imageWidth: int,
                       texWidth: nat, texHeight: nat)
    requires 0 < heatmapHeight && y < heatmapHeight
    requires 0 < imageHeight && 0 < imageWidth
    ensures var stride := CsDiv(imageHeight, heatmapHeight);
            var p := ToTexture(x, y, stride, imageHeight, imageWidth, texWidth, texHeight);
            && 0 < imageHeight - y * stride <= imageHeight
            && 0.0 <= p.y <= texHeight as real
            && (0 < texHeight ==> 0.0 < p.y)
  {
    var stride := CsDiv(imageHeight, heatmapHeight);
    RowWithinImage(y, heatmapHeight, imageHeight);
    ScaleWithin(imageHeight - y * stride, imageHeight, texHeight);
  }

  lemma RowWithinImage(y: nat, heatmapHeight: nat, imageHeight: int)
    requires y < heatmapHeight && 0 < imageHeight
    ensures 0 < imageHeight - y * CsDiv(imageHeight, heatmapHeight) <= imageHeight
  {
  }

  lemma ScaleWithin(d: int, imageHeight: int, texHeight: nat)
    requires 0 < d <= imageHeight
    ensures 0.0 <= d as real * (texHeight as real / imageHeight as real) <= texHeight as real
    ensures 0 < texHeight ==> 0.0 < d as real * (texHeight as real / imageHeight as real)
  {
    var r := d as real / imageHeight as real;
    assert 0.0 < r <= 1.0;
    assert d as real * (texHeight as real / imageHeight as real) == r * texHeight as real;
  }

  /**
   * The worked example: a 16×16 heatmap whose channel `k` peaks strictly at cell
   * (x = 8, y = 4), a 352×352 network input and a 704×704 texture give `(352, 528)`.
   */
  lemma DecodeExample(h: Heatmap, k: nat, obs: Observation)
    requires h.Wf() && h.height == 16 && h.width == 16 && k < h.channels
    requires 0.0 < h.At(4, 8, k)
    requires forall y: nat, x: nat | y < 16 && x < 16 && (y, x) != (4, 8) :: h.At(y, x, k) < h.At(4, 8, k)
    requires DecodedAs(h, k, obs, 352, 352, 704, 704)
    ensures obs == Observation(352.0, 528.0, h.At(4, 8, k))
  {
  }
}
