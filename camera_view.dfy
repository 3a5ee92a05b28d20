/**
 * `captureImage` of CameraView.tsx: it grabs the current video frame into an
 * off-screen canvas whose width is capped at 1280 pixels, keeping the aspect
 * ratio up to flooring, and gives up (returns null) when there is no video
 * element, the frame has no width or height, or no 2D context is available.
 */
module CameraView {
  import opened Wrappers

  /** The widest frame handed to OCR. */
  const MaxWidth: nat := 1280

  /** The video element's intrinsic frame size (`videoWidth`, `videoHeight`). */
  datatype Video = Video(videoWidth: nat, videoHeight: nat)

  /** The size of the captured image, in pixels. */
  datatype Size = Size(width: int, height: int)

  /** An off-screen canvas; only its size matters here (300 by 150 when created). */
  class Canvas {
    var width: int
    var height: int

    constructor ()
      ensures width == 300 && height == 150
    {
      width, height := 300, 150;
    }
  }

  /** `Math.min(1, 1280 / w)`. */
  function Scale(w: nat): real
    requires w > 0
  {
    var s := MaxWidth as real / w as real;
    if 1.0 <= s then 1.0 else s
  }

  /** `(Math.floor(w * scale), Math.floor(h * scale))`, in exact arithmetic. */
  function ScaledSize(w: nat, h: nat): Size
    requires w > 0
  {
    var scale := Scale(w);
    Size((w as real * scale).Floor, (h as real * scale).Floor)
  }

  /** A frame no wider than 1280 pixels keeps its size, because the scale is 1. */
  lemma NoDownscale(w: nat, h: nat)
    requires 0 < w <= MaxWidth
    ensures ScaledSize(w, h) == Size(w, h)
  {
  }

  /** The floor of `n / d` as a real is integer division. */
  lemma FloorOfQuotient(n: nat, d: nat)
    requires d > 0
    ensures (n as real / d as real).Floor == n / d
  {
    var q, r := n / d, n % d;
    assert n == q * d + r && 0 <= r < d;
    assert n as real / d as real == q as real + r as real / d as real;
    assert 0.0 <= r as real / d as real < 1.0;
  }

  /**
   * A frame wider than 1280 pixels is scaled to exactly 1280 wide, and its height
   * to `floor(h * 1280 / w)`: the aspect ratio is kept up to flooring.
   */
  lemma DownscaledSize(w: nat, h: nat)
    requires w > MaxWidth
    ensures ScaledSize(w, h) == Size(MaxWidth, (h * MaxWidth) / w)
  {
    var scale := MaxWidth as real / w as real;
    assert Scale(w) == scale;
    assert w as real * scale == MaxWidth as real;
    assert h as real * scale == (h * MaxWidth) as real / w as real;
    FloorOfQuotient(h * MaxWidth, w);
  }

  /** The captured width is at most 1280 and at most `w`, and the height at most `h`. */
  lemma ScaledSizeBounds(w: nat, h: nat)
    requires w > 0
    ensures var s := ScaledSize(w, h); 0 < s.width <= MaxWidth && s.width <= w && 0 <= s.height <= h
  {
    if w > MaxWidth {
      DownscaledSize(w, h);
      assert (h * MaxWidth) / w <= h by {
        assert h * MaxWidth <= h * w;
      }
    }
  }

  /**
   * `captureImage()`: `video` is the element behind the ref (None when it is not
   * mounted) and `has2dContext` whether `getContext('2d')` yields a context. The
   * result is the size of the PNG frame handed on, or None for the null returns.
   */
  method CaptureImage(video: Option<Video>, has2dContext: bool) returns (r: Option<Size>)
    ensures r.None? <==>
      video.None? || video.value.videoWidth == 0 || video.value.videoHeight == 0 || !has2dContext
    ensures r.Some? ==> r.value == ScaledSize(video.value.videoWidth, video.value.videoHeight)
    ensures r.Some? ==> 0 < r.value.width <= MaxWidth && r.value.width <= video.value.videoWidth
    ensures r.Some? ==> 0 <= r.value.height <= video.value.videoHeight
  {
    if video.None? {
      return None;
    }
    var canvas := new Canvas();
    var w, h := video.value.videoWidth, video.value.videoHeight;
    if w == 0 || h == 0 {
      return None;
    }
    var scale := Scale(w);
    canvas.width := (w as real * scale).Floor;
    canvas.height := (h as real * scale).Floor;
    if !has2dContext {
      return None;
    }
    ScaledSizeBounds(w, h);
    r := Some(Size(canvas.width, canvas.height));
  }
}
