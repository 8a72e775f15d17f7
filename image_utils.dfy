/** The image helpers of utils/imageUtils.ts: loading an image, rendering a
    crop rectangle onto a canvas, and the centred automatic crop to 4:3 or 3:4.

    Decoding and drawing pixels are outside the model: the environment `Env`
    says which references decode (and to what natural size), whether a 2D
    drawing context can be created, and which data URL the encoder emits for
    a given source and rectangle. */
module ImageUtils {
  import opened Types

  type Pos = n: int | n > 0 witness 1

  /** The natural size of a decoded image, in pixels. */
  datatype Dims = Dims(w: Pos, h: Pos)

  /** A crop rectangle in source-image pixel coordinates. */
  datatype Rect = Rect(x: real, y: real, width: real, height: real)

  datatype RenderError = LoadError | NoContext

  datatype Env = Env(images: map<Url, Dims>, has2d: bool, encode: (Url, Rect) -> Url)

  /** `canvas.toDataURL` always yields a `data:` URL. */
  predicate IsDataUrl(u: Url)
  {
    |u| >= 5 && u[..5] == "data:"
  }

  /** `URL.createObjectURL` always yields a `blob:` URL. */
  predicate IsObjectUrl(u: Url)
  {
    |u| >= 5 && u[..5] == "blob:"
  }

  /** The encoder answers with data URLs, as `toDataURL` does. */
  ghost predicate EncodesDataUrls(env: Env)
  {
    forall s, r :: IsDataUrl(env.encode(s, r))
  }

  /** A data URL is never an object URL. */
  lemma DataUrlIsNotObjectUrl(u: Url, v: Url)
    ensures IsDataUrl(u) && IsObjectUrl(v) ==> u != v
  {
    if IsDataUrl(u) && IsObjectUrl(v) {
      assert u[0] == 'd' && v[0] == 'b';
    }
  }

  /** An encoded canvas: its data URL and its size in pixels. */
  datatype Rendered = Rendered(url: Url, width: int, height: int)

  /** The rectangle is non-empty and lies inside the image. */
  predicate Within(r: Rect, d: Dims)
  {
    0.0 <= r.x && 0.0 <= r.y && 0.0 < r.width && 0.0 < r.height &&
    r.x + r.width <= d.w as real && r.y + r.height <= d.h as real
  }

  /** `Math.round`: the nearest integer, halves rounding up. */
  function Round(v: real): (n: int)
    ensures v - 0.5 < n as real <= v + 0.5
  {
    (v + 0.5).Floor
  }

  /** The canvas keeps the integer part of a non-negative size it is given. */
  function CanvasSize(v: real): (n: int)
    requires 0.0 <= v
    ensures 0 <= n && n as real <= v < n as real + 1.0
  {
    v.Floor
  }

  /** `createImage`: resolves to the natural size, or rejects. */
  function CreateImage(src: Url, env: Env): (r: Result<Dims, RenderError>)
    ensures r.Success? <==> src in env.images
    ensures r.Success? ==> r.value == env.images[src]
    ensures r.Failure? ==> r.error == LoadError
  {
    if src in env.images then Success(env.images[src]) else Failure(LoadError)
  }

  /** `getCroppedImg`: loads the source, sizes a canvas to the rectangle and
      draws exactly that region into it, one source pixel per canvas pixel. */
  function GetCroppedImg(src: Url, crop: Rect, env: Env): (r: Result<Rendered, RenderError>)
    requires 0.0 <= crop.width && 0.0 <= crop.height
    ensures r.Success? <==> src in env.images && env.has2d
    ensures src !in env.images ==> r == Failure(LoadError)
    ensures src in env.images && !env.has2d ==> r == Failure(NoContext)
    ensures r.Success? ==> r.value.url == env.encode(src, crop)
    ensures r.Success? ==> r.value.width as real <= crop.width < r.value.width as real + 1.0
    ensures r.Success? ==> r.value.height as real <= crop.height < r.value.height as real + 1.0
    ensures r.Success? && EncodesDataUrls(env) ==> IsDataUrl(r.value.url)
    ensures r.Success? && EncodesDataUrls(env) && IsObjectUrl(src) ==> r.value.url != src
  {
    DataUrlIsNotObjectUrl(env.encode(src, crop), src);
    match CreateImage(src, env)
    case Failure(e) => Failure(e)
    case Success(_) =>
      if !env.has2d then Failure(NoContext)
      else Success(Rendered(env.encode(src, crop), CanvasSize(crop.width), CanvasSize(crop.height)))
  }

  /** The automatic target: 4:3 for landscape, 3:4 otherwise (squares included). */
  function AutoTargetRatio(d: Dims): (r: real)
    ensures d.w > d.h ==> r == 4.0 / 3.0
    ensures d.w <= d.h ==> r == 3.0 / 4.0
  {
    if d.w > d.h then 4.0 / 3.0 else 3.0 / 4.0
  }

  /** The centred crop before rounding. */
  function AutoCropExact(d: Dims): Rect
  {
    var w, h := d.w as real, d.h as real;
    var target := AutoTargetRatio(d);
    if w / h > target then
      var cropWidth := h * target;
      Rect((w - cropWidth) / 2.0, 0.0, cropWidth, h)
    else
      var cropHeight := w / target;
      Rect(0.0, (h - cropHeight) / 2.0, w, cropHeight)
  }

  /** The rectangle `autoCropImage` hands to the renderer: every value
      rounded. Rounding never pushes it past the image's edge, and it keeps
      at least one pixel each way. */
  function AutoCrop(d: Dims): (r: Rect)
    ensures Within(r, d)
    ensures 1.0 <= r.width && 1.0 <= r.height
    ensures var e := AutoCropExact(d);
            r.x == Round(e.x) as real && r.y == Round(e.y) as real &&
            r.width == Round(e.width) as real && r.height == Round(e.height) as real
  {
    var e := AutoCropExact(d);
    RoundedAutoCropFits(d);
    Rect(Round(e.x) as real, Round(e.y) as real, Round(e.width) as real, Round(e.height) as real)
  }

  /** `autoCropImage`: the data URL of the centred standard crop of `src`. */
  function AutoCropImage(src: Url, env: Env): (r: Result<Url, RenderError>)
    ensures r.Success? <==> src in env.images && env.has2d
    ensures r.Success? ==> r.value == env.encode(src, AutoCrop(env.images[src]))
    ensures r.Success? && EncodesDataUrls(env) && IsObjectUrl(src) ==> r.value != src
  {
    match CreateImage(src, env)
    case Failure(e) => Failure(e)
    case Success(d) =>
      match GetCroppedImg(src, AutoCrop(d), env)
      case Failure(e) => Failure(e)
      case Success(img) => Success(img.url)
  }

  /** Width over height equals the ratio, stated without division. */
  predicate HasRatio(r: Rect, ratio: real)
  {
    r.width == r.height * ratio
  }

  /** The unrounded crop keeps one full dimension and has the target ratio:
      full height when the image is wider than the target, full width otherwise. */
  lemma AutoCropExactShape(d: Dims)
    ensures var e, w, h, t := AutoCropExact(d), d.w as real, d.h as real, AutoTargetRatio(d);
            HasRatio(e, t) &&
            (w / h > t ==> e.height == h && e.y == 0.0) &&
            (w / h <= t ==> e.width == w && e.x == 0.0)
  {
  }

  /** The unrounded crop lies inside the image and is centred: the margins
      left and right are equal, and so are those above and below. */
  lemma {:induction false} AutoCropExactCentred(d: Dims)
    ensures var e := AutoCropExact(d);
            Within(e, d) &&
            e.x == d.w as real - (e.x + e.width) &&
            e.y == d.h as real - (e.y + e.height)
  {
    var w, h, t := d.w as real, d.h as real, AutoTargetRatio(d);
    var e := AutoCropExact(d);
    if w / h > t {
      assert w > h * t by { DivGreater(w, h, t); }
    } else {
      assert w / t <= h by { DivAtMost(w, h, t); }
    }
  }

  lemma DivGreater(w: real, h: real, t: real)
    requires h > 0.0 && w / h > t
    ensures w > h * t
  {
    assert w == (w / h) * h;
  }

  lemma DivAtMost(w: real, h: real, t: real)
    requires h > 0.0 && t > 0.0 && w / h <= t
    ensures w / t <= h
  {
    assert w == (w / h) * h;
    assert w / t == (w / h) * h / t;
  }

  /** Rounding both a centred margin and the crop length never pushes the
      crop past the edge: for an integer length `n` and a real `c` in (0, n],
      round((n - c) / 2) + round(c) <= n. */
  lemma RoundedCentredFits(n: int, c: real)
    requires 0.0 < c <= n as real
    ensures 0 <= Round((n as real - c) / 2.0)
    ensures Round((n as real - c) / 2.0) + Round(c) <= n
  {
    var d := n as real - c;
    var a := Round(d / 2.0);
    var b := Round(c);
    // b == n + floor(1/2 - d), and a <= d/2 + 1/2
    assert b == n + (0.5 - d).Floor;
    if a >= 1 {
      assert d >= 2.0 * a as real - 1.0;
      assert (0.5 - d).Floor <= 1 - 2 * a;
    } else {
      assert (0.5 - d).Floor <= 0;
    }
  }

  /** Rounding the centred crop's four values keeps it inside the image
      and at least one pixel each way. */
  lemma {:induction false} RoundedAutoCropFits(d: Dims)
    ensures var e := AutoCropExact(d);
            Round(e.x) >= 0 && Round(e.y) >= 0 &&
            Round(e.x) + Round(e.width) <= d.w && Round(e.y) + Round(e.height) <= d.h &&
            1 <= Round(e.width) && 1 <= Round(e.height)
  {
    var w, h, t := d.w as real, d.h as real, AutoTargetRatio(d);
    var e := AutoCropExact(d);
    AutoCropExactCentred(d);
    if w / h > t {
      RoundedCentredFits(d.w, e.width);
      assert e.width == h * t && h * t >= 0.75;
      assert Round(e.height) == d.h;
    } else {
      RoundedCentredFits(d.h, e.height);
      assert e.height == w / t && w / t >= 0.75;
      assert Round(e.width) == d.w;
    }
  }

  /** The worked example: a 1200 x 800 landscape is cut to 1067 x 800 at x = 67. */
  lemma AutoCropExample()
    ensures AutoTargetRatio(Dims(1200, 800)) == 4.0 / 3.0
    ensures AutoCrop(Dims(1200, 800)) == Rect(67.0, 0.0, 1067.0, 800.0)
  {
    var e := AutoCropExact(Dims(1200, 800));
    assert 1200.0 / 800.0 > 4.0 / 3.0;
    assert e == Rect(200.0 / 3.0, 0.0, 3200.0 / 3.0, 800.0);
    assert Round(200.0 / 3.0) == 67;
    assert Round(3200.0 / 3.0) == 1067;
  }

  /** Rendering the automatic crop gives a canvas of exactly the rounded size:
      the crop's integer width and height, not rescaled. */
  lemma AutoCropRendersExactSize(src: Url, env: Env)
    requires src in env.images && env.has2d
    ensures var c := AutoCrop(env.images[src]);
            var r := GetCroppedImg(src, c, env);
            r.Success? && r.value.width as real == c.width && r.value.height as real == c.height
  {
  }
}
