/** The manual cropper of components/ImageCropper.tsx: a ratio chosen from a
    fixed catalogue, two offset sliders, and the crop rectangle computed from
    them when the user applies the crop. */
module ImageCropper {
  import opened Types
  import opened ImageUtils

  /** A slider position: an integer percentage. */
  type Percent = n: int | 0 <= n <= 100

  datatype AspectRatioOption = AspectRatioOption(name: string, value: real)

  const AspectRatios: seq<AspectRatioOption> := [
    AspectRatioOption("3:4 (Retrato)", 3.0 / 4.0),
    AspectRatioOption("1:1 (Cuadrado)", 1.0),
    AspectRatioOption("4:3 (Paisaje)", 4.0 / 3.0)
  ]

  predicate InCatalog(ratio: real)
  {
    exists i :: 0 <= i < |AspectRatios| && AspectRatios[i].value == ratio
  }

  function Abs(v: real): (a: real)
    ensures 0.0 <= a && (a == v || a == -v)
  {
    if v < 0.0 then -v else v
  }

  /** A ratio button is highlighted when its value is within 0.01 of the current ratio. */
  predicate IsSelectedRatio(current: real, value: real)
  {
    Abs(current - value) < 0.01
  }

  /** The catalogue holds exactly 3/4, 1 and 4/3, and for a ratio taken from
      it, the highlighted button is exactly the one with that value. */
  lemma CatalogSelection(current: real)
    ensures InCatalog(current) <==> current == 3.0 / 4.0 || current == 1.0 || current == 4.0 / 3.0
    ensures InCatalog(current) ==>
              forall i :: 0 <= i < |AspectRatios| ==>
                (IsSelectedRatio(current, AspectRatios[i].value) <==> AspectRatios[i].value == current)
  {
    if current == 3.0 / 4.0 { assert AspectRatios[0].value == current; }
    if current == 1.0 { assert AspectRatios[1].value == current; }
    if current == 4.0 / 3.0 { assert AspectRatios[2].value == current; }
  }

  lemma ScaledSlack(p: Percent, slack: real)
    requires 0.0 <= slack
    ensures 0.0 <= (p as real / 100.0) * slack <= slack
  {
    assert (p as real / 100.0) * slack <= 1.0 * slack;
  }

  /** The rectangle `handleCrop` computes: the largest window of the chosen
      ratio that keeps one full dimension, slid along the other dimension by
      the slider percentage of the slack. */
  function ManualCrop(d: Dims, ratio: real, offsetX: Percent, offsetY: Percent): (r: Rect)
    requires ratio > 0.0
    ensures Within(r, d) && HasRatio(r, ratio)
    ensures d.w as real / d.h as real > ratio ==> r.height == d.h as real
    ensures d.w as real / d.h as real <= ratio ==> r.width == d.w as real
  {
    var w, h := d.w as real, d.h as real;
    var imgRatio := w / h;
    var cropWidth := if imgRatio > ratio then h * ratio else w;
    var cropHeight := if imgRatio > ratio then h else w / ratio;
    var maxOffsetX := w - cropWidth;
    var maxOffsetY := h - cropHeight;
    assert 0.0 <= maxOffsetX && 0.0 <= maxOffsetY by {
      if imgRatio > ratio { DivGreater(w, h, ratio); } else { DivAtMost(w, h, ratio); }
    }
    ScaledSlack(offsetX, maxOffsetX);
    ScaledSlack(offsetY, maxOffsetY);
    Rect((offsetX as real / 100.0) * maxOffsetX, (offsetY as real / 100.0) * maxOffsetY,
         cropWidth, cropHeight)
  }

  /** When the image already has the chosen ratio, the crop is the whole image. */
  lemma ManualCropWholeImage(d: Dims, ratio: real, offsetX: Percent, offsetY: Percent)
    requires ratio > 0.0 && d.w as real == d.h as real * ratio
    ensures ManualCrop(d, ratio, offsetX, offsetY) == Rect(0.0, 0.0, d.w as real, d.h as real)
  {
    var w, h := d.w as real, d.h as real;
    assert w / h == ratio;
    assert w / ratio == h;
  }

  /** Slider 0 puts the window at the left (top) edge, 100 at the right
      (bottom) edge, and 50 centres it. */
  lemma ManualCropOffsetEnds(d: Dims, ratio: real, offsetX: Percent, offsetY: Percent)
    requires ratio > 0.0
    ensures var r := ManualCrop(d, ratio, offsetX, offsetY);
            (offsetX == 0 ==> r.x == 0.0) &&
            (offsetX == 100 ==> r.x + r.width == d.w as real) &&
            (offsetX == 50 ==> r.x == d.w as real - (r.x + r.width)) &&
            (offsetY == 0 ==> r.y == 0.0) &&
            (offsetY == 100 ==> r.y + r.height == d.h as real) &&
            (offsetY == 50 ==> r.y == d.h as real - (r.y + r.height))
  {
  }

  /** Moving a slider further never moves the window back, and moving one
      slider changes neither the size nor the other coordinate. */
  lemma ManualCropMonotone(d: Dims, ratio: real, x1: Percent, x2: Percent, y1: Percent, y2: Percent)
    requires ratio > 0.0 && x1 <= x2 && y1 <= y2
    ensures var a, b := ManualCrop(d, ratio, x1, y1), ManualCrop(d, ratio, x2, y2);
            a.x <= b.x && a.y <= b.y && a.width == b.width && a.height == b.height
  {
    var a, b := ManualCrop(d, ratio, x1, y1), ManualCrop(d, ratio, x2, y2);
    var slackX, slackY := d.w as real - a.width, d.h as real - a.height;
    assert a.x == (x1 as real / 100.0) * slackX && b.x == (x2 as real / 100.0) * slackX;
    assert a.y == (y1 as real / 100.0) * slackY && b.y == (y2 as real / 100.0) * slackY;
    assert (x2 as real / 100.0) * slackX - (x1 as real / 100.0) * slackX
        == ((x2 - x1) as real / 100.0) * slackX;
    assert (y2 as real / 100.0) * slackY - (y1 as real / 100.0) * slackY
        == ((y2 - y1) as real / 100.0) * slackY;
    ScaledSlack(x2 - x1, slackX);
    ScaledSlack(y2 - y1, slackY);
  }

  /** The cropper dialog for one image. */
  class Cropper {
    const imageSrc: Url
    /** The selection held by the `onConfirm` callback the dialog was given:
        a crop in flight reports to that photo even after the dialog closes. */
    const confirmFor: Option<string>
    var aspectRatio: real
    var offsetX: Percent
    var offsetY: Percent
    var isProcessing: bool
    var imageLoaded: bool
    var imgW: int
    var imgH: int
    /** The rectangle handed to the renderer while a crop is in progress. */
    var pendingCrop: Option<Rect>
    /** How many error notices the dialog has raised. */
    var alerts: nat

    ghost predicate Valid()
      reads this
    {
      aspectRatio > 0.0 && InCatalog(aspectRatio) &&
      (imageLoaded ==> imgW > 0 && imgH > 0) &&
      (isProcessing <==> pendingCrop.Some?) &&
      (pendingCrop.Some? ==> imageLoaded && Within(pendingCrop.value, Dims(imgW, imgH)))
    }

    /** Apply is enabled once the image has loaded and while no crop runs. */
    predicate ApplyEnabled()
      reads this
    {
      !isProcessing && imageLoaded
    }

    constructor (src: Url, owner: Option<string>)
      ensures Valid()
      ensures imageSrc == src && confirmFor == owner && aspectRatio == 3.0 / 4.0 && offsetX == 50 && offsetY == 50
      ensures !isProcessing && !imageLoaded && imgW == 0 && imgH == 0
      ensures pendingCrop == None && alerts == 0
    {
      imageSrc := src;
      confirmFor := owner;
      aspectRatio := 3.0 / 4.0;
      offsetX, offsetY := 50, 50;
      isProcessing, imageLoaded := false, false;
      imgW, imgH := 0, 0;
      pendingCrop := None;
      alerts := 0;
      assert AspectRatios[0].value == 3.0 / 4.0;
    }

    /** The image has decoded: record its size and default the ratio to the
        image's orientation. The loading effect settles once per dialog. */
    method ImageLoaded(d: Dims)
      requires Valid() && !imageLoaded
      modifies this
      ensures Valid()
      ensures imgW == d.w && imgH == d.h && imageLoaded
      ensures aspectRatio == (if d.w > d.h then 4.0 / 3.0 else 3.0 / 4.0)
      ensures offsetX == old(offsetX) && offsetY == old(offsetY)
      ensures isProcessing == old(isProcessing) && pendingCrop == old(pendingCrop) && alerts == old(alerts)
    {
      imgW, imgH := d.w, d.h;
      if d.w > d.h {
        aspectRatio := 4.0 / 3.0;
        assert AspectRatios[2].value == aspectRatio;
      } else {
        aspectRatio := 3.0 / 4.0;
        assert AspectRatios[0].value == aspectRatio;
      }
      imageLoaded := true;
    }

    /** A ratio button was clicked. */
    method ChooseRatio(i: nat)
      requires Valid() && i < |AspectRatios|
      modifies this`aspectRatio
      ensures Valid() && aspectRatio == AspectRatios[i].value
    {
      aspectRatio := AspectRatios[i].value;
    }

    method SetOffsetX(v: Percent)
      requires Valid()
      modifies this`offsetX
      ensures Valid() && offsetX == v
    {
      offsetX := v;
    }

    method SetOffsetY(v: Percent)
      requires Valid()
      modifies this`offsetY
      ensures Valid() && offsetY == v
    {
      offsetY := v;
    }

    /** Apply was clicked. A disabled button does nothing; otherwise the
        rectangle is computed from the current ratio and sliders and the
        dialog starts processing. */
    method ClickApply() returns (started: bool)
      requires Valid()
      modifies this`isProcessing, this`pendingCrop
      ensures Valid()
      ensures started == old(ApplyEnabled())
      ensures !started ==> isProcessing == old(isProcessing) && pendingCrop == old(pendingCrop)
      ensures started ==>
                isProcessing &&
                pendingCrop == Some(ManualCrop(Dims(imgW, imgH), aspectRatio, offsetX, offsetY))
    {
      started := ApplyEnabled();
      if started {
        isProcessing := true;
        pendingCrop := Some(ManualCrop(Dims(imgW, imgH), aspectRatio, offsetX, offsetY));
      }
    }

    /** The renderer settled. On success the new image is confirmed; on
        failure nothing is confirmed and one notice is raised. Either way
        processing ends. */
    method CropSettled(env: Env) returns (confirmed: Option<Url>)
      requires Valid()
      modifies this`isProcessing, this`pendingCrop, this`alerts
      ensures Valid() && !isProcessing && pendingCrop == None
      ensures old(pendingCrop).None? ==> confirmed == None && alerts == old(alerts)
      ensures old(pendingCrop).Some? ==>
        var res := GetCroppedImg(imageSrc, old(pendingCrop).value, env);
        (confirmed == if res.Success? then Some(res.value.url) else None) &&
        alerts == old(alerts) + (if res.Success? then 0 else 1)
    {
      confirmed := None;
      if pendingCrop.Some? {
        var res := GetCroppedImg(imageSrc, pendingCrop.value, env);
        if res.Success? {
          confirmed := Some(res.value.url);
        } else {
          alerts := alerts + 1;
        }
      }
      isProcessing := false;
      pendingCrop := None;
    }
  }
}
