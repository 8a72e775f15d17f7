/** The standardisation screen of components/PhotoStandardizer.tsx: the
    per-photo status badge, the manual crop of one selected photo, and the
    automatic pass that crops every photo to 4:3 or 3:4 and commits the new
    urls in one bulk update only if every crop succeeded. */
module PhotoStandardizer {
  import opened Types
  import opened ImageUtils
  import ImageCropper
  import App

  /** A photo is badged as standardised when its working url differs from the original. */
  predicate IsStandardized(p: Photo)
  {
    p.url != p.originalUrl
  }

  /** A freshly uploaded photo shows no badge, and an upload leaves the
      badges of the photos already staged as they were. */
  lemma UploadsStartUnbadged(prev: seq<Photo>, files: seq<FileRef>, ids: seq<string>, urls: seq<Url>)
    requires |ids| == |files| && |urls| == |files|
    ensures var r := App.Uploaded(prev, Some(files), ids, urls);
            (forall i :: 0 <= i < |prev| ==> (IsStandardized(r[i]) <==> IsStandardized(prev[i]))) &&
            (forall i :: |prev| <= i < |r| ==> !IsStandardized(r[i]))
  {
    var r := App.Uploaded(prev, Some(files), ids, urls);
    forall i | |prev| <= i < |r|
      ensures !IsStandardized(r[i])
    {
      assert r[|prev| + (i - |prev|)] == r[i];
    }
  }

  /** After a single update the badge of the updated photo shows exactly when
      the new url differs from its original; every other badge is unchanged. */
  lemma BadgeAfterUpdate(photos: seq<Photo>, id: string, newUrl: Url)
    ensures var r := App.WithUrl(photos, id, newUrl);
            |r| == |photos| &&
            forall i :: 0 <= i < |photos| ==>
              (IsStandardized(r[i]) <==>
                 if photos[i].id == id then newUrl != photos[i].originalUrl else IsStandardized(photos[i]))
  {
    App.WithUrlFrame(photos, id, newUrl);
  }

  /** `photos.find(p => p.id === selectedPhotoId)`. */
  function SelectedPhoto(photos: seq<Photo>, selected: Option<string>): (r: Option<Photo>)
    ensures r.Some? <==> selected.Some? && exists i :: 0 <= i < |photos| && photos[i].id == selected.value
    ensures r.Some? ==> exists i :: 0 <= i < |photos| && photos[i] == r.value && r.value.id == selected.value &&
                                    forall j :: 0 <= j < i ==> photos[j].id != selected.value
  {
    match selected
    case None => None
    case Some(id) => Find(photos, (p: Photo) => p.id == id)
  }

  /** The bulk update of an automatic pass: every photo is cropped from its
      original url, and the pass succeeds only when every crop does (the
      `Promise.all` of the source). On success there is one entry per photo,
      in order, with the photo's id and the url of its crop. */
  function AutoUpdates(photos: seq<Photo>, env: Env): (r: Result<seq<App.UrlUpdate>, RenderError>)
    ensures r.Success? <==> forall i :: 0 <= i < |photos| ==> AutoCropImage(photos[i].originalUrl, env).Success?
    ensures r.Success? ==> |r.value| == |photos|
    ensures r.Success? ==> forall i :: 0 <= i < |photos| ==>
              r.value[i] == App.UrlUpdate(photos[i].id, AutoCropImage(photos[i].originalUrl, env).value)
    decreases |photos|
  {
    if |photos| == 0 then Success([])
    else
      match AutoCropImage(photos[0].originalUrl, env)
      case Failure(e) => Failure(e)
      case Success(url) =>
        match AutoUpdates(photos[1..], env)
        case Failure(e) => Failure(e)
        case Success(rest) => Success([App.UrlUpdate(photos[0].id, url)] + rest)
  }

  /** The pass reads only ids and original urls: two lists that agree on
      those get the same outcome, whatever their working urls. */
  lemma {:induction false} AutoUpdatesReadsOriginals(ps: seq<Photo>, qs: seq<Photo>, env: Env)
    requires |ps| == |qs|
    requires forall i :: 0 <= i < |ps| ==> ps[i].id == qs[i].id && ps[i].originalUrl == qs[i].originalUrl
    ensures AutoUpdates(ps, env) == AutoUpdates(qs, env)
    decreases |ps|
  {
    if |ps| > 0 {
      AutoUpdatesReadsOriginals(ps[1..], qs[1..], env);
    }
  }

  /** After a successful pass over photos with distinct ids, each photo's url
      is the centred crop of its own original and nothing else changed; it
      shows as standardised exactly when that crop's url differs from the
      original url. With a data-URL encoder and object-URL originals, as in
      the browser, every photo is then badged. */
  lemma AutoPassResult(photos: seq<Photo>, env: Env)
    requires App.UniqueIds(photos)
    requires AutoUpdates(photos, env).Success?
    ensures var r := App.WithUpdates(photos, AutoUpdates(photos, env).value);
            |r| == |photos| &&
            forall i :: 0 <= i < |photos| ==>
              r[i] == photos[i].(url := env.encode(photos[i].originalUrl, AutoCrop(env.images[photos[i].originalUrl]))) &&
              (IsStandardized(r[i]) <==>
                 env.encode(photos[i].originalUrl, AutoCrop(env.images[photos[i].originalUrl])) != photos[i].originalUrl)
    ensures EncodesDataUrls(env) && (forall i :: 0 <= i < |photos| ==> IsObjectUrl(photos[i].originalUrl)) ==>
              var r := App.WithUpdates(photos, AutoUpdates(photos, env).value);
              forall i :: 0 <= i < |r| ==> IsStandardized(r[i])
  {
    var u := AutoUpdates(photos, env).value;
    App.WithUpdatesFrame(photos, u);
    forall i | 0 <= i < |photos|
      ensures forall j :: 0 <= j < i ==> u[j].id != photos[i].id
    {
    }
    forall i | 0 <= i < |photos|
      ensures AutoCropImage(photos[i].originalUrl, env).Success?
    {
    }
  }

  /** Running the automatic pass a second time changes nothing: crops are
      always taken from the original, never from the previous result. */
  lemma AutoPassIdempotent(photos: seq<Photo>, env: Env)
    requires AutoUpdates(photos, env).Success?
    ensures var once := App.WithUpdates(photos, AutoUpdates(photos, env).value);
            AutoUpdates(once, env) == AutoUpdates(photos, env) &&
            App.WithUpdates(once, AutoUpdates(once, env).value) == once
  {
    var u := AutoUpdates(photos, env).value;
    var once := App.WithUpdates(photos, u);
    App.WithUpdatesFrame(photos, u);
    AutoUpdatesReadsOriginals(once, photos, env);
    var twice := App.WithUpdates(once, u);
    forall i | 0 <= i < |once|
      ensures twice[i] == once[i]
    {
      assert once[i].id == photos[i].id;
    }
  }

  /** The screen's own state: the photo whose cropper is open, and the
      automatic pass in progress, if any. */
  class Standardizer {
    var selectedPhotoId: Option<string>
    var isAutoProcessing: bool
    /** The photo list the running automatic pass was started with. */
    var pending: Option<seq<Photo>>
    /** How many error notices the screen has raised. */
    var alerts: nat

    ghost predicate Valid()
      reads this
    {
      isAutoProcessing <==> pending.Some?
    }

    /** The automatic button is disabled while a pass runs. */
    predicate AutoEnabled()
      reads this
    {
      !isAutoProcessing
    }

    constructor ()
      ensures Valid() && selectedPhotoId == None && !isAutoProcessing && pending == None && alerts == 0
    {
      selectedPhotoId := None;
      isAutoProcessing := false;
      pending := None;
      alerts := 0;
    }

    /** "Editar" on a photo's tile. */
    method SelectPhoto(id: string)
      requires Valid()
      modifies this`selectedPhotoId
      ensures Valid() && selectedPhotoId == Some(id)
    {
      selectedPhotoId := Some(id);
    }

    /** The cropper is shown while the selection names a staged photo, and it
        is given that photo's original url, never its working url, together
        with a confirm callback that holds the current selection. */
    method OpenCropper(app: App.AlbumApp) returns (c: ImageCropper.Cropper?)
      ensures (c != null) <==> SelectedPhoto(app.rawPhotos, selectedPhotoId).Some?
      ensures c != null ==>
                fresh(c) && c.Valid() &&
                c.imageSrc == SelectedPhoto(app.rawPhotos, selectedPhotoId).value.originalUrl &&
                c.confirmFor == selectedPhotoId &&
                !c.imageLoaded && !c.isProcessing && c.offsetX == 50 && c.offsetY == 50
    {
      var sel := SelectedPhoto(app.rawPhotos, selectedPhotoId);
      if sel.Some? {
        c := new ImageCropper.Cropper(sel.value.originalUrl, selectedPhotoId);
      } else {
        c := null;
      }
    }

    /** `handleCropConfirm`, called by a finished crop with the selection its
        callback captured (`Cropper.confirmFor`), not the current one. A
        captured selection that is set (and, the test being JavaScript
        truthiness, not the empty string) gets exactly one single update with
        the new url, and the screen's selection is then cleared, whatever it
        has become; otherwise nothing happens. */
    method CropConfirm(app: App.AlbumApp, captured: Option<string>, newUrl: Url)
      requires app.Valid()
      modifies this`selectedPhotoId, app`rawPhotos
      ensures app.Valid()
      ensures captured.Some? && captured.value != "" ==>
                app.rawPhotos == App.WithUrl(old(app.rawPhotos), captured.value, newUrl) &&
                selectedPhotoId == None
      ensures !(captured.Some? && captured.value != "") ==>
                app.rawPhotos == old(app.rawPhotos) && selectedPhotoId == old(selectedPhotoId)
    {
      if captured.Some? && captured.value != "" {
        app.UpdateRawPhoto(captured.value, newUrl);
        selectedPhotoId := None;
      }
    }

    /** Closing the cropper: the selection is cleared and the photos are not touched. */
    method CancelCrop()
      requires Valid()
      modifies this`selectedPhotoId
      ensures Valid() && selectedPhotoId == None
    {
      selectedPhotoId := None;
    }

    /** The automatic button was clicked: a pass starts over the current
        photos unless one is already running. */
    method ClickAutoStandardize(app: App.AlbumApp) returns (started: bool)
      requires Valid()
      modifies this`isAutoProcessing, this`pending
      ensures Valid()
      ensures started == old(AutoEnabled())
      ensures started ==> isAutoProcessing && pending == Some(app.rawPhotos)
      ensures !started ==> isAutoProcessing == old(isAutoProcessing) && pending == old(pending)
    {
      started := AutoEnabled();
      if started {
        isAutoProcessing := true;
        pending := Some(app.rawPhotos);
      }
    }

    /** Every crop of the running pass has settled. If all succeeded, one
        bulk update is issued; if any failed, none is and one notice is raised.
        Either way the pass is over. */
    method AutoSettled(app: App.AlbumApp, env: Env)
      requires Valid() && app.Valid()
      modifies this`isAutoProcessing, this`pending, this`alerts, app`rawPhotos
      ensures Valid() && app.Valid() && !isAutoProcessing && pending == None
      ensures old(pending).None? ==> app.rawPhotos == old(app.rawPhotos) && alerts == old(alerts)
      ensures old(pending).Some? ==>
                var res := AutoUpdates(old(pending).value, env);
                (res.Success? ==> app.rawPhotos == App.WithUpdates(old(app.rawPhotos), res.value) &&
                                  alerts == old(alerts)) &&
                (res.Failure? ==> app.rawPhotos == old(app.rawPhotos) && alerts == old(alerts) + 1)
    {
      if pending.Some? {
        var res := AutoUpdates(pending.value, env);
        if res.Success? {
          app.BulkUpdatePhotos(res.value);
        } else {
          alerts := alerts + 1;
        }
      }
      isAutoProcessing := false;
      pending := None;
    }
  }

  /** Cancel stays enabled while a crop is processing. Selecting photo `x`,
      applying, cancelling and then selecting `y` does not stop the crop: when
      it settles it still updates `x`, from `x`'s original, and it closes
      whatever dialog is open by clearing the selection. With a data-URL
      encoder and an object-URL original, `x` is then badged. */
  method CancelThenReselectDuringCrop(app: App.AlbumApp, env: Env, x: string, y: string)
      returns (url: Url, screen: Standardizer)
    requires app.Valid() && x != ""
    requires SelectedPhoto(app.rawPhotos, Some(x)).Some?
    requires SelectedPhoto(app.rawPhotos, Some(x)).value.originalUrl in env.images && env.has2d
    modifies app`rawPhotos
    ensures var src := SelectedPhoto(old(app.rawPhotos), Some(x)).value.originalUrl;
            var d := env.images[src];
            url == env.encode(src, ImageCropper.ManualCrop(d, if d.w > d.h then 4.0 / 3.0 else 3.0 / 4.0, 50, 50))
    ensures app.rawPhotos == App.WithUrl(old(app.rawPhotos), x, url)
    ensures screen.selectedPhotoId == None
    ensures EncodesDataUrls(env) && IsObjectUrl(SelectedPhoto(old(app.rawPhotos), Some(x)).value.originalUrl) ==>
              forall i :: 0 <= i < |app.rawPhotos| && app.rawPhotos[i].id == x ==> IsStandardized(app.rawPhotos[i])
  {
    ghost var photos := app.rawPhotos;
    ghost var src := SelectedPhoto(photos, Some(x)).value.originalUrl;
    ghost var d := env.images[src];
    ghost var ratio := if d.w > d.h then 4.0 / 3.0 else 3.0 / 4.0;
    screen := new Standardizer();
    screen.SelectPhoto(x);
    var c := screen.OpenCropper(app);
    assert c.imageSrc == src && c.confirmFor == Some(x);
    c.ImageLoaded(env.images[c.imageSrc]);
    assert c.ApplyEnabled() && c.aspectRatio == ratio && c.offsetX == 50 && c.offsetY == 50;
    var started := c.ClickApply();
    assert c.pendingCrop == Some(ImageCropper.ManualCrop(d, ratio, 50, 50));
    screen.CancelCrop();
    screen.SelectPhoto(y);
    var confirmed := c.CropSettled(env);
    ghost var rendered := GetCroppedImg(src, ImageCropper.ManualCrop(d, ratio, 50, 50), env);
    assert confirmed == Some(rendered.value.url);
    url := confirmed.value;
    assert app.rawPhotos == photos;
    screen.CropConfirm(app, c.confirmFor, url);
    BadgeAfterUpdate(photos, x, url);
    forall i | 0 <= i < |photos| && photos[i].id == x
      ensures photos[i].originalUrl == src
    {
      var k :| 0 <= k < |photos| && photos[k] == SelectedPhoto(photos, Some(x)).value;
      assert photos[k].id == x;
      assert i == k;
    }
  }

  /** Each visit of the standardisation step mounts a new screen whose busy
      flag starts clear. Going back to the upload step during an automatic
      pass and returning therefore lets a second pass start while the first
      one is still running; both will settle and update the store. */
  method RevisitDuringPass(app: App.AlbumApp) returns (first: Standardizer, second: Standardizer)
    requires app.Valid() && app.currentStep == Standardize && |app.rawPhotos| > 0
    modifies app`currentStep
    ensures app.currentStep == Standardize
    ensures first != second && first.Valid() && second.Valid()
    ensures first.isAutoProcessing && first.pending == Some(app.rawPhotos)
    ensures second.isAutoProcessing && second.pending == Some(app.rawPhotos)
  {
    first := new Standardizer();
    var started1 := first.ClickAutoStandardize(app);
    app.StepClicked(Upload);
    app.ContinueFromUpload();
    second := new Standardizer();
    var started2 := second.ClickAutoStandardize(app);
  }
}
