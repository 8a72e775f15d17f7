# Album wizard: crop and standardise engine, in Dafny

This project models the core of a photo-album wizard written in React and
TypeScript. That core has five parts:

- **Automatic crop geometry** (`ImageUtils`, from `utils/imageUtils.ts`).
  Each photo is cut to 4:3 if it is landscape and to 3:4 otherwise, so a
  square gets 3:4. The crop keeps one full dimension, is centred, and its
  four values are rounded as `Math.round` does. Loading an image and
  rendering a crop onto a canvas are described by the environment `Env`:
  which references decode, and to what natural size; whether a 2D context
  exists; and which data URL the encoder emits for a source and a
  rectangle.
- **Manual crop geometry** (`ImageCropper`, from
  `components/ImageCropper.tsx`). The user picks a ratio from the catalogue
  {3/4, 1, 4/3} and sets two 0–100 sliders. The dialog state is the class
  `Cropper`: ratio, offsets, the image-loaded guard and the processing
  flag.
- **The staged photo store and page building** (`App`, from `App.tsx`).
  This covers upload, single and bulk url replacement, and cutting the
  photos into pages of four. It also covers anecdote editing and the
  wizard's step guards. Every handler's new value is a pure function of the
  old value. The class `AlbumApp` holds the three state cells that the
  handlers overwrite.
- **The standardisation screen** (`PhotoStandardizer`, from
  `components/PhotoStandardizer.tsx`). This covers the badge, the cropper
  for the selected photo, confirm and cancel, and the automatic pass with
  its busy flag. A pass either commits every new url in one bulk update or
  commits nothing.
- **The progress bar** (`StepWizard`, from `components/StepWizard.tsx`).
  This covers the step table, each step's status and badge, and the rule
  that a click can only go back.

`Types` holds the records of `types.ts`, plus Option, Result and the
first-match search that `find` performs.

Asynchronous handlers with a busy flag are split into two methods: a start
and a settle. The flag can then be seen between the two:

- `Cropper.ClickApply` then `Cropper.CropSettled`.
- `Standardizer.ClickAutoStandardize` then `Standardizer.AutoSettled`.

The automatic pass works on the photo list it was started with. That list
is the closure's `photos`. The pass applies its bulk update to the store's
list as it is when the pass settles, as the functional `setRawPhotos`
does.

Five behaviours of the code are worth stating outright:

- **The automatic pass is all-or-nothing.** It awaits `Promise.all`
  (components/PhotoStandardizer.tsx:42-46), so one failed crop means no
  update at all plus one alert. `AutoUpdates` and `Standardizer.AutoSettled`
  model this.
- **The automatic x offset is rounded from its unrounded value.** For a
  1200×800 image that is round(66.67) = 67 (utils/imageUtils.ts:68,79), as
  `AutoCropExample` shows.
- **A single update changes every photo with the given id**
  (App.tsx:52). Ids are distinct (`AlbumApp.Valid`), so this is at most one
  photo.
- **A manual crop reports to the photo selected when its dialog opened.**
  The confirm callback the dialog receives holds the selection of that
  moment (components/PhotoStandardizer.tsx:25-30,57), and Cancel stays
  enabled while a crop runs (components/ImageCropper.tsx:169-174). A crop
  cancelled in flight therefore still updates its photo and clears whatever
  selection is current (`CancelThenReselectDuringCrop`).
- **The busy flag of the automatic pass lives in the screen.** The screen is
  mounted only on the STANDARDIZE step (App.tsx:440). Leaving the step and
  coming back mounts a new screen with the flag clear, so a second pass can
  start while the first still runs (`RevisitDuringPass`).

The rectangle of an automatic crop depends only on the image's natural size,
since `AutoCrop` takes nothing else. So repeated runs on one source give the
same rectangle, and `AutoPassIdempotent` lifts this to the whole store.

## Model

| member | source | states |
|---|---|---|
| `Types.FindIndex` | App.tsx:58 | `findIndex`: none iff no element matches; otherwise a matching index before which nothing matches |
| `Types.Find` | components/PhotoStandardizer.tsx:23 | `find`: none iff no element matches; otherwise the element at the first matching index |
| `ImageUtils.Round` | utils/imageUtils.ts:78-83 | `Math.round` yields the integer n with v − 1/2 < n ≤ v + 1/2, so halves round up |
| `ImageUtils.CanvasSize` | utils/imageUtils.ts:26-28 | a canvas given a non-negative size keeps its integer part |
| `ImageUtils.CreateImage` | utils/imageUtils.ts:1-9 | loading resolves to the natural size iff the reference decodes, and rejects with a load error otherwise |
| `ImageUtils.GetCroppedImg` | utils/imageUtils.ts:14-45 | rendering succeeds iff the source decodes and a 2D context exists, failing with LoadError or NoContext in that order; on success the output is the encoding of exactly that region, with a canvas of the crop's size (integer part), not rescaled; with an encoder that answers data URLs, as `toDataURL` does (line 44), the result is a data URL and so differs from any object-URL source |
| `ImageUtils.AutoTargetRatio` | utils/imageUtils.ts:56-58 | the target is 4/3 when w > h and 3/4 otherwise, so squares get 3/4 |
| `ImageUtils.AutoCrop` | utils/imageUtils.ts:62-83 | each emitted value is `Math.round` of the unrounded crop value, and the rounded crop handed to the renderer still lies inside the image and is at least 1×1 |
| `ImageUtils.AutoCropImage` | utils/imageUtils.ts:51-83 | succeeds iff the source decodes and a context exists; the url is then the encoding of the source under the rounded centred crop of its natural size, which differs from an object-URL source when the encoder answers data URLs |
| `ImageUtils.DataUrlIsNotObjectUrl` | utils/imageUtils.ts:44 | a `data:` URL from `toDataURL` never equals a `blob:` URL from `URL.createObjectURL` |
| `ImageUtils.AutoCropExactShape` | utils/imageUtils.ts:62-76 | unrounded width = height · target; if w/h > target the full height is kept and y = 0, otherwise the full width is kept and x = 0 |
| `ImageUtils.AutoCropExactCentred` | utils/imageUtils.ts:62-76 | the unrounded crop lies in [0,w]×[0,h] and is centred: left margin = right margin, top = bottom |
| `ImageUtils.RoundedCentredFits` | utils/imageUtils.ts:64-83 | for an integer side n and a crop length c in (0, n], round((n − c)/2) ≥ 0 and round((n − c)/2) + round(c) ≤ n |
| `ImageUtils.RoundedAutoCropFits` | utils/imageUtils.ts:62-83 | the four rounded values of the centred crop are non-negative, stay within the image's width and height, and give a width and height of at least 1 |
| `ImageUtils.AutoCropExample` | utils/imageUtils.ts:56-83 | 1200×800 takes target 4/3 and yields {x: 67, y: 0, width: 1067, height: 800} |
| `ImageUtils.AutoCropRendersExactSize` | utils/imageUtils.ts:26-28 | rendering the automatic crop gives a canvas of exactly the crop's width and height |
| `ImageCropper.CatalogSelection` | components/ImageCropper.tsx:11-131 | the catalogue is exactly {3/4, 1, 4/3}; for a ratio from it, a button is highlighted (within 0.01) iff its value is that ratio |
| `ImageCropper.ManualCrop` | components/ImageCropper.tsx:45-66 | for any positive ratio and sliders in [0,100], the rectangle lies in [0,w]×[0,h] and width = height · ratio; full height is kept when w/h > ratio, full width otherwise |
| `ImageCropper.ManualCropWholeImage` | components/ImageCropper.tsx:51-59 | when w/h equals the ratio, the crop is the whole image whatever the sliders |
| `ImageCropper.ManualCropOffsetEnds` | components/ImageCropper.tsx:62-66 | slider 0 gives the left (top) edge, 100 the right (bottom) edge, and 50 centres the window |
| `ImageCropper.ManualCropMonotone` | components/ImageCropper.tsx:62-66 | x and y never decrease as their sliders increase, and the size does not depend on the sliders |
| `ImageCropper.Cropper.constructor` | components/ImageCropper.tsx:17-24 | initial ratio 3/4, offsets 50/50, not loaded, not processing, size 0×0; the dialog keeps the source and the confirm callback's captured selection it was given |
| `ImageCropper.Cropper.ImageLoaded` | components/ImageCropper.tsx:26-39 | once loaded, the size is recorded and the ratio is 4/3 iff naturalWidth > naturalHeight, 3/4 otherwise |
| `ImageCropper.Cropper.ChooseRatio` | components/ImageCropper.tsx:126-129 | a ratio button sets the ratio to its catalogue value |
| `ImageCropper.Cropper.SetOffsetX` | components/ImageCropper.tsx:150 | the horizontal slider sets the x offset |
| `ImageCropper.Cropper.SetOffsetY` | components/ImageCropper.tsx:162 | the vertical slider sets the y offset |
| `ImageCropper.Cropper.ClickApply` | components/ImageCropper.tsx:41-66 | Apply does something iff the image is loaded and nothing is processing; it then computes the rectangle from the current ratio and sliders and sets the processing flag |
| `ImageCropper.Cropper.CropSettled` | components/ImageCropper.tsx:68-81 | a successful render confirms the new url; a failed one confirms nothing and raises one notice; processing ends either way |
| `App.Uploaded` | App.tsx:33-48 | a null file list leaves the photos as they were; otherwise the old list is kept as a prefix, followed by one photo per file in order, with the generated id, url = originalUrl = the object URL, the file, layout 'half', and no caption, width or height |
| `App.WithUrlFrame` | App.tsx:51-53 | a single update changes only the url, and only of photos with that id; length, order and every other field are kept; an unknown id leaves the list identical |
| `App.WithUpdatesFrame` | App.tsx:56-61 | each photo takes the url of the first entry with its id; a photo with no entry is unchanged; only urls change; length and order are kept |
| `App.UnknownUpdatesIgnored` | App.tsx:56-61 | entries whose ids match no photo have no effect |
| `App.WithUrlIsSingleEntryBulk` | App.tsx:51-61 | a single update equals the bulk update with that one entry |
| `App.ApplyOpKeepsPhotos` | App.tsx:33-61 | one upload, single update or bulk update keeps every existing photo in place, changing at most its url |
| `App.OriginalsPreserved` | App.tsx:33-61 | no sequence of uploads, single updates and bulk updates moves a staged photo or changes its id or originalUrl |
| `App.ChunkFlatten` | App.tsx:66-74 | concatenating the pages' photo lists gives back the staged list exactly |
| `App.ChunkAt` | App.tsx:66-74 | there are ceil(n/4) groups; group k is the slice [4k, 4k+4) clipped to the list; each holds 1 to 4 photos, and all but the last hold exactly 4 |
| `App.BuildPages` | App.tsx:65-74 | the loop builds one page per group of four, in order, each with the generated id, layout 'grid' and anecdote '' |
| `App.WithAnecdoteFrame` | App.tsx:80-85 | only the page with that id gets the text; ids, photos and layouts of all pages are kept |
| `App.AlbumApp.constructor` | App.tsx:11-20 | the wizard starts at DETAILS with no photos and an untitled album dated this year, in the first theme colour, with no pages |
| `App.AlbumApp.TitleChange` | App.tsx:24-26 | the title is replaced, and nothing else |
| `App.AlbumApp.ContinueFromDetails` | App.tsx:149-151 | leaving DETAILS for UPLOAD happens iff the title is non-empty |
| `App.AlbumApp.ContinueFromUpload` | App.tsx:170-172 | the button to STANDARDIZE exists, and moves there, iff at least one photo is staged |
| `App.AlbumApp.StepClicked` | App.tsx:435 | a progress-bar click applies the wizard's click rule and never moves forward |
| `App.AlbumApp.PhotoUpload` | App.tsx:33-48 | the staged list becomes `Uploaded` of the old one; ids stay distinct |
| `App.AlbumApp.UpdateRawPhoto` | App.tsx:51-53 | the staged list becomes `WithUrl` of the old one |
| `App.AlbumApp.BulkUpdatePhotos` | App.tsx:56-61 | the staged list becomes `WithUpdates` of the old one |
| `App.AlbumApp.FinishStandardization` | App.tsx:64-78 | the album's pages become the staged photos in groups of four, built as `BuildPages` builds them; the other album fields are kept, and the step becomes EDIT |
| `App.AlbumApp.AnecdoteChange` | App.tsx:80-85 | the pages become `WithAnecdote` of the old ones; the rest of the album is kept |
| `Types.AppStep.Index` | types.ts:28-35 | each step's enum number is below 6; with `StepWizard.StepsTable`, the numbers are 0..5 in declaration order, one per step |
| `StepWizard.StepsTable` | components/StepWizard.tsx:10-17 | the table lists DETAILS, UPLOAD, STANDARDIZE, EDIT, COVER, PREVIEW, with position = id = 0..5 |
| `StepWizard.ClickRule` | components/StepWizard.tsx:28-30 | a click lands on its target iff the target is not pending (id ≤ current); otherwise the step stays; it never moves forward |
| `StepWizard.ClicksNeverAdvance` | components/StepWizard.tsx:28-30 | no sequence of clicks ends past the step it started from |
| `StepWizard.StatusRow` | components/StepWizard.tsx:34-42 | steps before the current one are completed and show a check mark, the current one is active, later ones are pending; badges otherwise show index + 1; every step but the last has a separator |
| `PhotoStandardizer.IsStandardized` | components/PhotoStandardizer.tsx:121 | the badge shows iff the working url differs from the original url; its behaviour is stated by the two lemmas below and by `AutoPassResult` |
| `PhotoStandardizer.UploadsStartUnbadged` | components/PhotoStandardizer.tsx:121 | a freshly uploaded photo shows no badge, and an upload keeps the badges of the photos already staged |
| `PhotoStandardizer.BadgeAfterUpdate` | components/PhotoStandardizer.tsx:121 | after a single update the updated photo is badged iff its new url differs from its original; all other badges are kept |
| `PhotoStandardizer.SelectedPhoto` | components/PhotoStandardizer.tsx:23 | the selected photo exists iff some photo has the selected id; it is the first such photo, and there is none when nothing is selected |
| `PhotoStandardizer.AutoUpdates` | components/PhotoStandardizer.tsx:36-42 | the pass succeeds iff every photo's crop of its originalUrl succeeds; it then gives one entry per photo, in order, with the photo's id and its crop's url |
| `PhotoStandardizer.AutoUpdatesReadsOriginals` | components/PhotoStandardizer.tsx:37-38 | the pass reads only ids and originalUrls: lists that agree on them get the same outcome, whatever their working urls |
| `PhotoStandardizer.AutoPassResult` | components/PhotoStandardizer.tsx:36-43 | after a successful pass, each photo's url is the centred crop of its own original and nothing else changed; it is badged as standardised iff that url differs from the original; with a data-URL encoder and object-URL originals (App.tsx:41), every photo is badged |
| `PhotoStandardizer.AutoPassIdempotent` | components/PhotoStandardizer.tsx:37-38 | a second pass gives the same updates and leaves the photos as the first pass left them: crops never compound |
| `PhotoStandardizer.Standardizer.constructor` | components/PhotoStandardizer.tsx:20-21 | nothing is selected and no pass runs |
| `PhotoStandardizer.Standardizer.SelectPhoto` | components/PhotoStandardizer.tsx:108 | Edit on a tile selects that photo |
| `PhotoStandardizer.Standardizer.OpenCropper` | components/PhotoStandardizer.tsx:54-60 | a cropper is shown iff the selection names a staged photo; it is a fresh dialog for that photo's originalUrl, never its url, whose confirm callback holds the current selection |
| `PhotoStandardizer.Standardizer.CropConfirm` | components/PhotoStandardizer.tsx:25-30 | with the selection captured by the callback set (non-null, non-empty), exactly one single update is issued for that id with the new url and the screen's current selection is cleared; otherwise nothing changes |
| `PhotoStandardizer.CancelThenReselectDuringCrop` | components/PhotoStandardizer.tsx:25-30 | selecting x, applying, cancelling and selecting y before the crop settles still updates x with the crop of x's original (default ratio, centred sliders) and leaves the screen with no selection; with a data-URL encoder and an object-URL original, x is then badged |
| `PhotoStandardizer.Standardizer.CancelCrop` | components/PhotoStandardizer.tsx:58 | cancel clears the selection and touches no photo |
| `PhotoStandardizer.Standardizer.ClickAutoStandardize` | components/PhotoStandardizer.tsx:32-33 | the button starts a pass over the current photos iff this screen's busy flag is clear, and sets it |
| `PhotoStandardizer.RevisitDuringPass` | App.tsx:440 | going back to UPLOAD during a pass and returning mounts a new screen, and a second pass starts while the first is still running |
| `PhotoStandardizer.Standardizer.AutoSettled` | components/PhotoStandardizer.tsx:42-49 | if every crop succeeded, one bulk update applies the entries; if any failed, the photos are unchanged and exactly one notice is raised; the busy flag is cleared in both outcomes |

## Left out

- The AI calls in services/gemini.ts, `handleRefineText`, `handleGenerateCover`, and the `loading` flag they drive: network calls to an external service. Their empty-input guards are not modelled either.
- `handleThemeSelect`, the EDIT → COVER → PREVIEW buttons and the simulated PDF download: plain state setters and presentation.
- components/PhotoUpload.tsx: a file-input widget with no logic. The file list it produces is the `files` parameter of `AlbumApp.PhotoUpload`.
- JSX, styling and hover effects in every component.
- Pixel work: decoding (`createImage`), `drawImage` and JPEG encoding are the uninterpreted environment `Env`. A rendered image is the data URL `Env.encode` gives for the source and the rectangle. The canvas size is the rectangle's integer part.
- The cropper's image failing to load: the source attaches no handler, so the dialog stays in its loading state. The model has no method for that event.
- `Promise.all` concurrency and async suspension: the automatic pass is a sequential map whose result is "all succeeded" or "failed". Each busy handler is a start method plus a settle method. Which rejection `Promise.all` reports first is not modelled; only that one occurred.
- Id generation (`Math.random`) and `URL.createObjectURL`: the ids and urls are parameters of `AlbumApp.PhotoUpload` and `AlbumApp.FinishStandardization`. Those methods require the ids to be distinct.
- IEEE-754 arithmetic: the geometry is computed over exact reals. Exact ratio equality (`HasRatio`) holds over the reals, not necessarily in floating point. `Math.round` is Floor(v + 1/2), which ignores negative zero.
- Standardizer.ClickAutoStandardize: the busy-flag guard holds only within one visit of the STANDARDIZE step. Each visit is a new `Standardizer`; passes started in earlier visits keep running and settle on their own objects (`RevisitDuringPass`). React's warning about updating an unmounted screen is not modelled.
- `alert` and `console.error`: each alert is counted in an `alerts` field; the logging is left out.
- The `width` and `height` fields of a photo record are carried in the datatype. No handler in the core sets them.
- ImageUtils.CanvasSize: keeping the integer part holds only for sizes below 2^31. `canvas.width` and `canvas.height` are unsigned long attributes: a value in [2^31, 2^32) gives the default size (300 wide, 150 high), and a larger one is first reduced modulo 2^32. Such sizes are not modelled.
- ImageUtils.CreateImage: natural sizes are positive by type (`Dims`). An image that decodes with width or height 0, such as an SVG without an intrinsic size (the upload accepts `image/*`), is not modelled. In the source both crops then yield a 0×0 rectangle, the 0×0 canvas encodes as "data:,", and the photo is badged with an empty image.
