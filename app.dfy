/** The album wizard's state in App.tsx: the staged photos, the album and
    the current step, and the handlers that replace them. Each handler's new
    value is a pure function of the old one (the list transformations below);
    the class `AlbumApp` holds the state cells the handlers overwrite. */
module App {
  import opened Types
  import StepWizard

  /** One entry of a bulk update. */
  datatype UrlUpdate = UrlUpdate(id: string, url: Url)

  const PageSize: nat := 4

  function Min(a: int, b: int): int
  {
    if a < b then a else b
  }

  /** `q` is `p` with at most its working url replaced. */
  predicate SameButUrl(p: Photo, q: Photo)
  {
    q == p.(url := q.url)
  }

  predicate UniqueIds(photos: seq<Photo>)
  {
    forall i, j :: 0 <= i < j < |photos| ==> photos[i].id != photos[j].id
  }

  predicate UniquePageIds(pages: seq<AlbumPage>)
  {
    forall i, j :: 0 <= i < j < |pages| ==> pages[i].id != pages[j].id
  }

  // ---------------------------------------------------------------------
  // Upload

  /** The record made for a freshly uploaded file. */
  function NewPhoto(file: FileRef, id: string, url: Url): Photo
  {
    Photo(id, url, url, Some(file), None, None, None, Some(Half))
  }

  /** `handlePhotoUpload`: no file list leaves the photos alone; otherwise one
      record per file is appended, in the order of the files. `ids[k]` and
      `urls[k]` are the generated id and object URL of the `k`-th file. */
  function Uploaded(prev: seq<Photo>, files: Option<seq<FileRef>>, ids: seq<string>, urls: seq<Url>): (r: seq<Photo>)
    requires files.Some? ==> |ids| == |files.value| && |urls| == |files.value|
    ensures files.None? ==> r == prev
    ensures files.Some? ==> |r| == |prev| + |files.value| && r[..|prev|] == prev
    ensures files.Some? ==> forall k :: 0 <= k < |files.value| ==>
              var p := r[|prev| + k];
              p.id == ids[k] && p.url == urls[k] && p.originalUrl == urls[k] &&
              p.file == Some(files.value[k]) && p.layoutPreference == Some(Half) &&
              p.caption == None && p.width == None && p.height == None
  {
    match files
    case None => prev
    case Some(fs) => prev + seq(|fs|, k requires 0 <= k < |fs| => NewPhoto(fs[k], ids[k], urls[k]))
  }

  // ---------------------------------------------------------------------
  // Single and bulk url replacement

  /** `handleUpdateRawPhoto`. */
  function WithUrl(photos: seq<Photo>, id: string, newUrl: Url): seq<Photo>
  {
    seq(|photos|, i requires 0 <= i < |photos| =>
      if photos[i].id == id then photos[i].(url := newUrl) else photos[i])
  }

  /** The entry `updates.find(u => u.id === id)` picks. */
  function UpdateFor(updates: seq<UrlUpdate>, id: string): Option<UrlUpdate>
  {
    Find(updates, (u: UrlUpdate) => u.id == id)
  }

  /** `handleBulkUpdatePhotos`. */
  function WithUpdates(photos: seq<Photo>, updates: seq<UrlUpdate>): seq<Photo>
  {
    seq(|photos|, i requires 0 <= i < |photos| =>
      match UpdateFor(updates, photos[i].id)
      case Some(u) => photos[i].(url := u.url)
      case None => photos[i])
  }

  /** A single update replaces the url of every photo with that id and of no
      other; it keeps the length, the order and every other field. An id no
      photo has leaves the list as it was. */
  lemma WithUrlFrame(photos: seq<Photo>, id: string, newUrl: Url)
    ensures var r := WithUrl(photos, id, newUrl);
            |r| == |photos| &&
            (forall i :: 0 <= i < |r| ==> SameButUrl(photos[i], r[i])) &&
            (forall i :: 0 <= i < |r| ==> r[i].url == if photos[i].id == id then newUrl else photos[i].url)
    ensures (forall i :: 0 <= i < |photos| ==> photos[i].id != id) ==> WithUrl(photos, id, newUrl) == photos
  {
  }

  /** A bulk update gives each photo the url of the first entry carrying its
      id, and leaves a photo with no entry exactly as it was; every field but
      the url is kept, and so are the length and the order. */
  lemma WithUpdatesFrame(photos: seq<Photo>, updates: seq<UrlUpdate>)
    ensures var r := WithUpdates(photos, updates);
            |r| == |photos| &&
            (forall i :: 0 <= i < |r| ==> SameButUrl(photos[i], r[i])) &&
            (forall i :: 0 <= i < |r| && (forall k :: 0 <= k < |updates| ==> updates[k].id != photos[i].id) ==>
               r[i] == photos[i]) &&
            (forall i, k ::
               (0 <= i < |r| && 0 <= k < |updates| && updates[k].id == photos[i].id &&
                (forall j :: 0 <= j < k ==> updates[j].id != photos[i].id)) ==>
               r[i].url == updates[k].url)
  {
    var r := WithUpdates(photos, updates);
    forall i, k | 0 <= i < |r| && 0 <= k < |updates| && updates[k].id == photos[i].id &&
                  (forall j :: 0 <= j < k ==> updates[j].id != photos[i].id)
      ensures r[i].url == updates[k].url
    {
      var p := (u: UrlUpdate) => u.id == photos[i].id;
      assert p(updates[k]);
    }
  }

  /** Entries whose ids match no photo are ignored: appending them to a bulk
      update changes nothing. */
  lemma {:induction false} UnknownUpdatesIgnored(photos: seq<Photo>, updates: seq<UrlUpdate>, extra: seq<UrlUpdate>)
    requires forall k, i :: 0 <= k < |extra| && 0 <= i < |photos| ==> extra[k].id != photos[i].id
    ensures WithUpdates(photos, updates + extra) == WithUpdates(photos, updates)
  {
    forall i | 0 <= i < |photos|
      ensures UpdateFor(updates + extra, photos[i].id) == UpdateFor(updates, photos[i].id)
    {
      FindIndexAppend(updates, extra, (u: UrlUpdate) => u.id == photos[i].id);
    }
  }

  lemma {:induction false} FindIndexAppend<T>(s: seq<T>, t: seq<T>, p: T -> bool)
    requires forall k :: 0 <= k < |t| ==> !p(t[k])
    ensures FindIndex(s + t, p) == FindIndex(s, p)
    decreases |s|
  {
    if |s| == 0 {
      assert s + t == t;
    } else {
      assert (s + t)[0] == s[0];
      if !p(s[0]) {
        assert (s + t)[1..] == s[1..] + t;
        FindIndexAppend(s[1..], t, p);
      }
    }
  }

  /** A single update is the bulk update with that one entry. */
  lemma WithUrlIsSingleEntryBulk(photos: seq<Photo>, id: string, newUrl: Url)
    ensures WithUrl(photos, id, newUrl) == WithUpdates(photos, [UrlUpdate(id, newUrl)])
  {
    var a, b := WithUrl(photos, id, newUrl), WithUpdates(photos, [UrlUpdate(id, newUrl)]);
    forall i | 0 <= i < |photos|
      ensures a[i] == b[i]
    {
      var u := UpdateFor([UrlUpdate(id, newUrl)], photos[i].id);
      assert u == if photos[i].id == id then Some(UrlUpdate(id, newUrl)) else None;
    }
  }

  // ---------------------------------------------------------------------
  // Identity and originals under any sequence of store operations

  datatype StoreOp =
    | UploadOp(files: Option<seq<FileRef>>, ids: seq<string>, urls: seq<Url>)
    | UpdateOneOp(id: string, url: Url)
    | UpdateManyOp(updates: seq<UrlUpdate>)

  predicate WellFormed(op: StoreOp)
  {
    op.UploadOp? && op.files.Some? ==> |op.ids| == |op.files.value| && |op.urls| == |op.files.value|
  }

  function ApplyOp(photos: seq<Photo>, op: StoreOp): seq<Photo>
    requires WellFormed(op)
  {
    match op
    case UploadOp(files, ids, urls) => Uploaded(photos, files, ids, urls)
    case UpdateOneOp(id, url) => WithUrl(photos, id, url)
    case UpdateManyOp(updates) => WithUpdates(photos, updates)
  }

  function ApplyOps(photos: seq<Photo>, ops: seq<StoreOp>): seq<Photo>
    requires forall k :: 0 <= k < |ops| ==> WellFormed(ops[k])
    decreases |ops|
  {
    if |ops| == 0 then photos else ApplyOps(ApplyOp(photos, ops[0]), ops[1..])
  }

  /** One operation keeps every existing photo in place, with its id and
      its original url, and every field but the working url. */
  lemma ApplyOpKeepsPhotos(photos: seq<Photo>, op: StoreOp)
    requires WellFormed(op)
    ensures var r := ApplyOp(photos, op);
            |photos| <= |r| && forall i :: 0 <= i < |photos| ==> SameButUrl(photos[i], r[i])
  {
    match op
    case UploadOp(files, ids, urls) =>
    case UpdateOneOp(id, url) => WithUrlFrame(photos, id, url);
    case UpdateManyOp(updates) => WithUpdatesFrame(photos, updates);
  }

  /** No sequence of uploads, single updates and bulk updates moves a staged
      photo or changes its id or its original url. */
  lemma {:induction false} OriginalsPreserved(photos: seq<Photo>, ops: seq<StoreOp>)
    requires forall k :: 0 <= k < |ops| ==> WellFormed(ops[k])
    ensures var r := ApplyOps(photos, ops);
            |photos| <= |r| &&
            forall i :: 0 <= i < |photos| ==> r[i].id == photos[i].id && r[i].originalUrl == photos[i].originalUrl
    decreases |ops|
  {
    if |ops| > 0 {
      var next := ApplyOp(photos, ops[0]);
      ApplyOpKeepsPhotos(photos, ops[0]);
      OriginalsPreserved(next, ops[1..]);
    }
  }

  // ---------------------------------------------------------------------
  // Pages of four

  /** The staged photos cut into consecutive groups of four, the last group
      holding what remains. */
  function Chunk(photos: seq<Photo>): seq<seq<Photo>>
    decreases |photos|
  {
    if |photos| == 0 then []
    else
      var n := Min(PageSize, |photos|);
      [photos[..n]] + Chunk(photos[n..])
  }

  function Flatten(groups: seq<seq<Photo>>): seq<Photo>
    decreases |groups|
  {
    if |groups| == 0 then [] else groups[0] + Flatten(groups[1..])
  }

  /** Concatenating the pages' photo lists gives back the staged list. */
  lemma {:induction false} ChunkFlatten(photos: seq<Photo>)
    ensures Flatten(Chunk(photos)) == photos
    decreases |photos|
  {
    if |photos| > 0 {
      var n := Min(PageSize, |photos|);
      ChunkFlatten(photos[n..]);
      assert Chunk(photos)[1..] == Chunk(photos[n..]);
      assert photos[..n] + photos[n..] == photos;
    }
  }

  /** There are ceil(n/4) groups; group `k` is the slice [4k, 4k+4) clipped
      to the list, so it holds between one and four photos, and exactly four
      unless it is the last. */
  lemma {:induction false} ChunkAt(photos: seq<Photo>, k: nat)
    ensures |Chunk(photos)| == (|photos| + 3) / 4
    ensures k < |Chunk(photos)| ==>
              Chunk(photos)[k] == photos[4 * k .. Min(4 * k + 4, |photos|)] &&
              1 <= |Chunk(photos)[k]| <= 4 &&
              (k < |Chunk(photos)| - 1 ==> |Chunk(photos)[k]| == 4)
    decreases |photos|
  {
    if |photos| > 0 {
      var n := Min(PageSize, |photos|);
      var rest := photos[n..];
      ChunkAt(rest, if k > 0 then k - 1 else 0);
      if k > 0 && k < |Chunk(photos)| {
        assert Chunk(photos)[k] == Chunk(rest)[k - 1];
        assert rest[4 * (k - 1) .. Min(4 * (k - 1) + 4, |rest|)]
            == photos[4 * k .. Min(4 * k + 4, |photos|)];
      }
    }
  }

  /** The page made for each group. */
  function PageOf(id: string, group: seq<Photo>): AlbumPage
  {
    AlbumPage(id, group, Some(""), Grid)
  }

  /** The loop of `handleFinishStandardization`: one page per group of four,
      in order, each a grid with an empty anecdote. `pageIds[k]` is the
      generated id of the `k`-th page. */
  method BuildPages(photos: seq<Photo>, pageIds: seq<string>) returns (pages: seq<AlbumPage>)
    requires |pageIds| >= (|photos| + 3) / 4
    ensures |pages| == |Chunk(photos)| == (|photos| + 3) / 4
    ensures forall k :: 0 <= k < |pages| ==> pages[k] == PageOf(pageIds[k], Chunk(photos)[k])
  {
    ChunkAt(photos, 0);
    pages := [];
    var i := 0;
    while i < |photos|
      invariant i == PageSize * |pages|
      invariant |pages| <= |Chunk(photos)|
      invariant i < |photos| + PageSize
      invariant forall k :: 0 <= k < |pages| ==> pages[k] == PageOf(pageIds[k], Chunk(photos)[k])
    {
      ChunkAt(photos, |pages|);
      pages := pages + [PageOf(pageIds[|pages|], photos[i .. Min(i + PageSize, |photos|)])];
      i := i + PageSize;
    }
  }

  // ---------------------------------------------------------------------
  // Anecdotes

  /** `handleAnecdoteChange`. */
  function WithAnecdote(pages: seq<AlbumPage>, pageId: string, text: string): seq<AlbumPage>
  {
    seq(|pages|, k requires 0 <= k < |pages| =>
      if pages[k].id == pageId then pages[k].(anecdote := Some(text)) else pages[k])
  }

  /** Only the page with that id gets the text; every other page, and every
      other field of that page, is unchanged. */
  lemma WithAnecdoteFrame(pages: seq<AlbumPage>, pageId: string, text: string)
    ensures var r := WithAnecdote(pages, pageId, text);
            |r| == |pages| &&
            forall k :: 0 <= k < |r| ==>
              r[k].id == pages[k].id && r[k].photos == pages[k].photos && r[k].layout == pages[k].layout &&
              r[k].anecdote == (if pages[k].id == pageId then Some(text) else pages[k].anecdote)
  {
  }

  // ---------------------------------------------------------------------
  // The application state

  class AlbumApp {
    var currentStep: AppStep
    var rawPhotos: seq<Photo>
    var album: Album

    /** Photo ids and page ids are unique; they are drawn at random in the
        application and assumed distinct here. */
    ghost predicate Valid()
      reads this
    {
      UniqueIds(rawPhotos) && UniquePageIds(album.pages)
    }

    /** The initial state; `year` is the current year as text. */
    constructor (year: string)
      ensures Valid()
      ensures currentStep == Details && rawPhotos == []
      ensures album == Album("1", "", year, ThemeColors[0].hex, None, [])
    {
      currentStep := Details;
      rawPhotos := [];
      album := Album("1", "", year, ThemeColors[0].hex, None, []);
    }

    /** `handleTitleChange`. */
    method TitleChange(title: string)
      requires Valid()
      modifies this`album
      ensures Valid() && album == old(album).(title := title)
    {
      album := album.(title := title);
    }

    /** Leaving the details step: the button is disabled while the title is empty. */
    predicate CanLeaveDetails()
      reads this
    {
      album.title != ""
    }

    method ContinueFromDetails()
      requires Valid() && currentStep == Details
      modifies this`currentStep
      ensures Valid()
      ensures currentStep == if old(CanLeaveDetails()) then Upload else Details
    {
      if CanLeaveDetails() {
        currentStep := Upload;
      }
    }

    /** The button to the standardisation step is shown only once a photo is staged. */
    predicate ShowsStandardizeButton()
      reads this
    {
      |rawPhotos| > 0
    }

    method ContinueFromUpload()
      requires Valid() && currentStep == Upload
      modifies this`currentStep
      ensures Valid()
      ensures currentStep == if ShowsStandardizeButton() then Standardize else Upload
    {
      if ShowsStandardizeButton() {
        currentStep := Standardize;
      }
    }

    /** A click on the progress bar. */
    method StepClicked(target: AppStep)
      requires Valid()
      modifies this`currentStep
      ensures Valid()
      ensures currentStep == StepWizard.ClickStep(old(currentStep), target)
      ensures currentStep.Index() <= old(currentStep).Index()
    {
      StepWizard.ClickRule(currentStep, target);
      currentStep := StepWizard.ClickStep(currentStep, target);
    }

    /** `handlePhotoUpload`; the generated ids must be new. */
    method PhotoUpload(files: Option<seq<FileRef>>, ids: seq<string>, urls: seq<Url>)
      requires Valid()
      requires files.Some? ==> |ids| == |files.value| && |urls| == |files.value|
      requires files.Some? ==> forall a, b :: 0 <= a < b < |ids| ==> ids[a] != ids[b]
      requires files.Some? ==> forall a, i :: 0 <= a < |ids| && 0 <= i < |rawPhotos| ==> ids[a] != rawPhotos[i].id
      modifies this`rawPhotos
      ensures Valid() && rawPhotos == Uploaded(old(rawPhotos), files, ids, urls)
    {
      var prev := rawPhotos;
      rawPhotos := Uploaded(rawPhotos, files, ids, urls);
      if files.Some? {
        forall i, j | 0 <= i < j < |rawPhotos|
          ensures rawPhotos[i].id != rawPhotos[j].id
        {
          if j >= |prev| {
            assert rawPhotos[j].id == ids[j - |prev|];
            if i >= |prev| {
              assert rawPhotos[i].id == ids[i - |prev|];
            } else {
              assert rawPhotos[i] == prev[i];
            }
          } else {
            assert rawPhotos[i] == prev[i] && rawPhotos[j] == prev[j];
          }
        }
      }
    }

    /** `handleUpdateRawPhoto`. */
    method UpdateRawPhoto(id: string, newUrl: Url)
      requires Valid()
      modifies this`rawPhotos
      ensures Valid() && rawPhotos == WithUrl(old(rawPhotos), id, newUrl)
    {
      WithUrlFrame(rawPhotos, id, newUrl);
      rawPhotos := WithUrl(rawPhotos, id, newUrl);
    }

    /** `handleBulkUpdatePhotos`. */
    method BulkUpdatePhotos(updates: seq<UrlUpdate>)
      requires Valid()
      modifies this`rawPhotos
      ensures Valid() && rawPhotos == WithUpdates(old(rawPhotos), updates)
    {
      WithUpdatesFrame(rawPhotos, updates);
      rawPhotos := WithUpdates(rawPhotos, updates);
    }

    /** `handleFinishStandardization`: the album's pages become the staged
        photos in groups of four and the wizard moves to editing. */
    method FinishStandardization(pageIds: seq<string>)
      requires Valid()
      requires |pageIds| >= (|rawPhotos| + 3) / 4
      requires forall a, b :: 0 <= a < b < |pageIds| ==> pageIds[a] != pageIds[b]
      modifies this`album, this`currentStep
      ensures Valid() && currentStep == Edit
      ensures album.id == old(album).id && album.title == old(album).title && album.date == old(album).date
      ensures album.themeColor == old(album).themeColor && album.coverImage == old(album).coverImage
      ensures |album.pages| == |Chunk(rawPhotos)| == (|rawPhotos| + 3) / 4
      ensures forall k :: 0 <= k < |album.pages| ==> album.pages[k] == PageOf(pageIds[k], Chunk(rawPhotos)[k])
    {
      var pages := BuildPages(rawPhotos, pageIds);
      album := album.(pages := pages);
      currentStep := Edit;
    }

    /** `handleAnecdoteChange`. */
    method AnecdoteChange(pageId: string, text: string)
      requires Valid()
      modifies this`album
      ensures Valid() && album == old(album).(pages := WithAnecdote(old(album).pages, pageId, text))
    {
      WithAnecdoteFrame(album.pages, pageId, text);
      album := album.(pages := WithAnecdote(album.pages, pageId, text));
    }
  }
}
