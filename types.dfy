/** The records of the album wizard (types.ts), the Option and Result
    wrappers used for absent values and failing operations, and the
    first-match search that `Array.prototype.find` performs. */
module Types {

  datatype Option<T> = None | Some(value: T)

  datatype Result<T, E> = Success(value: T) | Failure(error: E)

  /** An image reference: a blob URL or a data URL. */
  type Url = string

  /** An opaque handle on a file the user selected. */
  type FileRef = string

  datatype LayoutPreference = Full | Half | Quarter

  datatype PageLayout = Grid | Collage | Focus

  /** A photo of the staging area. `originalUrl` is the image as uploaded,
      `url` the current working image. */
  datatype Photo = Photo(
    id: string,
    url: Url,
    originalUrl: Url,
    file: Option<FileRef>,
    caption: Option<string>,
    width: Option<int>,
    height: Option<int>,
    layoutPreference: Option<LayoutPreference>)

  datatype AlbumPage = AlbumPage(
    id: string,
    photos: seq<Photo>,
    anecdote: Option<string>,
    layout: PageLayout)

  datatype Album = Album(
    id: string,
    title: string,
    date: string,
    themeColor: string,
    coverImage: Option<Url>,
    pages: seq<AlbumPage>)

  /** The wizard's steps; `Index` is the number the enum assigns. */
  datatype AppStep = Details | Upload | Standardize | Edit | Cover | Preview
  {
    function Index(): (n: nat)
      ensures n < 6
    {
      match this
      case Details => 0
      case Upload => 1
      case Standardize => 2
      case Edit => 3
      case Cover => 4
      case Preview => 5
    }
  }

  datatype ThemeColor = ThemeColor(name: string, hex: string)

  const ThemeColors: seq<ThemeColor> := [
    ThemeColor("Sunset Pink", "#FF8FA3"),
    ThemeColor("Ocean Blue", "#8AC6D1"),
    ThemeColor("Matcha Green", "#B5D8A6"),
    ThemeColor("Lavender", "#CDB4DB"),
    ThemeColor("Midnight", "#2D3748")
  ]

  /** The index of the first element satisfying `p`, as `findIndex` gives it. */
  function FindIndex<T>(s: seq<T>, p: T -> bool): (r: Option<nat>)
    ensures r.None? <==> forall i :: 0 <= i < |s| ==> !p(s[i])
    ensures r.Some? ==> r.value < |s| && p(s[r.value])
    ensures r.Some? ==> forall j :: 0 <= j < r.value ==> !p(s[j])
  {
    if |s| == 0 then None
    else if p(s[0]) then Some(0)
    else match FindIndex(s[1..], p)
      case None => None
      case Some(k) => Some(k + 1)
  }

  /** The first element satisfying `p`, as `find` gives it. */
  function Find<T>(s: seq<T>, p: T -> bool): (r: Option<T>)
    ensures r.None? <==> forall i :: 0 <= i < |s| ==> !p(s[i])
    ensures r.Some? ==> exists i :: 0 <= i < |s| && s[i] == r.value && p(s[i]) &&
                                    forall j :: 0 <= j < i ==> !p(s[j])
  {
    match FindIndex(s, p)
    case None => None
    case Some(i) => Some(s[i])
  }
}
