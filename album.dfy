/**
 * `sidebar.createStructure.album`: an album record turned into the ordered
 * list of sidebar sections basics, album, licence and, outside public mode,
 * sharing. The album section counts the album's images and videos.
 */
module AlbumStructure {
  import opened Wrappers
  import opened Strings
  import opened Labels
  import opened Sections

  /** The one field of a contained photo the builder reads: its MIME type ("" when absent). */
  datatype AlbumPhoto = AlbumPhoto(mimeType: string)

  /**
   * The album fields the builder reads. `albums` and `photos` are None when
   * the record has no such list, `owner` is None when it is null.
   */
  datatype Album = Album(
    title: string, description: string, showTags: string, createdAt: string,
    public: string, visible: string, downloadable: string, shareButtonVisible: string,
    password: string, license: string, sortingCol: string, sortingOrder: string,
    albums: Option<seq<string>>, photos: Option<seq<AlbumPhoto>>, owner: Option<string>)

  /** The photo has a MIME type and it contains "video". */
  predicate IsVideo(ph: AlbumPhoto) {
    IsVideoType(ph.mimeType)
  }

  /** The number of videos among `photos`. */
  function VideoCount(photos: seq<AlbumPhoto>): (n: nat)
    ensures n <= |photos|
    decreases |photos|
  {
    if photos == [] then 0
    else VideoCount(photos[..|photos| - 1]) + (if IsVideo(photos[|photos| - 1]) then 1 else 0)
  }

  /** No video is counted exactly when there is no video. */
  lemma {:induction false} VideoCountZero(photos: seq<AlbumPhoto>)
    ensures VideoCount(photos) == 0 <==> forall i :: 0 <= i < |photos| ==> !IsVideo(photos[i])
    decreases |photos|
  {
    if photos != [] {
      var init := photos[..|photos| - 1];
      VideoCountZero(init);
      assert forall i :: 0 <= i < |init| ==> init[i] == photos[i];
    }
  }

  /** Every photo is counted exactly when every photo is a video. */
  lemma {:induction false} VideoCountAll(photos: seq<AlbumPhoto>)
    ensures VideoCount(photos) == |photos| <==> forall i :: 0 <= i < |photos| ==> IsVideo(photos[i])
    decreases |photos|
  {
    if photos != [] {
      var init := photos[..|photos| - 1];
      VideoCountAll(init);
      assert forall i :: 0 <= i < |init| ==> init[i] == photos[i];
    }
  }

  /** `$.each(data.photos, …)` with a counter: a missing list counts no video. */
  method CountVideos(photos: Option<seq<AlbumPhoto>>) returns (n: nat)
    ensures photos.None? ==> n == 0
    ensures photos.Some? ==> n == VideoCount(photos.value)
  {
    n := 0;
    if photos.None? {
      return;
    }
    var ps := photos.value;
    var i := 0;
    while i < |ps|
      invariant 0 <= i <= |ps|
      invariant n == VideoCount(ps[..i])
    {
      assert ps[..i + 1][..i] == ps[..i];
      if IsVideo(ps[i]) {
        n := n + 1;
      }
      i := i + 1;
    }
    assert ps[..i] == ps;
  }

  function PhotoList(a: Album): seq<AlbumPhoto> {
    if a.photos.Some? then a.photos.value else []
  }

  // ---- basics -------------------------------------------------------------

  function ShowTagsRow(env: Env, a: Album, editable: bool): Row {
    Row(env.locale(ALBUM_SHOW_TAGS), ShowTags, Str(a.showTags), editable)
  }

  /** Title and description, then the shown tags for a tag album. */
  function AlbumBasicsSection(env: Env, a: Album, editable: bool, tagAlbum: bool): (s: Section)
    ensures s.Default? && |s.rows| == (if tagAlbum then 3 else 2)
    ensures Kinds(s.rows)[..2] == [Title, Description]
    ensures tagAlbum ==> s.rows[2] == ShowTagsRow(env, a, editable)
  {
    var loc := env.locale;
    Default(loc(ALBUM_BASICS),
      [Row(loc(ALBUM_TITLE), Title, Str(a.title), editable),
       Row(loc(ALBUM_DESCRIPTION), Description, Str(a.description), editable)]
      + (if tagAlbum then [ShowTagsRow(env, a, editable)] else []))
  }

  // ---- the album section --------------------------------------------------

  function CreatedRow(env: Env, a: Album): Row {
    Row(env.locale(ALBUM_CREATED), Created, Str(env.printDateTime(a.createdAt)), false)
  }

  function SubAlbumsRow(env: Env, a: Album): Row {
    Row(env.locale(ALBUM_SUBALBUMS), SubAlbums, Num(if a.albums.Some? then |a.albums.value| else 0), false)
  }

  function ImagesRow(env: Env, count: nat): Row {
    Row(env.locale(ALBUM_IMAGES), Images, Num(count), false)
  }

  function VideosRow(env: Env, count: nat): Row {
    Row(env.locale(ALBUM_VIDEOS), Videos, Num(count), false)
  }

  function SortingRow(env: Env, a: Album, editable: bool): Row {
    Row(env.locale(ALBUM_ORDERING), Sorting, Str(SortingLabel(env.locale, a.sortingCol, a.sortingOrder)), editable)
  }

  predicate HasSubAlbums(a: Album) {
    a.albums.Some? && |a.albums.value| > 0
  }

  /**
   * The album section's rows as pushed by the builder: the creation date, then
   * the sub-album count, the image count, the video count and the ordering,
   * each only when it applies. A present but empty photo list still shows the
   * ordering.
   */
  function AlbumRows(env: Env, a: Album, editable: bool): (r: seq<Row>)
    ensures 1 <= |r| <= 5 && r[0] == CreatedRow(env, a)
    ensures forall i :: 0 <= i < |r| && r[i].editable ==> r[i].kind == Sorting
  {
    var ps := PhotoList(a);
    var videos := VideoCount(ps);
    [CreatedRow(env, a)]
    + (if HasSubAlbums(a) then [SubAlbumsRow(env, a)] else [])
    + (if a.photos.Some? && |ps| - videos > 0 then [ImagesRow(env, |ps| - videos)] else [])
    + (if videos > 0 then [VideosRow(env, videos)] else [])
    + (if a.photos.Some? then [SortingRow(env, a, editable)] else [])
  }

  /** The count a row of the given kind shows, or 0 when there is no such row. */
  function CountShown(rows: seq<Row>, kind: Kind): nat
    decreases |rows|
  {
    if rows == [] then 0
    else if rows[0].kind == kind && rows[0].value.Num? then rows[0].value.count
    else CountShown(rows[1..], kind)
  }

  /**
   * Which rows the album section has: the creation date first; the sub-album
   * row iff there are sub-albums; the image row iff some photo is not a
   * video; the video row iff some photo is a video; the ordering iff there is
   * a photo list.
   */
  lemma AlbumRowsContents(env: Env, a: Album, editable: bool)
    ensures var rows := AlbumRows(env, a, editable);
      && |rows| >= 1 && rows[0] == CreatedRow(env, a)
      && (SubAlbums in Kinds(rows) <==> HasSubAlbums(a))
      && (Images in Kinds(rows) <==> exists i :: 0 <= i < |PhotoList(a)| && !IsVideo(PhotoList(a)[i]))
      && (Videos in Kinds(rows) <==> exists i :: 0 <= i < |PhotoList(a)| && IsVideo(PhotoList(a)[i]))
      && (Sorting in Kinds(rows) <==> a.photos.Some?)
  {
    var ps := PhotoList(a);
    var videos := VideoCount(ps);
    VideoCountZero(ps);
    VideoCountAll(ps);
    var s := if HasSubAlbums(a) then [SubAlbumsRow(env, a)] else [];
    var im := if a.photos.Some? && |ps| - videos > 0 then [ImagesRow(env, |ps| - videos)] else [];
    var vi := if videos > 0 then [VideosRow(env, videos)] else [];
    var so := if a.photos.Some? then [SortingRow(env, a, editable)] else [];
    assert AlbumRows(env, a, editable) == [CreatedRow(env, a)] + s + im + vi + so;
    OptionalKinds(CreatedRow(env, a), s, im, vi, so);
    assert (a.photos.Some? && |ps| - videos > 0) <==> exists i :: 0 <= i < |ps| && !IsVideo(ps[i]);
    assert videos > 0 <==> exists i :: 0 <= i < |ps| && IsVideo(ps[i]);
  }

  /** The kinds present in `[first] + s + im + vi + so`, each optional part at most one row. */
  lemma OptionalKinds(first: Row, s: seq<Row>, im: seq<Row>, vi: seq<Row>, so: seq<Row>)
    requires first.kind == Created
    requires s == [] || (|s| == 1 && s[0].kind == SubAlbums)
    requires im == [] || (|im| == 1 && im[0].kind == Images)
    requires vi == [] || (|vi| == 1 && vi[0].kind == Videos)
    requires so == [] || (|so| == 1 && so[0].kind == Sorting)
    ensures var k := Kinds([first] + s + im + vi + so);
      && (SubAlbums in k <==> s != []) && (Images in k <==> im != [])
      && (Videos in k <==> vi != []) && (Sorting in k <==> so != [])
  {
    KindAmong(first, s, im, vi, so, SubAlbums);
    KindAmong(first, s, im, vi, so, Images);
    KindAmong(first, s, im, vi, so, Videos);
    KindAmong(first, s, im, vi, so, Sorting);
  }

  lemma KindAmong(first: Row, s: seq<Row>, im: seq<Row>, vi: seq<Row>, so: seq<Row>, kind: Kind)
    requires |s| <= 1 && |im| <= 1 && |vi| <= 1 && |so| <= 1
    ensures kind in Kinds([first] + s + im + vi + so) <==>
      first.kind == kind || KindOf(s, kind) || KindOf(im, kind) || KindOf(vi, kind) || KindOf(so, kind)
  {
    KindsConcat5([first], s, im, vi, so);
    OneKind([first], kind);
    OneKind(s, kind);
    OneKind(im, kind);
    OneKind(vi, kind);
    OneKind(so, kind);
  }

  /** The at most one row of `s` has the given kind. */
  predicate KindOf(s: seq<Row>, kind: Kind) {
    s != [] && s[0].kind == kind
  }

  lemma OneKind(s: seq<Row>, kind: Kind)
    requires |s| <= 1
    ensures kind in Kinds(s) <==> KindOf(s, kind)
  {
    if s != [] {
      assert Kinds(s)[0] == s[0].kind;
    }
  }

  lemma KindsConcat5(a: seq<Row>, b: seq<Row>, c: seq<Row>, d: seq<Row>, e: seq<Row>)
    ensures forall k :: k in Kinds(a + b + c + d + e) <==>
      k in Kinds(a) || k in Kinds(b) || k in Kinds(c) || k in Kinds(d) || k in Kinds(e)
  {
    assert Kinds(a + b + c + d + e) == Kinds(a) + Kinds(b) + Kinds(c) + Kinds(d) + Kinds(e);
  }

  /** The image and video counts shown add up to the number of photos. */
  lemma AlbumCountsSum(env: Env, a: Album, editable: bool)
    requires a.photos.Some?
    ensures var rows := AlbumRows(env, a, editable);
      CountShown(rows, Images) + CountShown(rows, Videos) == |a.photos.value|
  {
    var n, v := |PhotoList(a)|, VideoCount(PhotoList(a));
    var front := [CreatedRow(env, a)] + (if HasSubAlbums(a) then [SubAlbumsRow(env, a)] else []);
    var im := if n - v > 0 then [ImagesRow(env, n - v)] else [];
    var vi := if v > 0 then [VideosRow(env, v)] else [];
    var sorting := SortingRow(env, a, editable);
    assert AlbumRows(env, a, editable) == front + im + vi + [sorting];
    forall i | 0 <= i < |front| ensures front[i].kind != Images && front[i].kind != Videos {
      assert front[i].kind == Created || front[i].kind == SubAlbums;
    }
    CountsOfRows(env, front, n, v, sorting);
  }

  /** The counts shown after rows of other kinds, with the sorting row last. */
  lemma CountsOfRows(env: Env, front: seq<Row>, n: nat, v: nat, sorting: Row)
    requires v <= n
    requires forall i :: 0 <= i < |front| ==> front[i].kind != Images && front[i].kind != Videos
    requires sorting.kind == Sorting
    ensures var rows := front + (if n - v > 0 then [ImagesRow(env, n - v)] else [])
        + (if v > 0 then [VideosRow(env, v)] else []) + [sorting];
      CountShown(rows, Images) + CountShown(rows, Videos) == n
  {
    var im := if n - v > 0 then [ImagesRow(env, n - v)] else [];
    var vi := if v > 0 then [VideosRow(env, v)] else [];
    assert front + im + vi + [sorting] == front + (im + (vi + [sorting]));
    CountsAfter(front, im, vi, [sorting], n, v);
  }

  lemma CountsAfter(front: seq<Row>, im: seq<Row>, vi: seq<Row>, so: seq<Row>, n: nat, v: nat)
    requires v <= n
    requires forall i :: 0 <= i < |front| ==> front[i].kind != Images && front[i].kind != Videos
    requires |so| == 1 && so[0].kind != Images && so[0].kind != Videos
    requires im == [] || (n - v > 0 && |im| == 1 && im[0].kind == Images && im[0].value == Num(n - v))
    requires im == [] <==> n - v == 0
    requires vi == [] || (v > 0 && |vi| == 1 && vi[0].kind == Videos && vi[0].value == Num(v))
    requires vi == [] <==> v == 0
    ensures CountShown(front + (im + (vi + so)), Images) + CountShown(front + (im + (vi + so)), Videos) == n
  {
    var tail := im + (vi + so);
    CountShownSkip(front, tail, Images);
    CountShownSkip(front, tail, Videos);
    assert CountShown(so, Images) == 0 && CountShown(so, Videos) == 0 by {
      assert so[1..] == [];
    }
    if im == [] {
      assert tail == vi + so;
    } else {
      assert tail[0] == im[0] && tail[1..] == vi + so;
    }
    if vi != [] {
      assert (vi + so)[0] == vi[0] && (vi + so)[1..] == so;
    } else {
      assert vi + so == so;
    }
  }

  /** Rows of other kinds in front of `rest` do not change the count shown. */
  lemma {:induction false} CountShownSkip(front: seq<Row>, rest: seq<Row>, kind: Kind)
    requires forall i :: 0 <= i < |front| ==> front[i].kind != kind
    ensures CountShown(front + rest, kind) == CountShown(rest, kind)
    decreases |front|
  {
    if front != [] {
      assert (front + rest)[1..] == front[1..] + rest;
      CountShownSkip(front[1..], rest, kind);
    } else {
      assert front + rest == rest;
    }
  }

  /** The album section rows as the builder pushes them one by one. */
  method BuildAlbumRows(env: Env, a: Album, editable: bool) returns (rows: seq<Row>)
    ensures rows == AlbumRows(env, a, editable)
  {
    var videoCount := CountVideos(a.photos);
    rows := [CreatedRow(env, a)];
    if a.albums.Some? && |a.albums.value| > 0 {
      rows := rows + [Row(env.locale(ALBUM_SUBALBUMS), SubAlbums, Num(|a.albums.value|), false)];
    }
    if a.photos.Some? {
      if |a.photos.value| - videoCount > 0 {
        rows := rows + [ImagesRow(env, |a.photos.value| - videoCount)];
      }
    }
    if videoCount > 0 {
      rows := rows + [VideosRow(env, videoCount)];
    }
    if a.photos.Some? {
      rows := rows + [SortingRow(env, a, editable)];
    }
  }

  // ---- sharing and licence ------------------------------------------------

  function OwnerRow(env: Env, owner: string): Row {
    Row(env.locale(ALBUM_OWNER), Owner, Str(owner), false)
  }

  /**
   * The sharing flags, none editable, in the order public, hidden,
   * downloadable, share button, password; then the owner when there is one.
   */
  function ShareSection(env: Env, a: Album): (s: Section)
    ensures s.Default? && s.title == env.locale(ALBUM_SHARING)
    ensures |s.rows| == (if a.owner.Some? then 6 else 5)
    ensures Kinds(s.rows)[..5] == [Public, Hidden, Downloadable, ShareButtonVisible, Password]
    ensures s.rows[1].value == Str(YesNoLabel(env.locale, Negated(a.visible)))
    ensures a.owner.Some? ==> s.rows[5] == OwnerRow(env, a.owner.value)
  {
    var loc := env.locale;
    Default(loc(ALBUM_SHARING),
      [Row(loc(ALBUM_PUBLIC), Public, Str(YesNoLabel(loc, a.public)), false),
       Row(loc(ALBUM_HIDDEN), Hidden, Str(HiddenLabel(loc, a.visible)), false),
       Row(loc(ALBUM_DOWNLOADABLE), Downloadable, Str(YesNoLabel(loc, a.downloadable)), false),
       Row(loc(ALBUM_SHARE_BUTTON_VISIBLE), ShareButtonVisible, Str(YesNoLabel(loc, a.shareButtonVisible)), false),
       Row(loc(ALBUM_PASSWORD), Password, Str(YesNoLabel(loc, a.password)), false)]
      + (if a.owner.Some? then [OwnerRow(env, a.owner.value)] else []))
  }

  /** One row showing the licence label, editable when the album is. */
  function AlbumLicenseSection(env: Env, a: Album, editable: bool): (s: Section)
    ensures s.Default? && s.title == env.locale(ALBUM_REUSE) && |s.rows| == 1
    ensures s.rows[0].kind == License && s.rows[0].editable == editable
    ensures s.rows[0].value == Str(LicenseLabel(a.license, env.locale(ALBUM_RESERVED)))
  {
    var loc := env.locale;
    Default(loc(ALBUM_REUSE), [Row(loc(ALBUM_LICENSE), License, Str(LicenseLabel(a.license, loc(ALBUM_RESERVED))), editable)])
  }

  // ---- the whole structure ------------------------------------------------

  /** Basics, album and licence in this order; the sharing section last and only outside public mode. */
  function AlbumSections(env: Env, editable: bool, tagAlbum: bool, publicMode: bool, a: Album): (r: seq<Section>)
    ensures |r| == (if publicMode then 3 else 4)
    ensures r[1] == Default(env.locale(ALBUM_ALBUM), AlbumRows(env, a, editable))
    ensures !publicMode ==> r[3] == ShareSection(env, a)
  {
    var album := Default(env.locale(ALBUM_ALBUM), AlbumRows(env, a, editable));
    var share := ShareSection(env, a);
    ThreeThenOptional(AlbumBasicsSection(env, a, editable, tagAlbum), album, AlbumLicenseSection(env, a, editable), share, publicMode);
    [AlbumBasicsSection(env, a, editable, tagAlbum), album, AlbumLicenseSection(env, a, editable)]
    + (if publicMode then [] else [share])
  }

  lemma ThreeThenOptional<T>(x0: T, x1: T, x2: T, y: T, skip: bool)
    ensures var r := [x0, x1, x2] + (if skip then [] else [y]);
      |r| == (if skip then 3 else 4) && r[1] == x1 && (!skip ==> r[3] == y)
  {
  }

  /**
   * The builder as written: `false` (None) without a record; otherwise the
   * sections assembled step by step with the counted videos.
   */
  method CreateAlbumStructure(env: Env, editable: bool, tagAlbum: bool, publicMode: bool, data: Option<Album>)
    returns (r: Option<seq<Section>>)
    ensures r.None? <==> data.None?
    ensures data.Some? ==> r.value == AlbumSections(env, editable, tagAlbum, publicMode, data.value)
  {
    if data.None? {
      return None;
    }
    var a := data.value;
    var loc := env.locale;

    var basics := BuildBasicsSection(env, a, editable, tagAlbum);

    var albumRows := BuildAlbumRows(env, a, editable);
    var album := Default(loc(ALBUM_ALBUM), albumRows);

    var share := BuildShareSection(env, a);
    var license := AlbumLicenseSection(env, a, editable);

    var sections := [basics, album, license];
    if !publicMode {
      sections := sections + [share];
    }
    return Some(sections);
  }

  /** The sharing section with the owner pushed when there is one. */
  method BuildShareSection(env: Env, a: Album) returns (share: Section)
    ensures share == ShareSection(env, a)
  {
    var loc := env.locale;
    var rows :=
      [Row(loc(ALBUM_PUBLIC), Public, Str(YesNoLabel(loc, a.public)), false),
       Row(loc(ALBUM_HIDDEN), Hidden, Str(HiddenLabel(loc, a.visible)), false),
       Row(loc(ALBUM_DOWNLOADABLE), Downloadable, Str(YesNoLabel(loc, a.downloadable)), false),
       Row(loc(ALBUM_SHARE_BUTTON_VISIBLE), ShareButtonVisible, Str(YesNoLabel(loc, a.shareButtonVisible)), false),
       Row(loc(ALBUM_PASSWORD), Password, Str(YesNoLabel(loc, a.password)), false)];
    if a.owner.Some? {
      rows := rows + [OwnerRow(env, a.owner.value)];
    }
    share := Default(loc(ALBUM_SHARING), rows);
  }

  /** The basics section with the shown tags pushed for a tag album. */
  method BuildBasicsSection(env: Env, a: Album, editable: bool, tagAlbum: bool) returns (basics: Section)
    ensures basics == AlbumBasicsSection(env, a, editable, tagAlbum)
  {
    var loc := env.locale;
    var rows := [Row(loc(ALBUM_TITLE), Title, Str(a.title), editable),
                 Row(loc(ALBUM_DESCRIPTION), Description, Str(a.description), editable)];
    if tagAlbum {
      rows := rows + [ShowTagsRow(env, a, editable)];
    }
    basics := Default(loc(ALBUM_BASICS), rows);
  }
}
