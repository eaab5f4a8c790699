/**
 * `sidebar.createStructure.photo`: a photo record turned into the ordered list
 * of sidebar sections basics, image (or video), tags, EXIF, location, licence,
 * palette and, outside public mode, sharing.
 */
module PhotoStructure {
  import opened Wrappers
  import opened Strings
  import opened Duration
  import opened Labels
  import opened Sections

  /**
   * The photo fields the builder reads. Absent text fields are "". For a
   * video the record reuses `aperture` for the duration in whole seconds and
   * `focal` for the frame rate.
   */
  datatype Photo = Photo(
    title: string, description: string, createdAt: string, takenAt: string,
    filesize: nat, mimeType: string, width: nat, height: nat,
    make: string, model: string, lens: string, shutter: string,
    aperture: string, focal: string, iso: string,
    license: string, public: string, tags: seq<string>, colors: seq<string>,
    latitude: string, longitude: string, altitude: string, location: string, imgDirection: string)

  /** The MIME type contains "video" anywhere. */
  predicate IsVideo(p: Photo) {
    IsVideoType(p.mimeType)
  }

  /** The EXIF fields run together; empty exactly when every one of them is. */
  function ExifHash(p: Photo): (h: string)
    ensures h == "" <==> p.takenAt == p.make == p.model == p.shutter == p.aperture == p.focal == p.iso == ""
  {
    p.takenAt + p.make + p.model + p.shutter + p.aperture + p.focal + p.iso
  }

  /** Longitude, latitude and altitude run together; empty exactly when all three are. */
  function LocationHash(p: Photo): (h: string)
    ensures h == "" <==> p.longitude == p.latitude == p.altitude == ""
  {
    p.longitude + p.latitude + p.altitude
  }

  /** `secondsToHMS(aperture)`; a field that does not read as a number gives "", as NaN does there. */
  function DurationText(aperture: string): (r: string)
    ensures AllDigits(aperture) ==> r == SecondsToHMS(DigitsValue(aperture))
    ensures !AllDigits(aperture) ==> r == ""
  {
    match NumberValue(aperture)
    case Some(n) => SecondsToHMS(n)
    case None => ""
  }

  // ---- basics -------------------------------------------------------------

  /** Title, upload date and description; title and description are editable when the album is, the date never. */
  function BasicsSection(env: Env, p: Photo, editable: bool): (s: Section)
    ensures s.Default? && s.title == env.locale(PHOTO_BASICS) && |s.rows| == 3
    ensures s.rows[0].kind == Title && s.rows[1].kind == Uploaded && s.rows[2].kind == Description
    ensures s.rows[0].value == Str(p.title) && s.rows[2].value == Str(p.description)
    ensures s.rows[0].editable == editable && !s.rows[1].editable && s.rows[2].editable == editable
  {
    var loc := env.locale;
    Default(loc(PHOTO_BASICS), [
      Row(loc(PHOTO_TITLE), Title, Str(p.title), editable),
      Row(loc(PHOTO_UPLOADED), Uploaded, Str(env.printDateTime(p.createdAt)), false),
      Row(loc(PHOTO_DESCRIPTION), Description, Str(p.description), editable)])
  }

  // ---- image / video ------------------------------------------------------

  function SizeRow(env: Env, p: Photo): (r: Row)
    ensures r.kind == Size && !r.editable
  {
    Row(env.locale(PHOTO_SIZE), Size, Str(env.printFilesize(p.filesize)), false)
  }

  function FormatRow(env: Env, p: Photo): (r: Row)
    ensures r.kind == MimeType && !r.editable
  {
    Row(env.locale(PHOTO_FORMAT), MimeType, Str(p.mimeType), false)
  }

  function ResolutionRow(env: Env, p: Photo): (r: Row)
    ensures r.kind == Resolution && !r.editable
  {
    Row(env.locale(PHOTO_RESOLUTION), Resolution, Str(NatToString(p.width) + " x " + NatToString(p.height)), false)
  }

  function DurationRow(env: Env, p: Photo): (r: Row)
    ensures r.kind == Duration && !r.editable
  {
    Row(env.locale(PHOTO_DURATION), Duration, Str(DurationText(p.aperture)), false)
  }

  function FpsRow(env: Env, p: Photo): (r: Row)
    ensures r.kind == Fps && !r.editable
  {
    Row(env.locale(PHOTO_FPS), Fps, Str(p.focal + " fps"), false)
  }

  /** Position of each image row kind in the section's fixed order. */
  function ImageRank(kind: Kind): nat {
    match kind
    case Size => 0
    case MimeType => 1
    case Resolution => 2
    case Duration => 3
    case _ => 4
  }

  /** The image section's rows, as pushed and spliced by the builder. */
  function ImageRows(env: Env, p: Photo): (r: seq<Row>)
    ensures 2 <= |r| <= 5 && r[0].kind == Size && r[1].kind == MimeType
    ensures !IsVideo(p) ==> |r| == 3 && r[2].kind == Resolution
  {
    var video := IsVideo(p);
    Parts(SizeRow(env, p), FormatRow(env, p), ResolutionRow(env, p), DurationRow(env, p), FpsRow(env, p),
      !video || (p.width != 0 && p.height != 0), video && p.aperture != "", video && p.focal != "")
  }

  /** Size and format, then each of resolution, duration and frame rate when its condition holds. */
  function Parts(size: Row, format: Row, res: Row, dur: Row, fps: Row, hasRes: bool, hasDur: bool, hasFps: bool): (r: seq<Row>)
    ensures |r| == 2 + (if hasRes then 1 else 0) + (if hasDur then 1 else 0) + (if hasFps then 1 else 0)
    ensures r[0] == size && r[1] == format && (hasRes ==> r[2] == res)
  {
    [size, format] + (if hasRes then [res] else []) + (if hasDur then [dur] else []) + (if hasFps then [fps] else [])
  }

  /**
   * Size and format always come first; a photo has exactly size, format and
   * resolution; a video loses the resolution when it lacks a width or a
   * height, and gains the duration when the aperture field is set and the
   * frame rate when the focal field is set.
   */
  lemma ImageRowsContents(env: Env, p: Photo)
    ensures var rows := ImageRows(env, p);
      && |rows| >= 2 && rows[0] == SizeRow(env, p) && rows[1] == FormatRow(env, p)
      && (!IsVideo(p) ==> rows == [SizeRow(env, p), FormatRow(env, p), ResolutionRow(env, p)])
      && (ResolutionRow(env, p) in rows <==> !IsVideo(p) || (p.width != 0 && p.height != 0))
      && (DurationRow(env, p) in rows <==> IsVideo(p) && p.aperture != "")
      && (FpsRow(env, p) in rows <==> IsVideo(p) && p.focal != "")
  {
    var video := IsVideo(p);
    PartsContents(SizeRow(env, p), FormatRow(env, p), ResolutionRow(env, p), DurationRow(env, p), FpsRow(env, p),
      !video || (p.width != 0 && p.height != 0), video && p.aperture != "", video && p.focal != "");
  }

  /** The image rows' shape, over the five rows and the three conditions. */
  lemma PartsContents(size: Row, format: Row, res: Row, dur: Row, fps: Row, hasRes: bool, hasDur: bool, hasFps: bool)
    requires size.kind == Size && format.kind == MimeType && res.kind == Resolution
    requires dur.kind == Duration && fps.kind == Fps
    ensures var rows := Parts(size, format, res, dur, fps, hasRes, hasDur, hasFps);
      && |rows| >= 2 && rows[0] == size && rows[1] == format
      && (hasRes && !hasDur && !hasFps ==> rows == [size, format, res])
      && (res in rows <==> hasRes)
      && (dur in rows <==> hasDur)
      && (fps in rows <==> hasFps)
  {
    var a := if hasRes then [res] else [];
    var b := if hasDur then [dur] else [];
    var c := if hasFps then [fps] else [];
    InFive(size, format, a, b, c, res);
    InFive(size, format, a, b, c, dur);
    InFive(size, format, a, b, c, fps);
  }

  lemma InFive<T>(x0: T, x1: T, a: seq<T>, b: seq<T>, c: seq<T>, y: T)
    ensures y in [x0, x1] + a + b + c <==> y == x0 || y == x1 || y in a || y in b || y in c
  {
  }

  /** The image rows keep the order size, format, resolution, duration, frame rate. */
  lemma ImageRowsOrdered(env: Env, p: Photo)
    ensures var rows := ImageRows(env, p);
      forall i, j :: 0 <= i < j < |rows| ==> ImageRank(rows[i].kind) < ImageRank(rows[j].kind)
  {
    var video := IsVideo(p);
    PartsOrdered(SizeRow(env, p), FormatRow(env, p), ResolutionRow(env, p), DurationRow(env, p), FpsRow(env, p),
      !video || (p.width != 0 && p.height != 0), video && p.aperture != "", video && p.focal != "");
  }

  lemma PartsOrdered(size: Row, format: Row, res: Row, dur: Row, fps: Row, hasRes: bool, hasDur: bool, hasFps: bool)
    requires size.kind == Size && format.kind == MimeType && res.kind == Resolution
    requires dur.kind == Duration && fps.kind == Fps
    ensures var rows := Parts(size, format, res, dur, fps, hasRes, hasDur, hasFps);
      forall i, j :: 0 <= i < j < |rows| ==> ImageRank(rows[i].kind) < ImageRank(rows[j].kind)
  {
    var r0 := [size, format];
    var r1 := r0 + (if hasRes then [res] else []);
    var r2 := r1 + (if hasDur then [dur] else []);
    AppendRanked(r0, res, hasRes);
    AppendRanked(r1, dur, hasDur);
    AppendRanked(r2, fps, hasFps);
    RankedRows(Parts(size, format, res, dur, fps, hasRes, hasDur, hasFps));
  }

  /** Each row ranks below the next one. */
  predicate AdjacentRanked(rows: seq<Row>) {
    forall k :: 0 < k < |rows| ==> ImageRank(rows[k - 1].kind) < ImageRank(rows[k].kind)
  }

  /** Pushing a row that ranks above the last one keeps the rows ranked. */
  lemma AppendRanked(rows: seq<Row>, x: Row, has: bool)
    requires rows != [] && AdjacentRanked(rows) && ImageRank(rows[|rows| - 1].kind) < ImageRank(x.kind)
    ensures var r := rows + (if has then [x] else []);
      r != [] && AdjacentRanked(r) && ImageRank(r[|r| - 1].kind) <= ImageRank(x.kind)
  {
    if has {
      var r := rows + [x];
      forall k | 0 < k < |r| ensures ImageRank(r[k - 1].kind) < ImageRank(r[k].kind) {
        if k < |rows| {
          assert r[k - 1] == rows[k - 1] && r[k] == rows[k];
        }
      }
    }
  }

  lemma {:induction false} RankedRows(rows: seq<Row>)
    requires AdjacentRanked(rows)
    ensures forall i, j :: 0 <= i < j < |rows| ==> ImageRank(rows[i].kind) < ImageRank(rows[j].kind)
    decreases |rows|
  {
    if |rows| > 1 {
      RankedRows(rows[..|rows| - 1]);
      assert forall i :: 0 <= i < |rows| - 1 ==> ImageRank(rows[i].kind) <= ImageRank(rows[|rows| - 2].kind);
    }
  }

  /** Titled "video" for a video and "image" otherwise, holding the image rows. */
  function ImageSection(env: Env, p: Photo): (s: Section)
    ensures s.Default? && s.rows == ImageRows(env, p)
    ensures IsVideo(p) ==> s.title == env.locale(PHOTO_VIDEO)
    ensures !IsVideo(p) ==> s.title == env.locale(PHOTO_IMAGE)
  {
    Default(env.locale(if IsVideo(p) then PHOTO_VIDEO else PHOTO_IMAGE), ImageRows(env, p))
  }

  // ---- tags and palette ---------------------------------------------------

  function TagsSection(env: Env, p: Photo, editable: bool): Section {
    Tags(env.locale(PHOTO_TAGS), env.buildTags(p.tags), editable)
  }

  /** The palette's markup, or '' when the photo has no colours. */
  function PaletteSection(env: Env, p: Photo): (s: Section)
    ensures s.Palette? && (p.colors == [] ==> s.value == "")
  {
    Palette(env.locale(PHOTO_PALETTE), if |p.colors| > 0 then env.buildColors(p.colors) else "")
  }

  // ---- EXIF ---------------------------------------------------------------

  function CameraRows(env: Env, p: Photo): (rows: seq<Row>)
    ensures |rows| == 8
  {
    var loc := env.locale;
    [Row(loc(PHOTO_CAPTURED), TakeDate, Str(env.printDateTime(p.takenAt)), false),
     Row(loc(PHOTO_MAKE), Make, Str(p.make), false),
     Row(loc(PHOTO_TYPE), Model, Str(p.model), false),
     Row(loc(PHOTO_LENS), Lens, Str(p.lens), false),
     Row(loc(PHOTO_SHUTTER), Shutter, Str(p.shutter), false),
     Row(loc(PHOTO_APERTURE), Aperture, Str(p.aperture), false),
     Row(loc(PHOTO_FOCAL), Focal, Str(p.focal), false),
     Row(loc(PHOTO_ISO), Iso, Str(p.iso), false)]
  }

  function VideoCameraRows(env: Env, p: Photo): seq<Row> {
    var loc := env.locale;
    [Row(loc(PHOTO_CAPTURED), TakeDate, Str(env.printDateTime(p.takenAt)), false),
     Row(loc(PHOTO_MAKE), Make, Str(p.make), false),
     Row(loc(PHOTO_TYPE), Model, Str(p.model), false)]
  }

  /**
   * The camera section, or `{}` when none of the seven EXIF fields is set. A
   * video shows only the first three rows (date, make, model) of a photo's
   * eight.
   */
  function ExifSection(env: Env, p: Photo): (s: Section)
    ensures s.Empty? <==> p.takenAt == p.make == p.model == p.shutter == p.aperture == p.focal == p.iso == ""
    ensures !s.Empty? ==> s.Default? && s.title == env.locale(PHOTO_CAMERA)
    ensures !s.Empty? && IsVideo(p) ==> s.rows == CameraRows(env, p)[..3]
    ensures !s.Empty? && !IsVideo(p) ==> s.rows == CameraRows(env, p)
  {
    if ExifHash(p) != "" then
      Default(env.locale(PHOTO_CAMERA), if IsVideo(p) then VideoCameraRows(env, p) else CameraRows(env, p))
    else Empty
  }

  // ---- sharing and licence ------------------------------------------------

  /** One row, never editable, showing the sharing label of the `public` flag. */
  function SharingSection(env: Env, p: Photo): (s: Section)
    ensures s.Default? && s.title == env.locale(PHOTO_SHARING) && |s.rows| == 1
    ensures s.rows[0].kind == Public && !s.rows[0].editable
    ensures s.rows[0].value == Str(PhotoPublicLabel(env.locale, p.public))
  {
    var loc := env.locale;
    Default(loc(PHOTO_SHARING), [Row(loc(PHOTO_SHR_PLUBLIC), Public, Str(PhotoPublicLabel(loc, p.public)), false)])
  }

  /** One row showing the licence label, editable when the album is. */
  function LicenseSection(env: Env, p: Photo, editable: bool): (s: Section)
    ensures s.Default? && s.title == env.locale(PHOTO_REUSE) && |s.rows| == 1
    ensures s.rows[0].kind == License && s.rows[0].editable == editable
    ensures s.rows[0].value == Str(LicenseLabel(p.license, env.locale(PHOTO_RESERVED)))
  {
    var loc := env.locale;
    Default(loc(PHOTO_REUSE), [Row(loc(PHOTO_LICENSE), License, Str(LicenseLabel(p.license, loc(PHOTO_RESERVED))), editable)])
  }

  // ---- location -----------------------------------------------------------

  function LatitudeRow(env: Env, p: Photo): Row {
    Row(env.locale(PHOTO_LATITUDE), Latitude,
      Str(if p.latitude != "" then env.degreesMinutesSeconds(p.latitude, true) else ""), false)
  }

  function LongitudeRow(env: Env, p: Photo): Row {
    Row(env.locale(PHOTO_LONGITUDE), Longitude,
      Str(if p.longitude != "" then env.degreesMinutesSeconds(p.longitude, false) else ""), false)
  }

  function AltitudeRow(env: Env, p: Photo): Row {
    Row(env.locale(PHOTO_ALTITUDE), Altitude,
      Str(if p.altitude != "" then env.roundAltitude(p.altitude) + "m" else ""), false)
  }

  function PlaceRow(env: Env, p: Photo): Row {
    Row(env.locale(PHOTO_LOCATION), Location, Str(p.location), false)
  }

  function DirectionRow(env: Env, p: Photo): Row {
    Row(env.locale(PHOTO_IMGDIRECTION), ImgDirection, Str(env.roundDirection(p.imgDirection) + "°"), false)
  }

  /**
   * The location section, or `{}` when longitude, latitude and altitude are all
   * unset: latitude, longitude, altitude and the place name, then the
   * direction of capture when it is set.
   */
  function LocationSection(env: Env, p: Photo): (s: Section)
    ensures s.Empty? <==> p.longitude == p.latitude == p.altitude == ""
    ensures !s.Empty? ==> s.Default? && s.title == env.locale(PHOTO_LOCATION)
    ensures !s.Empty? ==>
      && |s.rows| == (if p.imgDirection != "" then 5 else 4)
      && s.rows[0].kind == Latitude && s.rows[1].kind == Longitude
      && s.rows[2].kind == Altitude && s.rows[3].kind == Location
      && (p.imgDirection != "" ==> s.rows[4] == DirectionRow(env, p))
  {
    if LocationHash(p) != "" then
      Default(env.locale(PHOTO_LOCATION),
        [LatitudeRow(env, p), LongitudeRow(env, p), AltitudeRow(env, p), PlaceRow(env, p)]
        + (if p.imgDirection != "" then [DirectionRow(env, p)] else []))
    else Empty
  }

  // ---- the whole structure ------------------------------------------------

  /**
   * The sections in their fixed order; the sharing section comes last and only
   * outside public mode.
   */
  function PhotoSections(env: Env, editable: bool, publicMode: bool, p: Photo): (r: seq<Section>)
    ensures |r| == (if publicMode then 7 else 8)
  {
    [BasicsSection(env, p, editable), ImageSection(env, p), TagsSection(env, p, editable),
     ExifSection(env, p), LocationSection(env, p), LicenseSection(env, p, editable),
     PaletteSection(env, p)]
    + (if publicMode then [] else [SharingSection(env, p)])
  }

  /** Tags third, EXIF fourth, location fifth, palette seventh, and sharing last outside public mode. */
  lemma PhotoSectionsOrder(env: Env, editable: bool, publicMode: bool, p: Photo)
    ensures var r := PhotoSections(env, editable, publicMode, p);
      && r[2] == TagsSection(env, p, editable) && r[2].Tags?
      && r[3] == ExifSection(env, p) && r[4] == LocationSection(env, p)
      && r[6] == PaletteSection(env, p) && r[6].Palette?
      && (!publicMode ==> r[7] == SharingSection(env, p))
  {
    SectionsAt(BasicsSection(env, p, editable), ImageSection(env, p), TagsSection(env, p, editable),
      ExifSection(env, p), LocationSection(env, p), LicenseSection(env, p, editable),
      PaletteSection(env, p), SharingSection(env, p), publicMode);
  }

  lemma SectionsAt(s0: Section, s1: Section, s2: Section, s3: Section, s4: Section, s5: Section, s6: Section,
                   s7: Section, publicMode: bool)
    ensures var r := [s0, s1, s2, s3, s4, s5, s6] + (if publicMode then [] else [s7]);
      && |r| == (if publicMode then 7 else 8)
      && r[0] == s0 && r[1] == s1 && r[2] == s2 && r[3] == s3 && r[4] == s4 && r[5] == s5 && r[6] == s6
      && (!publicMode ==> r[7] == s7)
  {
  }

  /**
   * The builder as written: `false` (None) without a record; otherwise the
   * rows are assembled step by step, the resolution row spliced off a video
   * without dimensions and the duration and frame rate pushed after it.
   */
  method CreatePhotoStructure(env: Env, editable: bool, publicMode: bool, data: Option<Photo>)
    returns (r: Option<seq<Section>>)
    ensures r.None? <==> data.None?
    ensures data.Some? ==> r.value == PhotoSections(env, editable, publicMode, data.value)
  {
    if data.None? {
      return None;
    }
    var p := data.value;
    var loc := env.locale;
    var video := IsVideo(p);

    var basics := BasicsSection(env, p, editable);

    var imageRows := BuildImageRows(env, p);
    var image := Default(loc(if video then PHOTO_VIDEO else PHOTO_IMAGE), imageRows);

    var tags := TagsSection(env, p, editable);
    var palette := PaletteSection(env, p);

    var exif := Empty;
    if ExifHash(p) != "" {
      exif := Default(loc(PHOTO_CAMERA), if video then VideoCameraRows(env, p) else CameraRows(env, p));
    }

    var sharing := SharingSection(env, p);
    var license := LicenseSection(env, p, editable);

    var location := BuildLocationSection(env, p);

    var sections := [basics, image, tags, exif, location, license, palette];
    if !publicMode {
      sections := sections + [sharing];
    }
    return Some(sections);
  }

  /** The image rows as the builder assembles them: three rows, then a splice and two pushes for a video. */
  method BuildImageRows(env: Env, p: Photo) returns (rows: seq<Row>)
    ensures rows == ImageRows(env, p)
  {
    rows := AssembleImageRows(SizeRow(env, p), FormatRow(env, p), ResolutionRow(env, p), DurationRow(env, p), FpsRow(env, p),
      IsVideo(p), p.width == 0 || p.height == 0, p.aperture != "", p.focal != "");
  }

  /** The same over the five rows and the photo's flags. */
  method AssembleImageRows(size: Row, format: Row, res: Row, dur: Row, fps: Row,
                           video: bool, noDimensions: bool, hasAperture: bool, hasFocal: bool) returns (rows: seq<Row>)
    ensures rows == Parts(size, format, res, dur, fps, !video || !noDimensions, video && hasAperture, video && hasFocal)
  {
    rows := [size, format, res];
    if video {
      if noDimensions {
        rows := rows[..|rows| - 1];
        assert rows == [size, format];
      }
      if hasAperture {
        rows := rows + [dur];
      }
      if hasFocal {
        rows := rows + [fps];
      }
    }
  }

  /** The location section as the builder assembles it: four rows and a conditional push. */
  method BuildLocationSection(env: Env, p: Photo) returns (location: Section)
    ensures location == LocationSection(env, p)
  {
    location := Empty;
    if LocationHash(p) != "" {
      var rows := [LatitudeRow(env, p), LongitudeRow(env, p), AltitudeRow(env, p), PlaceRow(env, p)];
      if p.imgDirection != "" {
        rows := rows + [DirectionRow(env, p)];
      }
      location := Default(env.locale(PHOTO_LOCATION), rows);
    }
  }
}
