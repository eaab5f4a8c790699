/**
 * The display model the structure builders produce and the renderer consumes:
 * sections of three kinds (plain attribute table, tag list, colour palette) plus
 * the empty object `{}` that stands in for a missing EXIF or location section,
 * and the collaborators the builders call but do not own.
 */
module Sections {
  import opened Strings
  import opened Labels

  /**
   * The test both builders apply to a MIME type: it contains "video"
   * anywhere. A missing type ("") never passes.
   */
  predicate IsVideoType(mimeType: string)
    ensures IsVideoType(mimeType) ==> |mimeType| >= 5
  {
    Contains(mimeType, "video")
  }

  /** A row's value: text, a count, or the comma-separated parts of a text. */
  datatype RowValue = Str(text: string) | Num(count: nat) | Items(items: seq<string>)

  /**
   * The `kind` discriminator of a row. The sidebar uses it as a string (in
   * CSS class names and in `"edit_" + kind`); `Name` gives that string.
   */
  datatype Kind =
    | Title | Uploaded | Description | Size | MimeType | Resolution | Duration | Fps
    | TakeDate | Make | Model | Lens | Shutter | Aperture | Focal | Iso
    | Public | License | Latitude | Longitude | Altitude | Location | ImgDirection
    | ShowTags | Created | SubAlbums | Images | Videos | Sorting
    | Hidden | Downloadable | ShareButtonVisible | Password | Owner
  {
    function Name(): string {
      match this
      case Title => "title"
      case Uploaded => "uploaded"
      case Description => "description"
      case Size => "size"
      case MimeType => "type"
      case Resolution => "resolution"
      case Duration => "duration"
      case Fps => "fps"
      case TakeDate => "takedate"
      case Make => "make"
      case Model => "model"
      case Lens => "lens"
      case Shutter => "shutter"
      case Aperture => "aperture"
      case Focal => "focal"
      case Iso => "iso"
      case Public => "public"
      case License => "license"
      case Latitude => "latitude"
      case Longitude => "longitude"
      case Altitude => "altitude"
      case Location => "location"
      case ImgDirection => "imgDirection"
      case ShowTags => "showtags"
      case Created => "created"
      case SubAlbums => "subalbums"
      case Images => "images"
      case Videos => "videos"
      case Sorting => "sorting"
      case Hidden => "hidden"
      case Downloadable => "downloadable"
      case ShareButtonVisible => "share_button_visible"
      case Password => "password"
      case Owner => "owner"
    }
  }

  /** `{ title, kind, value, editable }`; a row without `editable` has it false. */
  datatype Row = Row(title: string, kind: Kind, value: RowValue, editable: bool)

  /** `sidebar.types.DEFAULT`, `TAGS` and `PALETTE` sections, and the empty object `{}`. */
  datatype Section =
    | Default(title: string, rows: seq<Row>)
    | Tags(title: string, value: string, editable: bool)
    | Palette(title: string, value: string)
    | Empty

  function Kinds(rows: seq<Row>): (r: seq<Kind>)
    ensures |r| == |rows| && forall i :: 0 <= i < |rows| ==> r[i] == rows[i].kind
  {
    seq(|rows|, i requires 0 <= i < |rows| => rows[i].kind)
  }

  /**
   * What the builders take from outside: the locale table, the date and file
   * size printers, the tag and colour markup builders, the coordinate
   * formatter (`DecimalToDegreeMinutesSeconds`) and the rounding of altitude
   * and direction, all as total functions.
   */
  datatype Env = Env(
    locale: Locale,
    printDateTime: string -> string,
    printFilesize: nat -> string,
    buildTags: seq<string> -> string,
    buildColors: seq<string> -> string,
    degreesMinutesSeconds: (string, bool) -> string,
    roundAltitude: string -> string,
    roundDirection: string -> string)

  /** Ambient flags: `lychee.publicMode`, `location_show`, `location_show_public`, `map_display`. */
  datatype Config = Config(publicMode: bool, locationShow: bool, locationShowPublic: bool, mapDisplay: bool)
}
