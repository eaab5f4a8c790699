/**
 * The `switch` mappings the structure builders use to turn a record's flag and
 * licence fields into display labels.
 */
module Labels {

  /**
   * The keys of `lychee.locale` the sidebar looks up, named as in the locale
   * table.
   */
  datatype Key =
    | PHOTO_RESERVED | PHOTO_SHR_NO | PHOTO_SHR_PHT | PHOTO_SHR_ALB | PHOTO_BASICS | PHOTO_TITLE
    | PHOTO_UPLOADED | PHOTO_DESCRIPTION | PHOTO_VIDEO | PHOTO_IMAGE | PHOTO_SIZE | PHOTO_FORMAT
    | PHOTO_RESOLUTION | PHOTO_DURATION | PHOTO_FPS | PHOTO_TAGS | PHOTO_PALETTE | PHOTO_CAMERA
    | PHOTO_CAPTURED | PHOTO_MAKE | PHOTO_TYPE | PHOTO_LENS | PHOTO_SHUTTER | PHOTO_APERTURE
    | PHOTO_FOCAL | PHOTO_ISO | PHOTO_SHARING | PHOTO_SHR_PLUBLIC | PHOTO_REUSE | PHOTO_LICENSE
    | PHOTO_LOCATION | PHOTO_LATITUDE | PHOTO_LONGITUDE | PHOTO_ALTITUDE | PHOTO_IMGDIRECTION
    | ALBUM_SHR_NO | ALBUM_SHR_YES | ALBUM_RESERVED | DEFAULT | ALBUM_BASICS | ALBUM_TITLE
    | ALBUM_DESCRIPTION | ALBUM_SHOW_TAGS | ALBUM_ALBUM | ALBUM_CREATED | ALBUM_SUBALBUMS
    | ALBUM_IMAGES | ALBUM_VIDEOS | ALBUM_ORDERING | ALBUM_SHARING | ALBUM_PUBLIC | ALBUM_HIDDEN
    | ALBUM_DOWNLOADABLE | ALBUM_SHARE_BUTTON_VISIBLE | ALBUM_PASSWORD | ALBUM_OWNER | ALBUM_REUSE
    | ALBUM_LICENSE

  /** `lychee.locale`: a total lookup from a key to its localized text. */
  type Locale = Key -> string

  /**
   * A licence as displayed: "none" shows nothing, "reserved" shows the
   * localized "all rights reserved" text, anything else is shown verbatim.
   * One definition serves both the photo (key PHOTO_RESERVED) and the album
   * (key ALBUM_RESERVED) builder.
   */
  function LicenseLabel(license: string, reserved: string): (r: string)
    ensures license !in {"none", "reserved"} ==> r == license
  {
    match license
    case "none" => ""
    case "reserved" => reserved
    case _ => license
  }

  /** A licence shows as empty exactly when it is "none" or itself empty (the reserved text being non-empty). */
  lemma LicenseLabelEmpty(license: string, reserved: string)
    requires reserved != ""
    ensures LicenseLabel(license, reserved) == "" <==> license == "none" || license == ""
  {
  }

  /** The photo's sharing state: "0" not shared, "1" shared as photo, "2" shared with its album. */
  function PhotoPublicLabel(loc: Locale, public: string): (r: string)
    ensures public !in {"0", "1", "2"} ==> r == "-"
  {
    match public
    case "0" => loc(PHOTO_SHR_NO)
    case "1" => loc(PHOTO_SHR_PHT)
    case "2" => loc(PHOTO_SHR_ALB)
    case _ => "-"
  }

  /** The three localized sharing labels differ from each other and from the placeholder "-". */
  predicate DistinctPhotoShareLabels(loc: Locale) {
    var no, pht, alb := loc(PHOTO_SHR_NO), loc(PHOTO_SHR_PHT), loc(PHOTO_SHR_ALB);
    no != pht && no != alb && pht != alb && "-" !in {no, pht, alb}
  }

  /** With distinct labels the photo sharing label identifies the flag, and "-" marks exactly the unknown values. */
  lemma PhotoPublicLabelInjective(loc: Locale, p: string, q: string)
    requires DistinctPhotoShareLabels(loc)
    ensures PhotoPublicLabel(loc, p) == "-" <==> p !in {"0", "1", "2"}
    ensures p in {"0", "1", "2"} && PhotoPublicLabel(loc, p) == PhotoPublicLabel(loc, q) ==> p == q
  {
  }

  /** An album yes/no flag: "0" is No, "1" is Yes, anything else "-". */
  function YesNoLabel(loc: Locale, flag: string): (r: string)
    ensures flag !in {"0", "1"} ==> r == "-"
  {
    match flag
    case "0" => loc(ALBUM_SHR_NO)
    case "1" => loc(ALBUM_SHR_YES)
    case _ => "-"
  }

  /** The album's yes/no labels differ from each other and from "-". */
  predicate DistinctYesNo(loc: Locale) {
    loc(ALBUM_SHR_NO) != loc(ALBUM_SHR_YES) && "-" !in {loc(ALBUM_SHR_NO), loc(ALBUM_SHR_YES)}
  }

  lemma YesNoLabelInjective(loc: Locale, p: string, q: string)
    requires DistinctYesNo(loc)
    ensures YesNoLabel(loc, p) == "-" <==> p !in {"0", "1"}
    ensures p in {"0", "1"} && YesNoLabel(loc, p) == YesNoLabel(loc, q) ==> p == q
  {
  }

  /** Swaps "0" and "1", leaving any other value alone. */
  function Negated(flag: string): (r: string)
    ensures r in {"0", "1"} <==> flag in {"0", "1"}
    ensures r != flag <==> flag in {"0", "1"}
  {
    match flag
    case "0" => "1"
    case "1" => "0"
    case _ => flag
  }

  lemma NegatedTwice(flag: string)
    ensures Negated(Negated(flag)) == flag
  {
  }

  /**
   * "Hidden" is shown from the album's `visible` field, so the answer is
   * inverted: visible "0" reads Yes, visible "1" reads No.
   */
  function HiddenLabel(loc: Locale, visible: string): (r: string)
    ensures r == YesNoLabel(loc, Negated(visible))
  {
    match visible
    case "0" => loc(ALBUM_SHR_YES)
    case "1" => loc(ALBUM_SHR_NO)
    case _ => "-"
  }

  /** The ordering: the localized default label when no column is set, else column, a space and direction. */
  function SortingLabel(loc: Locale, column: string, order: string): (r: string)
    ensures column != "" ==> |r| > |column| && r[..|column|] == column && r[|column|] == ' '
  {
    if column == "" then loc(DEFAULT) else column + " " + order
  }

  /** Splits a label at its first space, as a reader of "name asc" would. */
  function SplitAtSpace(s: string): (string, string)
    decreases |s|
  {
    if s == [] then ("", "")
    else if s[0] == ' ' then ("", s[1..])
    else
      var (head, tail) := SplitAtSpace(s[1..]);
      ([s[0]] + head, tail)
  }

  lemma {:induction false} SplitAtSpaceAfter(head: string, tail: string)
    requires ' ' !in head
    ensures SplitAtSpace(head + " " + tail) == (head, tail)
    decreases |head|
  {
    if head == [] {
      assert head + " " + tail == [' '] + tail;
    } else {
      assert head[0] in head;
      assert (head + " " + tail)[1..] == head[1..] + " " + tail;
      assert forall c :: c in head[1..] ==> c in head;
      SplitAtSpaceAfter(head[1..], tail);
      assert [head[0]] + head[1..] == head;
    }
  }

  /**
   * The ordering label is the default label exactly when no column is set
   * (given a default label without spaces), and otherwise gives back its column
   * and direction.
   */
  lemma SortingLabelDecodes(loc: Locale, column: string, order: string)
    requires ' ' !in loc(DEFAULT)
    ensures SortingLabel(loc, column, order) == loc(DEFAULT) <==> column == ""
    ensures column != "" && ' ' !in column ==> SplitAtSpace(SortingLabel(loc, column, order)) == (column, order)
  {
    var r := SortingLabel(loc, column, order);
    if column != "" {
      assert r[|column|] == ' ' && r[|column|] in r;
      if ' ' !in column {
        SplitAtSpaceAfter(column, order);
      }
    }
  }
}
