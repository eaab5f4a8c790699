# Lychee sidebar: structure builders and renderer selection

This project models the data-shaping core of the Lychee front end's sidebar
(`scripts/main/sidebar.js`). The sidebar shows a photo's or an album's
attributes. The model covers the following parts:

- **`secondsToHMS`**: a video duration in whole seconds, written as
  hours, minutes and seconds (`Duration`).
- **The `switch` mappings**: they turn licence, sharing, visibility,
  download, share-button and password flags into display labels, and they
  build the ordering label (`Labels`).
- **`createStructure.photo`**: it turns a photo record into the ordered
  sections basics, image or video, tags, EXIF, location, licence, palette
  and, outside public mode, sharing (`PhotoStructure`).
- **`createStructure.album`**: it turns an album record into basics,
  album, licence and, outside public mode, sharing. It counts the album's
  images and videos along the way (`AlbumStructure`).
- **`render` and `has_location`**: which sections, table lines and value
  pieces the sidebar emits for a structure (`Render`). The location pass
  drops the place-name row when location display is off, and splits the
  other rows' texts at commas into trimmed search items. A list value emits
  its non-empty items with a separator strictly between consecutive ones.
- **`Sidebar`**: the two halves taken together. It covers what the renderer
  makes of a photo's location section, and what `has_location` answers for
  the builders' output.
- **`Strings`**: the few JavaScript string operations the core relies on.
  These are decimal printing, `Number` on digit strings, substring search,
  `split(",")` and `trim()`.

Each builder and the renderer exist in two forms:

- A **specification function** states what the result is. Examples are
  `PhotoSections`, `AlbumRows`, `LocationRows` and `RenderSections`.
- A **method** assembles the result the way the source does, with pushes,
  splices, counters and `forEach` loops. Examples are
  `CreatePhotoStructure`, `BuildAlbumRows`, `LocationPass` and `Render`.
  Each method's postcondition ties its result to the specification
  function. The properties of the result are lemmas about those functions.

Collaborators outside the core are fields of an `Env` value of total
functions. They are the locale table, the date and file-size printers, the
tag and colour markup builders, the coordinate formatter and the rounding of
altitude and direction. The ambient flags `publicMode`, `location_show`,
`location_show_public` and `map_display` form a `Config`. The builders'
`editable` (`album.isUploadable()`) and `isTagAlbum()` are parameters.

Two places where the code as written differs from the documented intent
are modelled as written:

- The location pass splits every row of the location section that has a
  text value, not only the place name.
- The pass removes the place-name row with `splice` inside `forEach`. So
  the row that slides into its index (the direction of capture, when
  present) is never visited. That row stays unsplit, and it is never checked
  for a latitude or a longitude (`LocationRows`, `Sees`,
  `PhotoLocationRendered`).

## Model

| member | source | states |
|---|---|---|
| Strings.NatToString | scripts/main/sidebar.js:170 | `toString` of a non-negative integer is a non-empty string of decimal digits with no leading zero unless the number is 0 |
| Strings.DigitsValueOfNatToString | scripts/main/sidebar.js:165-170 | reading the printed digits back gives the number again |
| Strings.NumberValue | scripts/main/sidebar.js:165 | a string of decimal digits reads as its value (the empty string as 0); the model reads every other string as NaN |
| Strings.NumberValueOfNatToString | scripts/main/sidebar.js:165 | `Number` of a printed count is that count |
| Strings.Contains | scripts/main/sidebar.js:181 | an occurrence needs a text at least as long as the needle, so a missing (empty) type never contains "video" |
| Sections.IsVideoType | scripts/main/sidebar.js:181 | a type that counts as video is at least as long as "video", so a photo without a type is never a video (the album's counter at line 467 applies the same test) |
| Strings.ContainsAt | scripts/main/sidebar.js:181 | an occurrence of the needle at some position makes `indexOf` succeed |
| Strings.ContainsWitness | scripts/main/sidebar.js:181 | a successful `indexOf` yields a position where the needle occurs |
| Strings.TrimShape | scripts/main/sidebar.js:572 | the trimmed text starts and ends with no white space and sits in the original with only white space around it |
| Strings.TrimKeepsOut | scripts/main/sidebar.js:572 | trimming introduces no character, so a comma-free piece stays comma-free |
| Strings.TrimTrimmed | scripts/main/sidebar.js:572 | a text with no white space at either end trims to itself |
| Strings.SplitComma | scripts/main/sidebar.js:571 | `split(",")` gives at least one piece, no piece holds a comma, and joining the pieces with commas gives the text back |
| Strings.SplitJoinComma | scripts/main/sidebar.js:571 | splitting comma-free pieces joined with commas gives the pieces back |
| Strings.SplitCommaFree | scripts/main/sidebar.js:571 | a text without commas splits into itself alone |
| Duration.Component | scripts/main/sidebar.js:170 | a component is empty exactly when it is not shown |
| Duration.SecondsToHMS | scripts/main/sidebar.js:164-171 | the result is never empty and ends with a unit letter |
| Duration.SecondsToHMSUnits | scripts/main/sidebar.js:166-170 | `h` occurs iff there are whole hours, `m` iff whole minutes remain, `s` iff seconds remain or there are neither hours nor minutes |
| Duration.SecondsToHMSExamples | scripts/main/sidebar.js:164-171 | 0 gives "0s", 45 gives "45s", 3661 gives "1h1m1s", 7205 gives "2h5s" |
| Duration.HMSSum | scripts/main/sidebar.js:166-168 | hours, minutes and seconds recombine to the duration |
| Duration.ParseComponents | scripts/main/sidebar.js:170 | reading the three concatenated components back gives the hour/minute/second sum |
| Duration.ParseSecondsToHMS | scripts/main/sidebar.js:164-171 | reading the formatted duration back gives the number of seconds: the format loses nothing |
| Labels.LicenseLabel | scripts/main/sidebar.js:185-198 | a licence other than "none" and "reserved" is shown verbatim |
| Labels.LicenseLabelEmpty | scripts/main/sidebar.js:433-444 | the licence label is empty exactly for "none" and for an empty licence |
| Labels.PhotoPublicLabel | scripts/main/sidebar.js:200-214 | any sharing value other than "0", "1", "2" shows "-" |
| Labels.PhotoPublicLabelInjective | scripts/main/sidebar.js:200-214 | with distinct localized labels, "-" marks exactly the unknown values and a known value's label identifies it |
| Labels.YesNoLabel | scripts/main/sidebar.js:368-379 | any flag other than "0" and "1" shows "-" |
| Labels.YesNoLabelInjective | scripts/main/sidebar.js:394-431 | with distinct Yes/No labels, "-" marks exactly the unknown flags and a known flag's label identifies it |
| Labels.Negated | scripts/main/sidebar.js:381-392 | swapping "0" and "1" changes exactly those two values and keeps the set {"0", "1"} |
| Labels.NegatedTwice | scripts/main/sidebar.js:381-392 | swapping twice gives the flag back |
| Labels.HiddenLabel | scripts/main/sidebar.js:381-392 | "hidden" is the Yes/No label of the negated `visible` flag |
| Labels.SortingLabel | scripts/main/sidebar.js:446-450 | with a column set, the label is the column followed by a space |
| Labels.SortingLabelDecodes | scripts/main/sidebar.js:446-450 | the label is the default text iff no column is set; otherwise splitting it at the first space gives column and direction back |
| PhotoStructure.DurationText | scripts/main/sidebar.js:245-246 | a digit string of seconds is formatted by `secondsToHMS`; anything else reads as NaN and gives "" |
| PhotoStructure.ExifHash | scripts/main/sidebar.js:177 | the run-together EXIF fields are empty exactly when all seven fields are |
| PhotoStructure.LocationHash | scripts/main/sidebar.js:178 | the run-together coordinates are empty exactly when longitude, latitude and altitude all are |
| PhotoStructure.BasicsSection | scripts/main/sidebar.js:216-224 | title, upload date and description in this order; title and description editable when the album is, the date never |
| PhotoStructure.ImageRows | scripts/main/sidebar.js:226-251 | two to five rows starting with size and format; a photo has exactly three, the third its resolution |
| PhotoStructure.ImageSection | scripts/main/sidebar.js:226-234 | titled with the video label for a video and the image label otherwise, holding the image rows |
| PhotoStructure.ImageRowsContents | scripts/main/sidebar.js:226-251 | size and format come first; a photo has exactly size, format and resolution; a video keeps the resolution iff width and height are non-zero, has a duration iff the aperture field is set, and has a frame rate iff the focal field is set |
| PhotoStructure.ImageRowsOrdered | scripts/main/sidebar.js:229-250 | the image rows keep the order size, format, resolution, duration, frame rate |
| PhotoStructure.BuildImageRows | scripts/main/sidebar.js:226-251 | pushing three rows, splicing off the resolution and pushing duration and frame rate gives the specified image rows |
| PhotoStructure.AssembleImageRows | scripts/main/sidebar.js:229-250 | the splice and the two pushes keep a row exactly when its condition holds |
| PhotoStructure.PaletteSection | scripts/main/sidebar.js:263-267 | the palette value is '' when the photo has no colours |
| PhotoStructure.CameraRows | scripts/main/sidebar.js:280-289 | a photo's camera section has eight rows |
| PhotoStructure.ExifSection | scripts/main/sidebar.js:269-293 | the camera section is `{}` iff all seven EXIF fields are empty; a video shows the first three of a photo's eight rows |
| PhotoStructure.LocationSection | scripts/main/sidebar.js:307-341 | the location section is `{}` iff longitude, latitude and altitude are all empty; otherwise latitude, longitude, altitude and place, then the direction iff it is set |
| PhotoStructure.SharingSection | scripts/main/sidebar.js:295-299 | one row, never editable, with the sharing label of the `public` flag |
| PhotoStructure.LicenseSection | scripts/main/sidebar.js:301-305 | one row with the licence label, editable when the album is |
| PhotoStructure.BuildLocationSection | scripts/main/sidebar.js:307-341 | four rows and a conditional push give the specified location section |
| PhotoStructure.PhotoSections | scripts/main/sidebar.js:343-350 | seven sections in public mode, eight otherwise |
| PhotoStructure.PhotoSectionsOrder | scripts/main/sidebar.js:344-348 | tags third, EXIF fourth, location fifth, palette seventh, and sharing last outside public mode |
| PhotoStructure.CreatePhotoStructure | scripts/main/sidebar.js:173-351 | no record gives `false`; otherwise the step-by-step assembly gives the specified sections |
| AlbumStructure.VideoCount | scripts/main/sidebar.js:465-470 | at most one video per photo is counted |
| AlbumStructure.VideoCountZero | scripts/main/sidebar.js:465-470 | no video is counted iff no photo is a video |
| AlbumStructure.VideoCountAll | scripts/main/sidebar.js:465-470 | every photo is counted iff every photo is a video |
| AlbumStructure.CountVideos | scripts/main/sidebar.js:465-470 | the counting loop gives the number of videos, and 0 without a photo list |
| AlbumStructure.AlbumBasicsSection | scripts/main/sidebar.js:452-463 | title and description, plus the shown tags iff the album is a tag album |
| AlbumStructure.BuildBasicsSection | scripts/main/sidebar.js:452-463 | two rows and a conditional push give the specified basics section |
| AlbumStructure.AlbumRows | scripts/main/sidebar.js:471-489 | one to five rows, the creation date first; only the ordering row can be editable |
| AlbumStructure.AlbumRowsContents | scripts/main/sidebar.js:471-489 | the creation date comes first; sub-albums iff there are any; images iff some photo is not a video; videos iff some photo is a video; ordering iff there is a photo list |
| AlbumStructure.AlbumCountsSum | scripts/main/sidebar.js:479-486 | the image and video counts shown add up to the number of photos |
| AlbumStructure.BuildAlbumRows | scripts/main/sidebar.js:465-489 | counting the videos and pushing the optional rows gives the specified album rows |
| AlbumStructure.ShareSection | scripts/main/sidebar.js:492-506 | public, hidden, downloadable, share button and password in this order, the hidden row inverted, then the owner iff there is one |
| AlbumStructure.BuildShareSection | scripts/main/sidebar.js:492-506 | five rows and a conditional push give the specified sharing section |
| AlbumStructure.AlbumLicenseSection | scripts/main/sidebar.js:508-512 | one row with the licence label, editable when the album is |
| AlbumStructure.AlbumSections | scripts/main/sidebar.js:514-520 | three sections in public mode, four otherwise, with the album rows second and sharing last |
| AlbumStructure.CreateAlbumStructure | scripts/main/sidebar.js:353-521 | no record gives `false`; otherwise the step-by-step assembly gives the specified sections |
| Render.TrimmedPartsShape | scripts/main/sidebar.js:571-573 | splitting a text gives one item per comma-separated piece and no item holds a comma |
| Render.TrimmedPartsOfJoin | scripts/main/sidebar.js:571-573 | comma-free items with no white space at either end, joined with commas, split back to themselves |
| Render.Explode | scripts/main/sidebar.js:569-574 | a non-empty text becomes its trimmed comma-separated items; any other value, and title, kind and editability, are left alone |
| Render.LocationHidden | scripts/main/sidebar.js:566 | with the global location switch off the place name is always hidden; with it on, it is shown outside public mode and in public mode when public location display is on |
| Render.LocationRows | scripts/main/sidebar.js:556-576 | the pass never adds rows |
| Render.SeesMarks | scripts/main/sidebar.js:556-563 | the pass reports a latitude or longitude only when some row carries one, and with display on exactly when some row does |
| Render.LocationRowsShown | scripts/main/sidebar.js:556-576 | with location display on, every row is kept and split |
| Render.LocationRowsHidden | scripts/main/sidebar.js:565-568 | with location display off and no two place-name rows adjacent, no place-name row survives the pass |
| Render.LocationPass | scripts/main/sidebar.js:556-576 | the in-place pass, splice skip included, gives the specified rows and the latitude and longitude it saw |
| Render.NonEmpty | scripts/main/sidebar.js:594-596 | exactly the non-empty items are kept |
| Render.NonEmptyAppend | scripts/main/sidebar.js:593-596 | empty items are dropped in place: the kept items of two parts are those of the first, then those of the second, in order and with repeats |
| Render.SeparatedShape | scripts/main/sidebar.js:597-601 | the items sit at the even positions in order and the separator at exactly the odd ones, so none leads and none trails |
| Render.ValuePieces | scripts/main/sidebar.js:591-604 | a text or count is one plain piece; a list gives its non-empty items at the even positions, in order, and the separator at exactly the odd ones |
| Render.RenderItems | scripts/main/sidebar.js:591-602 | the item loop gives the separated non-empty items |
| Render.RenderRow | scripts/main/sidebar.js:588-609 | a row is shown iff its value is set or it is editable, keeps its title and kind, and has the icon `edit_<kind>` iff editable |
| Render.RenderLines | scripts/main/sidebar.js:585-617 | the lines are exactly those of the shown rows |
| Render.RenderLinesAppend | scripts/main/sidebar.js:585-617 | the lines of two runs of rows are the first run's lines, then the second's |
| Render.RenderLinesOne | scripts/main/sidebar.js:589-616 | a single row gives its own line when shown and nothing otherwise |
| Render.RenderLinesCons | scripts/main/sidebar.js:585-617 | the lines follow the rows in order, each row contributing at most its own line |
| Render.RenderOneRow | scripts/main/sidebar.js:586-616 | one row's rendering gives the specified line |
| Render.RenderRowsOf | scripts/main/sidebar.js:585-617 | the row loop gives the specified lines |
| Render.DefaultBlockOf | scripts/main/sidebar.js:542-624 | a plain block keeps the section title; outside the location section it has no map and one line per shown row; the map needs the map setting |
| Render.RenderDefault | scripts/main/sidebar.js:542-624 | the location pass when the title is the location label, then the row loop, gives the specified block |
| Render.SectionBlocks | scripts/main/sidebar.js:659-663 | at most one block; none exactly for the empty object and an empty palette; otherwise a block of the section's own type with its title, a tags block with its value and an edit icon iff editable, a palette block with its value |
| Render.RenderSection | scripts/main/sidebar.js:659-663 | dispatching on the section's type gives the section's blocks |
| Render.RenderSections | scripts/main/sidebar.js:659-663 | a palette block appears exactly for the palette sections with a non-empty value |
| Render.RenderSectionsAppend | scripts/main/sidebar.js:659-663 | the blocks of two runs of sections are the first run's blocks, then the second's |
| Render.RenderSectionsOne | scripts/main/sidebar.js:659-663 | a single section renders to its own blocks |
| Render.RenderSectionsCons | scripts/main/sidebar.js:659-663 | blocks follow the sections in order, each section contributing only its own |
| Render.Render | scripts/main/sidebar.js:537-666 | no structure gives `false`; otherwise the section loop gives the specified blocks |
| Render.HasLocation | scripts/main/sidebar.js:523-535 | true iff there is a structure and some section is titled with the location label |
| Sidebar.PhotoLocationRendered | scripts/main/sidebar.js:552-583 | a photo's location rows after the pass: with display off, the place name is gone and the direction is left unsplit; with it on, every row is split; the map shows iff latitude and longitude are set and the map is enabled |
| Sidebar.PhotoHasLocation | scripts/main/sidebar.js:523-535 | on a photo's structure, `has_location` is true iff longitude, latitude or altitude is set |
| Sidebar.AlbumHasNoLocation | scripts/main/sidebar.js:523-535 | on an album's structure, `has_location` is false |

## Left out

- The DOM and jQuery plumbing (`sidebar.dom`, `bind`, `toggle`, `setSelectable`, `changeAttr`, `hideAttr`) and `triggerSearch`, at lines 15-162. These are user-interface effects with no data to state.
- `DecimalToDegreeMinutesSeconds`, and the rounding of altitude and direction. They use floating point, so they are `Env` functions the model does not look into.
- `DecimalToDegreeMinutesSeconds` returns `false` for a coordinate beyond 180 degrees (lines 676-678). The row value is then `false`, which the location pass counts as a set coordinate and on which its `split` fails. The string-valued `degreesMinutesSeconds` function cannot produce it, so that case is not modelled.
- The locale table, `printDateTime`, `printFilesizeLocalized`, `build.tags`, `build.colors`, `build.editIcon`, HTML escaping and the `lychee.html` template tag. They are external collaborators, so they are `Env` functions.
- The markup text. Rendering is modelled as the blocks, lines and value pieces emitted, with an edit icon given by its id.
- Absent, `null` and `undefined` record fields are the empty string. A row value of `null` is folded into `""`, which the renderer treats alike. The `locationHash !== 0` test for three null coordinates is covered by the empty-string test.
- Strings.NumberValue: only a string of decimal digits is read as a number, and exactly. `Number` also reads decimal fractions, signs, surrounding white space, hexadecimal and exponent notation, and rounds digit strings beyond 2^53 to the nearest double; those readings are floating point and are left out.
- PhotoStructure.DurationText: only a string of decimal digits is read as a number, so a decimal or signed duration, which `Number` would read, gives "". A duration beyond 2^53 seconds is formatted from its exact value, where the source would format the rounded one.
- Width and height are natural numbers. `Number`'s coercions of other field types are not modelled.
- `album.isUploadable()` and `album.isTagAlbum()` are parameters. Whether a global `album` object exists is not modelled.
- Render.Explode: a value that is already a list, or a count, is left unchanged. The source would call `split` on it and fail.
- The renderer mutates the structure passed to it in place. The model computes the rows after the pass without writing them back, so the caller's structure keeps its original rows, and aliasing is not captured.
- Strings.TrimShape: only space, tab, line feed, carriage return, vertical tab, form feed, no-break space, the byte-order mark and the line and paragraph separators count as white space. The other Unicode space separators that `trim()` also removes do not.
- `has_location` and the renderer compare titles with the location label by string equality. The empty object has no title.
