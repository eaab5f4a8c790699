/**
 * Properties of the builders and the renderer taken together: what the
 * renderer makes of a photo's location section, and what `has_location`
 * answers for the structures the two builders produce.
 */
module Sidebar {
  import opened Labels
  import opened Sections
  import opened PhotoStructure
  import opened AlbumStructure
  import opened Render

  /**
   * The renderer's treatment of a photo's location section. With location
   * display off, the place-name row disappears and the direction row that
   * moves into its place is kept unsplit; with it on, every row is split.
   * The map placeholder needs a latitude and a longitude text and the map
   * setting.
   */
  lemma PhotoLocationRendered(env: Env, cfg: Config, p: Photo)
    requires LocationHash(p) != ""
    ensures var rows := LocationSection(env, p).rows;
      var lat, lon, alt := LatitudeRow(env, p), LongitudeRow(env, p), AltitudeRow(env, p);
      && (LocationHidden(cfg) ==>
            LocationRows(rows, true) ==
            [Explode(lat), Explode(lon), Explode(alt)] + (if p.imgDirection != "" then [DirectionRow(env, p)] else []))
      && (!LocationHidden(cfg) ==>
            LocationRows(rows, false) ==
            [Explode(lat), Explode(lon), Explode(alt), Explode(PlaceRow(env, p))]
            + (if p.imgDirection != "" then [Explode(DirectionRow(env, p))] else []))
      && DefaultBlockOf(env, cfg, env.locale(PHOTO_LOCATION), rows).showsMap ==
            (lat.value != Str("") && lon.value != Str("") && cfg.mapDisplay)
  {
    var lat, lon, alt, place := LatitudeRow(env, p), LongitudeRow(env, p), AltitudeRow(env, p), PlaceRow(env, p);
    var dir := if p.imgDirection != "" then [DirectionRow(env, p)] else [];
    assert LocationSection(env, p).rows == [lat, lon, alt, place] + dir;
    Prepend4(lat, lon, alt, place, dir);
    if LocationHidden(cfg) {
      CoordinateRowsHidden(lat, lon, alt, place, dir);
    } else {
      CoordinateRowsShown(lat, lon, alt, place, dir);
    }
    CoordinateSees(lat, lon, alt, place, dir, LocationHidden(cfg));
  }

  /** The location pass over latitude, longitude, altitude, place and at most one further row, location display off. */
  lemma CoordinateRowsHidden(lat: Row, lon: Row, alt: Row, place: Row, dir: seq<Row>)
    requires lat.kind == Latitude && lon.kind == Longitude && alt.kind == Altitude && place.kind == Location
    requires |dir| <= 1
    ensures LocationRows([lat] + ([lon] + ([alt] + ([place] + dir))), true)
      == [Explode(lat), Explode(lon), Explode(alt)] + dir
  {
    FrontRows(lat, lon, alt, [place] + dir, true);
    PlaceHidden(place, dir);
    Prepend3(Explode(lat), Explode(lon), Explode(alt), dir);
  }

  /** The same with location display on. */
  lemma CoordinateRowsShown(lat: Row, lon: Row, alt: Row, place: Row, dir: seq<Row>)
    requires lat.kind == Latitude && lon.kind == Longitude && alt.kind == Altitude && place.kind == Location
    requires |dir| <= 1
    ensures LocationRows([lat] + ([lon] + ([alt] + ([place] + dir))), false)
      == [Explode(lat), Explode(lon), Explode(alt), Explode(place)] + (if dir == [] then [] else [Explode(dir[0])])
  {
    FrontRows(lat, lon, alt, [place] + dir, false);
    PlaceShownRows(place, dir);
    Prepend4(Explode(lat), Explode(lon), Explode(alt), Explode(place), if dir == [] then [] else [Explode(dir[0])]);
  }

  /** What the pass over those rows sees of the two coordinates. */
  lemma CoordinateSees(lat: Row, lon: Row, alt: Row, place: Row, dir: seq<Row>, hidden: bool)
    requires lat.kind == Latitude && lon.kind == Longitude && alt.kind == Altitude && place.kind == Location
    requires |dir| <= 1 && (dir != [] ==> dir[0].kind == ImgDirection)
    ensures Sees([lat] + ([lon] + ([alt] + ([place] + dir))), hidden, Latitude) <==> lat.value != Str("")
    ensures Sees([lat] + ([lon] + ([alt] + ([place] + dir))), hidden, Longitude) <==> lon.value != Str("")
  {
    FrontSees(lat, lon, alt, [place] + dir, hidden, Latitude);
    FrontSees(lat, lon, alt, [place] + dir, hidden, Longitude);
    if hidden {
      PlaceHidden(place, dir);
    } else {
      PlaceShown(place, dir);
    }
  }

  lemma FrontRows(lat: Row, lon: Row, alt: Row, rest: seq<Row>, hidden: bool)
    requires lat.kind == Latitude && lon.kind == Longitude && alt.kind == Altitude
    ensures LocationRows([lat] + ([lon] + ([alt] + rest)), hidden)
      == [Explode(lat)] + ([Explode(lon)] + ([Explode(alt)] + LocationRows(rest, hidden)))
  {
    LocationRowsKept(alt, rest, hidden);
    LocationRowsKept(lon, [alt] + rest, hidden);
    LocationRowsKept(lat, [lon] + ([alt] + rest), hidden);
  }

  lemma Prepend3<T>(a: T, b: T, c: T, rest: seq<T>)
    ensures [a] + ([b] + ([c] + rest)) == [a, b, c] + rest
  {
  }

  lemma Prepend4<T>(a: T, b: T, c: T, d: T, rest: seq<T>)
    ensures [a] + ([b] + ([c] + ([d] + rest))) == [a, b, c, d] + rest
  {
  }

  lemma FrontSees(lat: Row, lon: Row, alt: Row, rest: seq<Row>, hidden: bool, kind: Kind)
    requires lat.kind == Latitude && lon.kind == Longitude && alt.kind == Altitude
    ensures Sees([lat] + ([lon] + ([alt] + rest)), hidden, kind)
      == (Marks(lat, kind) || Marks(lon, kind) || Marks(alt, kind) || Sees(rest, hidden, kind))
  {
    SeesKept(lat, [lon] + ([alt] + rest), hidden, kind);
    SeesKept(lon, [alt] + rest, hidden, kind);
    SeesKept(alt, rest, hidden, kind);
  }

  lemma PlaceHidden(place: Row, dir: seq<Row>)
    requires place.kind == Location && |dir| <= 1
    ensures LocationRows([place] + dir, true) == dir
    ensures !Sees([place] + dir, true, Latitude) && !Sees([place] + dir, true, Longitude)
  {
    LocationRowsSkipped(place, dir, true);
    SeesSkipped(place, dir, true, Latitude);
    SeesSkipped(place, dir, true, Longitude);
    if dir != [] {
      assert dir[1..] == [];
      assert dir == [dir[0]];
    }
  }

  lemma PlaceShown(place: Row, dir: seq<Row>)
    requires place.kind == Location && |dir| <= 1 && (dir != [] ==> dir[0].kind == ImgDirection)
    ensures LocationRows([place] + dir, false) == [Explode(place)] + (if dir == [] then [] else [Explode(dir[0])])
    ensures !Sees([place] + dir, false, Latitude) && !Sees([place] + dir, false, Longitude)
  {
    PlaceShownRows(place, dir);
    NoCoordinateSeen(place, dir, Latitude);
    NoCoordinateSeen(place, dir, Longitude);
  }

  lemma PlaceShownRows(place: Row, dir: seq<Row>)
    requires place.kind == Location && |dir| <= 1
    ensures LocationRows([place] + dir, false) == [Explode(place)] + (if dir == [] then [] else [Explode(dir[0])])
  {
    LocationRowsKept(place, dir, false);
    AtMostOneShown(dir);
  }

  lemma AtMostOneShown(rows: seq<Row>)
    requires |rows| <= 1
    ensures LocationRows(rows, false) == if rows == [] then [] else [Explode(rows[0])]
  {
    if rows != [] {
      assert rows == [rows[0]];
      OneShown(rows[0]);
    }
  }

  lemma OneShown(row: Row)
    ensures LocationRows([row], false) == [Explode(row)]
  {
    LocationRowsKept(row, [], false);
    assert [row] == [row] + [];
  }

  lemma NoCoordinateSeen(place: Row, dir: seq<Row>, kind: Kind)
    requires kind == Latitude || kind == Longitude
    requires place.kind == Location && |dir| <= 1 && (dir != [] ==> dir[0].kind == ImgDirection)
    ensures !Sees([place] + dir, false, kind)
  {
    SeesKept(place, dir, false, kind);
    if dir != [] {
      assert dir == [dir[0]] + [];
      SeesKept(dir[0], [], false, kind);
    }
  }

  /** The location label differs from the labels of every other photo section. */
  predicate DistinctPhotoTitles(loc: Locale) {
    var title := loc(PHOTO_LOCATION);
    && title != loc(PHOTO_BASICS) && title != loc(PHOTO_IMAGE) && title != loc(PHOTO_VIDEO)
    && title != loc(PHOTO_TAGS) && title != loc(PHOTO_CAMERA) && title != loc(PHOTO_REUSE)
    && title != loc(PHOTO_PALETTE) && title != loc(PHOTO_SHARING)
  }

  /** `has_location` on a photo's structure: true exactly when the photo has coordinates or an altitude. */
  lemma PhotoHasLocation(env: Env, editable: bool, publicMode: bool, p: Photo)
    requires DistinctPhotoTitles(env.locale)
    ensures SomeTitled(PhotoSections(env, editable, publicMode, p), env.locale(PHOTO_LOCATION))
      <==> LocationHash(p) != ""
  {
    var title := env.locale(PHOTO_LOCATION);
    var basics, image, tags := BasicsSection(env, p, editable), ImageSection(env, p), TagsSection(env, p, editable);
    var exif, location, license := ExifSection(env, p), LocationSection(env, p), LicenseSection(env, p, editable);
    var palette, sharing := PaletteSection(env, p), SharingSection(env, p);
    assert PhotoSections(env, editable, publicMode, p)
      == [basics, image, tags, exif, location, license, palette] + (if publicMode then [] else [sharing]);
    assert !TitledAs(basics, title) && !TitledAs(image, title) && !TitledAs(tags, title);
    assert !TitledAs(license, title) && !TitledAs(palette, title) && !TitledAs(sharing, title);
    assert !TitledAs(exif, title);
    assert TitledAs(location, title) <==> LocationHash(p) != "";
    TitledAmong(basics, image, tags, exif, location, license, palette, sharing, publicMode, title);
  }

  /** Among the photo sections, only the fifth may carry the title. */
  lemma TitledAmong(s0: Section, s1: Section, s2: Section, s3: Section, s4: Section, s5: Section, s6: Section,
                    s7: Section, publicMode: bool, title: string)
    requires !TitledAs(s0, title) && !TitledAs(s1, title) && !TitledAs(s2, title) && !TitledAs(s3, title)
    requires !TitledAs(s5, title) && !TitledAs(s6, title) && !TitledAs(s7, title)
    ensures SomeTitled([s0, s1, s2, s3, s4, s5, s6] + (if publicMode then [] else [s7]), title) <==> TitledAs(s4, title)
  {
    var r := [s0, s1, s2, s3, s4, s5, s6] + (if publicMode then [] else [s7]);
    SectionsAt(s0, s1, s2, s3, s4, s5, s6, s7, publicMode);
    if TitledAs(s4, title) {
      assert TitledAs(r[4], title);
    } else {
      forall i | 0 <= i < |r| ensures !TitledAs(r[i], title) {
      }
    }
  }

  /** The labels of the album sections differ from the location label. */
  predicate DistinctAlbumTitles(loc: Locale) {
    var title := loc(PHOTO_LOCATION);
    title != loc(ALBUM_BASICS) && title != loc(ALBUM_ALBUM) && title != loc(ALBUM_REUSE) && title != loc(ALBUM_SHARING)
  }

  /** `has_location` on an album's structure is false. */
  lemma AlbumHasNoLocation(env: Env, editable: bool, tagAlbum: bool, publicMode: bool, a: Album)
    requires DistinctAlbumTitles(env.locale)
    ensures !SomeTitled(AlbumSections(env, editable, tagAlbum, publicMode, a), env.locale(PHOTO_LOCATION))
  {
    var title := env.locale(PHOTO_LOCATION);
    var basics := AlbumBasicsSection(env, a, editable, tagAlbum);
    var album := Default(env.locale(ALBUM_ALBUM), AlbumRows(env, a, editable));
    var license, share := AlbumLicenseSection(env, a, editable), ShareSection(env, a);
    var r := [basics, album, license] + (if publicMode then [] else [share]);
    assert AlbumSections(env, editable, tagAlbum, publicMode, a) == r;
    assert !TitledAs(basics, title) && !TitledAs(album, title) && !TitledAs(license, title) && !TitledAs(share, title);
    forall i | 0 <= i < |r| ensures !TitledAs(r[i], title) {
      assert r[i] in {basics, album, license, share};
    }
  }
}
