/**
 * `sidebar.render` and `sidebar.has_location`: which sections, rows and value
 * pieces the sidebar emits for a structure, leaving out the markup itself.
 *
 * A plain section emits a line per row whose value is set or which is
 * editable. In the location section the place-name row is removed when
 * location display is off, and every other row's text is split at commas
 * into trimmed search items. The removal happens with `splice` inside
 * `forEach`, so the row right after a removed one is not visited: it stays
 * unsplit and does not count towards the map placeholder.
 */
module Render {
  import opened Wrappers
  import opened Strings
  import opened Labels
  import opened Sections

  /** A piece of a rendered value: a plain value span, a search item span, or the ", " separator span. */
  datatype Piece = Plain(text: string) | Item(text: string) | Separator

  /** One table line: the row's title, its kind, its value pieces and the edit icon's id when editable. */
  datatype Line = Line(title: string, kind: Kind, pieces: seq<Piece>, editIcon: Option<string>)

  /** What a section renders to; `showsMap` is the single-photo map placeholder. */
  datatype Block =
    | DefaultBlock(title: string, showsMap: bool, lines: seq<Line>)
    | TagsBlock(title: string, value: string, editIcon: Option<string>)
    | PaletteBlock(title: string, value: string)

  /** Location display is off: globally, or in public mode unless public location display is on. */
  predicate LocationHidden(cfg: Config)
    ensures !cfg.locationShow ==> LocationHidden(cfg)
    ensures cfg.locationShow && (!cfg.publicMode || cfg.locationShowPublic) ==> !LocationHidden(cfg)
  {
    (cfg.publicMode && !cfg.locationShowPublic) || !cfg.locationShow
  }

  // ---- splitting a location value -----------------------------------------

  /** Each part with its surrounding white space removed, in order. */
  function TrimAll(parts: seq<string>): (r: seq<string>)
    ensures |r| == |parts|
    decreases |parts|
  {
    if parts == [] then [] else [Trim(parts[0])] + TrimAll(parts[1..])
  }

  lemma {:induction false} TrimAllEach(parts: seq<string>)
    ensures |TrimAll(parts)| == |parts|
    ensures forall i :: 0 <= i < |parts| ==> TrimAll(parts)[i] == Trim(parts[i])
    decreases |parts|
  {
    if parts != [] {
      TrimAllEach(parts[1..]);
      var r := TrimAll(parts);
      var head := Trim(parts[0]);
      assert r == [head] + TrimAll(parts[1..]);
      forall i | 0 <= i < |parts| ensures r[i] == Trim(parts[i]) {
        if i > 0 {
          assert r[i] == TrimAll(parts[1..])[i - 1] && parts[i] == parts[1..][i - 1];
        }
      }
    }
  }

  /** A text split at every comma, each piece trimmed. */
  function TrimmedParts(t: string): (items: seq<string>)
    ensures |items| == |SplitComma(t)| >= 1
  {
    TrimAll(SplitComma(t))
  }

  /** The split keeps one item per comma-separated piece, and no item holds a comma. */
  lemma TrimmedPartsShape(t: string)
    ensures |TrimmedParts(t)| == |SplitComma(t)| >= 1
    ensures forall i :: 0 <= i < |TrimmedParts(t)| ==> ',' !in TrimmedParts(t)[i]
  {
    var parts := SplitComma(t);
    var items := TrimmedParts(t);
    TrimAllEach(parts);
    forall i | 0 <= i < |items| ensures ',' !in items[i] {
      TrimKeepsOut(parts[i], ',');
      assert items[i] == Trim(parts[i]);
    }
  }

  /** The round trip: joining trimmed comma-free items and splitting the result gives the items back. */
  lemma TrimmedPartsOfJoin(items: seq<string>)
    requires |items| >= 1
    requires forall i :: 0 <= i < |items| ==> ',' !in items[i]
    requires forall i :: 0 <= i < |items| ==> items[i] == [] || (!IsSpace(items[i][0]) && !IsSpace(items[i][|items[i]| - 1]))
    ensures TrimmedParts(JoinComma(items)) == items
  {
    SplitJoinComma(items);
    TrimAllEach(items);
    var r := TrimAll(items);
    assert TrimmedParts(JoinComma(items)) == r;
    forall i | 0 <= i < |items| ensures r[i] == items[i] {
      TrimTrimmed(items[i]);
    }
  }

  /** A set text value becomes its trimmed comma-separated items; any other value is left alone. */
  function Explode(row: Row): (r: Row)
    ensures r.title == row.title && r.kind == row.kind && r.editable == row.editable
    ensures row.value.Str? && row.value.text != "" ==> r.value == Items(TrimmedParts(row.value.text))
    ensures !(row.value.Str? && row.value.text != "") ==> r == row
  {
    match row.value
    case Str(t) => if t == "" then row else row.(value := Items(TrimmedParts(t)))
    case _ => row
  }

  // ---- the location pass --------------------------------------------------

  /** The row is the place name and location display is off. */
  predicate Removed(row: Row, hidden: bool) {
    row.kind == Location && hidden
  }

  /**
   * The rows after the location pass: a removed row takes the next row's
   * place, which the iteration then steps over, so that next row is kept as
   * it is; every visited row that stays is exploded.
   */
  function LocationRows(rows: seq<Row>, hidden: bool): (r: seq<Row>)
    ensures |r| <= |rows|
    decreases |rows|
  {
    if rows == [] then []
    else if !Removed(rows[0], hidden) then [Explode(rows[0])] + LocationRows(rows[1..], hidden)
    else if |rows| == 1 then []
    else [rows[1]] + LocationRows(rows[2..], hidden)
  }

  lemma LocationRowsKept(first: Row, rest: seq<Row>, hidden: bool)
    requires !Removed(first, hidden)
    ensures LocationRows([first] + rest, hidden) == [Explode(first)] + LocationRows(rest, hidden)
  {
    assert ([first] + rest)[1..] == rest;
  }

  lemma SeesKept(first: Row, rest: seq<Row>, hidden: bool, kind: Kind)
    requires !Removed(first, hidden)
    ensures Sees([first] + rest, hidden, kind) == (Marks(first, kind) || Sees(rest, hidden, kind))
  {
    assert ([first] + rest)[1..] == rest;
  }

  lemma LocationRowsSkipped(first: Row, rest: seq<Row>, hidden: bool)
    requires Removed(first, hidden)
    ensures LocationRows([first] + rest, hidden) == if rest == [] then [] else [rest[0]] + LocationRows(rest[1..], hidden)
  {
    if rest != [] {
      assert ([first] + rest)[2..] == rest[1..];
    }
  }

  lemma SeesSkipped(first: Row, rest: seq<Row>, hidden: bool, kind: Kind)
    requires Removed(first, hidden)
    ensures Sees([first] + rest, hidden, kind) == (Marks(first, kind) || (rest != [] && Sees(rest[1..], hidden, kind)))
  {
    if rest != [] {
      assert ([first] + rest)[2..] == rest[1..];
    }
  }

  /** The row is of the given kind and its value is not "". */
  predicate Marks(row: Row, kind: Kind) {
    row.kind == kind && row.value != Str("")
  }

  /** Whether the location pass visits a row of the given kind with a value. */
  predicate Sees(rows: seq<Row>, hidden: bool, kind: Kind)
    decreases |rows|
  {
    if rows == [] then false
    else if Marks(rows[0], kind) then true
    else if Removed(rows[0], hidden) then |rows| > 1 && Sees(rows[2..], hidden, kind)
    else Sees(rows[1..], hidden, kind)
  }

  /**
   * The pass only reports a coordinate some row of the section carries; with
   * location display on it reports exactly those, since it then visits every row.
   */
  lemma {:induction false} SeesMarks(rows: seq<Row>, hidden: bool, kind: Kind)
    ensures Sees(rows, hidden, kind) ==> exists i :: 0 <= i < |rows| && Marks(rows[i], kind)
    ensures !hidden ==> (Sees(rows, hidden, kind) <==> exists i :: 0 <= i < |rows| && Marks(rows[i], kind))
    decreases |rows|
  {
    if rows != [] && !Marks(rows[0], kind) {
      var rest := if Removed(rows[0], hidden) && |rows| > 1 then rows[2..] else rows[1..];
      var skip := if Removed(rows[0], hidden) && |rows| > 1 then 2 else 1;
      SeesMarks(rest, hidden, kind);
      if Sees(rows, hidden, kind) {
        var i :| 0 <= i < |rest| && Marks(rest[i], kind);
        assert rows[i + skip] == rest[i];
      }
      if !hidden && exists i :: 0 <= i < |rows| && Marks(rows[i], kind) {
        var i :| 0 <= i < |rows| && Marks(rows[i], kind);
        assert i > 0 && rest[i - 1] == rows[i];
      }
    }
  }

  /** With location display on, nothing is removed and every row is exploded. */
  lemma {:induction false} LocationRowsShown(rows: seq<Row>, hidden: bool)
    requires !hidden
    ensures |LocationRows(rows, hidden)| == |rows|
    ensures forall i :: 0 <= i < |rows| ==> LocationRows(rows, hidden)[i] == Explode(rows[i])
    decreases |rows|
  {
    if rows != [] {
      LocationRowsShown(rows[1..], hidden);
    }
  }

  /** With location display off, no place-name row survives unless it directly follows another one. */
  lemma {:induction false} LocationRowsHidden(rows: seq<Row>)
    requires forall i :: 1 <= i < |rows| ==> !(rows[i - 1].kind == Location && rows[i].kind == Location)
    ensures Location !in Kinds(LocationRows(rows, true))
    decreases |rows|
  {
    if rows != [] {
      var out := LocationRows(rows, true);
      if Removed(rows[0], true) {
        if |rows| > 1 {
          var rest := rows[2..];
          forall i | 1 <= i < |rest| ensures !(rest[i - 1].kind == Location && rest[i].kind == Location) {
            assert rest[i] == rows[i + 2] && rest[i - 1] == rows[i + 1];
          }
          LocationRowsHidden(rest);
          assert rows[1].kind != Location;
          KindsAppend([rows[1]], LocationRows(rest, true));
        }
      } else {
        var rest := rows[1..];
        forall i | 1 <= i < |rest| ensures !(rest[i - 1].kind == Location && rest[i].kind == Location) {
          assert rest[i] == rows[i + 1] && rest[i - 1] == rows[i];
        }
        LocationRowsHidden(rest);
        KindsAppend([Explode(rows[0])], LocationRows(rest, true));
      }
    }
  }

  lemma KindsAppend(a: seq<Row>, b: seq<Row>)
    ensures Kinds(a + b) == Kinds(a) + Kinds(b)
  {
  }

  /**
   * The per-row pass over the location section's array. A removed row is
   * spliced out of the array being iterated, so the next row slides into the
   * visited index and is stepped over; the iteration runs for the original
   * length and does nothing at indices past the shrunken end.
   */
  method LocationPass(rows: seq<Row>, hidden: bool) returns (objs: seq<Row>, hasLatitude: bool, hasLongitude: bool)
    ensures objs == LocationRows(rows, hidden)
    ensures hasLatitude == Sees(rows, hidden, Latitude)
    ensures hasLongitude == Sees(rows, hidden, Longitude)
  {
    objs := rows;
    hasLatitude, hasLongitude := false, false;
    ghost var done: seq<Row> := [];
    ghost var j := 0;
    var k := 0;
    while k < |rows|
      invariant PassState(rows, hidden, done, j, k, hasLatitude, hasLongitude)
      invariant objs == done + rows[j..]
    {
      objs, done, j, hasLatitude, hasLongitude := PassStep(rows, hidden, objs, done, j, k, hasLatitude, hasLongitude);
      k := k + 1;
    }
  }

  /** One call of the `forEach` callback, at index `k` of the shrinking array. */
  method PassStep(rows: seq<Row>, hidden: bool, objs: seq<Row>, ghost done: seq<Row>, ghost j: int, k: nat, lat: bool, lon: bool)
    returns (objs': seq<Row>, ghost done': seq<Row>, ghost j': int, lat': bool, lon': bool)
    requires k < |rows| && PassState(rows, hidden, done, j, k, lat, lon)
    requires objs == done + rows[j..]
    ensures PassState(rows, hidden, done', j', k + 1, lat', lon')
    ensures objs' == done' + rows[j'..]
  {
    objs', done', j', lat', lon' := objs, done, j, lat, lon;
    if k < |objs| {
      var row := objs[k];
      if row.kind == Latitude && row.value != Str("") {
        lat' := true;
      }
      if row.kind == Longitude && row.value != Str("") {
        lon' := true;
      }
      if row.kind == Location && hidden {
        objs' := objs[..k] + objs[k + 1..];
        if j + 1 < |rows| {
          done' := done + [rows[j + 1]];
          j' := j + 2;
          RemovedPass(rows, hidden, objs, done, j, k, lat, lon, objs', done', j', lat', lon');
        } else {
          j' := j + 1;
          RemovedLastPass(rows, hidden, objs, done, j, k, lat, lon, objs', j', lat', lon');
        }
      } else {
        var exploded := Explode(row);
        objs' := objs[k := exploded];
        done' := done + [exploded];
        j' := j + 1;
        KeptPass(rows, hidden, objs, done, j, k, lat, lon, objs', done', j', lat', lon');
      }
    } else {
      EndPass(rows, hidden, objs, done, j, k, lat, lon, objs', done', j', lat', lon');
    }
  }

  /** The callback's effect on a kept row, on the array and on the bookkeeping. */
  lemma KeptPass(rows: seq<Row>, hidden: bool, objs: seq<Row>, done: seq<Row>, j: int, k: nat, lat: bool, lon: bool,
                 objs': seq<Row>, done': seq<Row>, j': int, lat': bool, lon': bool)
    requires PassState(rows, hidden, done, j, k, lat, lon) && objs == done + rows[j..] && k < |objs|
    requires !Removed(objs[k], hidden)
    requires objs' == objs[k := Explode(objs[k])] && done' == done + [Explode(objs[k])] && j' == j + 1
    requires lat' == (lat || Marks(objs[k], Latitude)) && lon' == (lon || Marks(objs[k], Longitude))
    ensures PassState(rows, hidden, done', j', k + 1, lat', lon') && objs' == done' + rows[j'..]
  {
    assert |done| == k && j < |rows| && objs[k] == rows[j];
    assert PassState(rows, hidden, done', j', k + 1, lat', lon') by {
      KeptStep(rows, hidden, done, j, lat, lon);
    }
    assert objs' == done' + rows[j'..] by {
      UpdateAt(done, rows[j..], Explode(rows[j]));
      assert rows[j..][1..] == rows[j + 1..];
    }
  }

  /** The callback's effect on a removed row that has a successor. */
  lemma RemovedPass(rows: seq<Row>, hidden: bool, objs: seq<Row>, done: seq<Row>, j: int, k: nat, lat: bool, lon: bool,
                    objs': seq<Row>, done': seq<Row>, j': int, lat': bool, lon': bool)
    requires PassState(rows, hidden, done, j, k, lat, lon) && objs == done + rows[j..] && k < |objs|
    requires Removed(objs[k], hidden) && j + 1 < |rows|
    requires objs' == objs[..k] + objs[k + 1..] && done' == done + [rows[j + 1]] && j' == j + 2
    requires lat' == (lat || Marks(objs[k], Latitude)) && lon' == (lon || Marks(objs[k], Longitude))
    ensures PassState(rows, hidden, done', j', k + 1, lat', lon') && objs' == done' + rows[j'..]
  {
    assert |done| == k && objs[k] == rows[j];
    assert PassState(rows, hidden, done', j', k + 1, lat', lon') by {
      RemovedStep(rows, hidden, done, j, lat, lon);
    }
    assert objs' == done + rows[j + 1..] by {
      RemoveAt(done, rows[j..]);
      assert rows[j..][1..] == rows[j + 1..];
    }
    assert done + rows[j + 1..] == done' + rows[j'..] by {
      Shift(done, rows[j + 1..], []);
      assert rows[j + 1..][1..] == rows[j + 2..];
    }
  }

  /** The callback's effect on a removed row that is the last one. */
  lemma RemovedLastPass(rows: seq<Row>, hidden: bool, objs: seq<Row>, done: seq<Row>, j: int, k: nat, lat: bool, lon: bool,
                        objs': seq<Row>, j': int, lat': bool, lon': bool)
    requires PassState(rows, hidden, done, j, k, lat, lon) && objs == done + rows[j..] && k < |objs|
    requires Removed(objs[k], hidden) && j + 1 == |rows|
    requires objs' == objs[..k] + objs[k + 1..] && j' == j + 1
    requires lat' == (lat || Marks(objs[k], Latitude)) && lon' == (lon || Marks(objs[k], Longitude))
    ensures PassState(rows, hidden, done, j', k + 1, lat', lon') && objs' == done + rows[j'..]
  {
    assert |done| == k && objs[k] == rows[j];
    RemovedLastStep(rows, hidden, done, j, lat, lon);
    RemoveAt(done, rows[j..]);
    assert rows[j..][1..] == rows[j + 1..];
  }

  /** An index past the shrunken end: the callback is not called. */
  lemma EndPass(rows: seq<Row>, hidden: bool, objs: seq<Row>, done: seq<Row>, j: int, k: nat, lat: bool, lon: bool,
                objs': seq<Row>, done': seq<Row>, j': int, lat': bool, lon': bool)
    requires PassState(rows, hidden, done, j, k, lat, lon) && objs == done + rows[j..] && |objs| <= k < |rows|
    requires objs' == objs && done' == done && j' == j && lat' == lat && lon' == lon
    ensures PassState(rows, hidden, done', j', k + 1, lat', lon') && objs' == done' + rows[j'..]
  {
    assert j == |rows|;
  }

  /**
   * The bookkeeping of the pass after `k` iterations: `done` is what the
   * array holds before position `k`, `j` is the next row of the original
   * list to visit, and the flags hold what the visited rows showed.
   */
  ghost predicate PassState(rows: seq<Row>, hidden: bool, done: seq<Row>, j: int, k: int, lat: bool, lon: bool) {
    && 0 <= k <= j <= |rows|
    && |done| <= k && (|done| < k ==> j == |rows|)
    && done + LocationRows(rows[j..], hidden) == LocationRows(rows, hidden)
    && (lat || Sees(rows[j..], hidden, Latitude)) == Sees(rows, hidden, Latitude)
    && (lon || Sees(rows[j..], hidden, Longitude)) == Sees(rows, hidden, Longitude)
  }

  lemma KeptStep(rows: seq<Row>, hidden: bool, done: seq<Row>, j: int, lat: bool, lon: bool)
    requires PassState(rows, hidden, done, j, |done|, lat, lon)
    requires j < |rows| && !Removed(rows[j], hidden)
    ensures PassState(rows, hidden, done + [Explode(rows[j])], j + 1, |done| + 1,
      lat || Marks(rows[j], Latitude), lon || Marks(rows[j], Longitude))
  {
    assert rows[j..][1..] == rows[j + 1..];
    var tail := LocationRows(rows[j + 1..], hidden);
    assert (done + [Explode(rows[j])]) + tail == done + ([Explode(rows[j])] + tail);
  }

  lemma RemovedStep(rows: seq<Row>, hidden: bool, done: seq<Row>, j: int, lat: bool, lon: bool)
    requires PassState(rows, hidden, done, j, |done|, lat, lon)
    requires j + 1 < |rows| && Removed(rows[j], hidden)
    ensures PassState(rows, hidden, done + [rows[j + 1]], j + 2, |done| + 1, lat, lon)
  {
    assert rows[j..][2..] == rows[j + 2..];
    var tail := LocationRows(rows[j + 2..], hidden);
    assert (done + [rows[j + 1]]) + tail == done + ([rows[j + 1]] + tail);
  }

  lemma RemovedLastStep(rows: seq<Row>, hidden: bool, done: seq<Row>, j: int, lat: bool, lon: bool)
    requires PassState(rows, hidden, done, j, |done|, lat, lon)
    requires j + 1 == |rows| && Removed(rows[j], hidden)
    ensures PassState(rows, hidden, done, j + 1, |done| + 1, lat, lon)
  {
    assert rows[j + 1..] == [];
  }

  /** Removing the element at index |done| of `done + rest`. */
  lemma RemoveAt<T>(done: seq<T>, rest: seq<T>)
    requires rest != []
    ensures var s := done + rest; s[..|done|] + s[|done| + 1..] == done + rest[1..]
  {
    var s := done + rest;
    assert s[..|done|] == done && s[|done| + 1..] == rest[1..];
  }

  /** Replacing the element at index |done| of `done + rest`. */
  lemma UpdateAt<T>(done: seq<T>, rest: seq<T>, e: T)
    requires rest != []
    ensures (done + rest)[|done| := e] == (done + [e]) + rest[1..]
  {
  }

  /** Moving the first element of `rest` over to `done`, on both sides of the pass's bookkeeping. */
  lemma Shift<T>(done: seq<T>, rest: seq<T>, tail: seq<T>)
    requires rest != []
    ensures (done + [rest[0]]) + rest[1..] == done + rest
    ensures (done + [rest[0]]) + tail == done + ([rest[0]] + tail)
  {
    assert rest == [rest[0]] + rest[1..];
  }

  // ---- rendering values and rows -----------------------------------------

  /** The items that are not "", in order. */
  function NonEmpty(items: seq<string>): (r: seq<string>)
    ensures |r| <= |items|
    ensures forall x :: x in r <==> x in items && x != ""
    decreases |items|
  {
    if items == [] then []
    else
      var init := items[..|items| - 1];
      var last := items[|items| - 1];
      assert items == init + [last];
      NonEmpty(init) + (if last == "" then [] else [last])
  }

  /** Item spans with a separator between each two consecutive ones, and none before the first or after the last. */
  function Separated(items: seq<string>): seq<Piece>
    decreases |items|
  {
    if items == [] then []
    else if |items| == 1 then [Item(items[0])]
    else Separated(items[..|items| - 1]) + [Separator, Item(items[|items| - 1])]
  }

  /**
   * The shape of a separated list: the items at the even positions in order,
   * the separator at exactly the odd positions, so none leads and none trails.
   */
  lemma {:induction false} SeparatedShape(items: seq<string>)
    ensures var r := Separated(items);
      && (items == [] ==> r == [])
      && (items != [] ==> |r| == 2 * |items| - 1)
      && (forall i :: 0 <= i < |items| ==> r[2 * i] == Item(items[i]))
      && (forall k :: 0 <= k < |r| ==> (r[k] == Separator <==> k % 2 == 1))
    decreases |items|
  {
    if |items| > 1 {
      var init := items[..|items| - 1];
      var last := items[|items| - 1];
      SeparatedShape(init);
      var prev := Separated(init);
      assert Separated(items) == prev + [Separator, Item(last)];
      var r := prev + [Separator, Item(last)];
      assert |prev| == 2 * |init| - 1;
      forall i | 0 <= i < |items| ensures r[2 * i] == Item(items[i]) {
        if i < |init| {
          assert r[2 * i] == prev[2 * i];
          assert init[i] == items[i];
        }
      }
      forall k | 0 <= k < |r| ensures r[k] == Separator <==> k % 2 == 1 {
        if k < |prev| {
          assert r[k] == prev[k];
        } else if k == |prev| {
          assert r[k] == Separator;
        } else {
          assert r[k] == Item(last);
        }
      }
    }
  }

  lemma NonEmptySnoc(items: seq<string>, x: string)
    ensures NonEmpty(items + [x]) == NonEmpty(items) + (if x == "" then [] else [x])
  {
    assert (items + [x])[..|items|] == items;
  }

  lemma SeparatedSnoc(items: seq<string>, x: string)
    ensures Separated(items + [x]) == (if items == [] then [Item(x)] else Separated(items) + [Separator, Item(x)])
  {
    assert (items + [x])[..|items|] == items;
  }

  /** The pieces a row's value renders to. */
  function ValuePieces(value: RowValue): (r: seq<Piece>)
    ensures !value.Items? ==> |r| == 1 && r[0].Plain?
    ensures value.Items? ==> |r| == (if NonEmpty(value.items) == [] then 0 else 2 * |NonEmpty(value.items)| - 1)
    ensures value.Items? ==> forall i :: 0 <= i < |NonEmpty(value.items)| ==> r[2 * i] == Item(NonEmpty(value.items)[i])
    ensures value.Items? ==> forall k :: 0 <= k < |r| ==> (r[k] == Separator <==> k % 2 == 1)
  {
    match value
    case Str(t) => [Plain(t)]
    case Num(n) => [Plain(NatToString(n))]
    case Items(items) => SeparatedShape(NonEmpty(items)); Separated(NonEmpty(items))
  }

  /**
   * The line a row renders to: only a row whose value is set or which is
   * editable is shown, and an editable one carries the icon `"edit_" + kind`.
   */
  function RenderRow(row: Row): (r: Option<Line>)
    ensures r.Some? <==> row.value != Str("") || row.editable
    ensures r.Some? ==> r.value.title == row.title && r.value.kind == row.kind
    ensures r.Some? ==> (r.value.editIcon.Some? <==> row.editable)
    ensures r.Some? && row.editable ==> r.value.editIcon.value == "edit_" + row.kind.Name()
  {
    if row.value == Str("") && !row.editable then None
    else Some(Line(row.title, row.kind, ValuePieces(row.value), if row.editable then Some("edit_" + row.kind.Name()) else None))
  }

  /** The lines of the rows that are shown, in order. */
  function RenderLines(rows: seq<Row>): (r: seq<Line>)
    ensures |r| <= |rows|
    ensures forall l :: l in r <==> exists i :: 0 <= i < |rows| && RenderRow(rows[i]) == Some(l)
    decreases |rows|
  {
    if rows == [] then []
    else
      var init := rows[..|rows| - 1];
      var last := rows[|rows| - 1];
      assert forall i :: 0 <= i < |init| ==> init[i] == rows[i];
      RenderLines(init) + (if RenderRow(last).Some? then [RenderRow(last).value] else [])
  }

  /** The lines of rows in two parts are the first part's lines, then the second's. */
  lemma {:induction false} RenderLinesAppend(a: seq<Row>, b: seq<Row>)
    ensures RenderLines(a + b) == RenderLines(a) + RenderLines(b)
    decreases |b|
  {
    if b == [] {
      assert a + b == a;
    } else {
      var init := b[..|b| - 1];
      assert (a + b)[..|a + b| - 1] == a + init;
      assert (a + b)[|a + b| - 1] == b[|b| - 1];
      RenderLinesAppend(a, init);
    }
  }

  /** A single row gives its own line when shown, and nothing otherwise. */
  lemma RenderLinesOne(row: Row)
    ensures RenderLines([row]) == if RenderRow(row).Some? then [RenderRow(row).value] else []
  {
    assert [row][..0] == [];
  }

  /** The lines follow the rows in order, each row giving at most its own line. */
  lemma RenderLinesCons(row: Row, rest: seq<Row>)
    ensures RenderLines([row] + rest) == (if RenderRow(row).Some? then [RenderRow(row).value] else []) + RenderLines(rest)
  {
    RenderLinesAppend([row], rest);
    RenderLinesOne(row);
  }

  /** The non-empty items of two parts are those of the first part, then those of the second. */
  lemma {:induction false} NonEmptyAppend(a: seq<string>, b: seq<string>)
    ensures NonEmpty(a + b) == NonEmpty(a) + NonEmpty(b)
    decreases |b|
  {
    if b == [] {
      assert a + b == a;
    } else {
      var init := b[..|b| - 1];
      assert (a + b)[..|a + b| - 1] == a + init;
      assert (a + b)[|a + b| - 1] == b[|b| - 1];
      NonEmptyAppend(a, init);
    }
  }

  /** The items of a list value: empty ones are skipped, the others separated. */
  method RenderItems(items: seq<string>) returns (pieces: seq<Piece>)
    ensures pieces == Separated(NonEmpty(items))
  {
    pieces := [];
    for i := 0 to |items|
      invariant pieces == Separated(NonEmpty(items[..i]))
    {
      assert items[..i + 1] == items[..i] + [items[i]];
      NonEmptySnoc(items[..i], items[i]);
      if items[i] == "" {
        assert NonEmpty(items[..i + 1]) == NonEmpty(items[..i]);
        continue;
      }
      ghost var shown := NonEmpty(items[..i]);
      SeparatedSnoc(shown, items[i]);
      assert pieces == [] <==> shown == [] by {
        if shown != [] {
          assert Separated(shown) == Separated(shown[..|shown| - 1] + [shown[|shown| - 1]]);
          SeparatedSnoc(shown[..|shown| - 1], shown[|shown| - 1]);
        }
      }
      if pieces != [] {
        pieces := pieces + [Separator];
      }
      pieces := pieces + [Item(items[i])];
      assert NonEmpty(items[..i + 1]) == shown + [items[i]];
      assert pieces == Separated(shown + [items[i]]);
    }
    assert items[..|items|] == items;
  }

  // ---- sections -----------------------------------------------------------

  /**
   * A plain section's block. For the section titled with the location label
   * the rows first go through the location pass, and the map placeholder is
   * shown when that pass saw a latitude and a longitude and the map is
   * enabled.
   */
  function DefaultBlockOf(env: Env, cfg: Config, title: string, rows: seq<Row>): (b: Block)
    ensures b.DefaultBlock? && b.title == title
    ensures title != env.locale(PHOTO_LOCATION) ==> !b.showsMap && b.lines == RenderLines(rows)
    ensures b.showsMap ==> cfg.mapDisplay
  {
    if title == env.locale(PHOTO_LOCATION) then
      var hidden := LocationHidden(cfg);
      DefaultBlock(title, Sees(rows, hidden, Latitude) && Sees(rows, hidden, Longitude) && cfg.mapDisplay,
        RenderLines(LocationRows(rows, hidden)))
    else DefaultBlock(title, false, RenderLines(rows))
  }

  /** `renderDefault`: the location pass when it applies, then a line per shown row. */
  method RenderDefault(env: Env, cfg: Config, title: string, rows: seq<Row>) returns (b: Block)
    ensures b == DefaultBlockOf(env, cfg, title, rows)
  {
    var shownRows := rows;
    var showsMap := false;
    if title == env.locale(PHOTO_LOCATION) {
      var hasLatitude, hasLongitude;
      shownRows, hasLatitude, hasLongitude := LocationPass(rows, LocationHidden(cfg));
      showsMap := hasLatitude && hasLongitude && cfg.mapDisplay;
    }
    var lines := RenderRowsOf(shownRows);
    b := DefaultBlock(title, showsMap, lines);
  }

  /** The table lines of a plain section, one per shown row. */
  method RenderRowsOf(rows: seq<Row>) returns (lines: seq<Line>)
    ensures lines == RenderLines(rows)
  {
    lines := [];
    for i := 0 to |rows|
      invariant lines == RenderLines(rows[..i])
    {
      assert rows[..i + 1][..i] == rows[..i];
      var line := RenderOneRow(rows[i]);
      if line.Some? {
        lines := lines + [line.value];
      }
    }
    assert rows[..|rows|] == rows;
  }

  /** One row's line, or nothing when its value is empty and it is not editable. */
  method RenderOneRow(row: Row) returns (line: Option<Line>)
    ensures line == RenderRow(row)
  {
    if row.value == Str("") && !row.editable {
      return None;
    }
    var pieces := [Plain("")];
    match row.value {
      case Str(t) => pieces := [Plain(t)];
      case Num(n) => pieces := [Plain(NatToString(n))];
      case Items(items) => pieces := RenderItems(items);
    }
    var icon := if row.editable then Some("edit_" + row.kind.Name()) else None;
    line := Some(Line(row.title, row.kind, pieces, icon));
  }

  /** What one section renders to: the empty object and an empty palette render nothing. */
  function SectionBlocks(env: Env, cfg: Config, s: Section): (r: seq<Block>)
    ensures |r| <= 1
    ensures r == [] <==> s.Empty? || (s.Palette? && s.value == "")
    ensures r != [] ==> r[0].title == s.title
    ensures r != [] ==> (r[0].DefaultBlock? <==> s.Default?) && (r[0].TagsBlock? <==> s.Tags?) && (r[0].PaletteBlock? <==> s.Palette?)
    ensures s.Tags? ==> r[0].value == s.value && (r[0].editIcon.Some? <==> s.editable)
    ensures s.Palette? && r != [] ==> r[0].value == s.value
  {
    match s
    case Default(title, rows) => [DefaultBlockOf(env, cfg, title, rows)]
    case Tags(title, value, editable) => [TagsBlock(title, value, if editable then Some("edit_tags") else None)]
    case Palette(title, value) => if value != "" then [PaletteBlock(title, value)] else []
    case Empty => []
  }

  /**
   * The blocks of a structure, section by section. A palette block appears
   * exactly for the palette sections whose value is not empty.
   */
  function RenderSections(env: Env, cfg: Config, sections: seq<Section>): (r: seq<Block>)
    ensures |r| <= |sections|
    ensures forall i :: 0 <= i < |sections| && sections[i].Palette? && sections[i].value != "" ==>
      PaletteBlock(sections[i].title, sections[i].value) in r
    ensures forall b :: b in r && b.PaletteBlock? ==> b.value != "" && Palette(b.title, b.value) in sections
    decreases |sections|
  {
    if sections == [] then []
    else
      var init := sections[..|sections| - 1];
      var last := sections[|sections| - 1];
      assert forall i :: 0 <= i < |init| ==> init[i] == sections[i];
      assert forall s :: s in init ==> s in sections;
      RenderSections(env, cfg, init) + SectionBlocks(env, cfg, last)
  }

  /** Rendering a structure in two parts gives the blocks of the first part, then those of the second. */
  lemma {:induction false} RenderSectionsAppend(env: Env, cfg: Config, a: seq<Section>, b: seq<Section>)
    ensures RenderSections(env, cfg, a + b) == RenderSections(env, cfg, a) + RenderSections(env, cfg, b)
    decreases |b|
  {
    if b == [] {
      assert a + b == a;
    } else {
      var init := b[..|b| - 1];
      assert (a + b)[..|a + b| - 1] == a + init;
      assert (a + b)[|a + b| - 1] == b[|b| - 1];
      RenderSectionsAppend(env, cfg, a, init);
    }
  }

  /**
   * Section by section, in order: the first section contributes its own
   * blocks (none for `{}` or an empty palette, one otherwise) ahead of the
   * rest's.
   */
  lemma RenderSectionsCons(env: Env, cfg: Config, s: Section, rest: seq<Section>)
    ensures RenderSections(env, cfg, [s] + rest) == SectionBlocks(env, cfg, s) + RenderSections(env, cfg, rest)
  {
    RenderSectionsAppend(env, cfg, [s], rest);
    RenderSectionsOne(env, cfg, s);
  }

  lemma RenderSectionsOne(env: Env, cfg: Config, s: Section)
    ensures RenderSections(env, cfg, [s]) == SectionBlocks(env, cfg, s)
  {
    var one := [s];
    assert one[..0] == [] && one[0] == s;
    assert RenderSections(env, cfg, one) == RenderSections(env, cfg, []) + SectionBlocks(env, cfg, s);
  }

  /** `sidebar.render`: `false` (None) without a structure, else the blocks of its sections in order. */
  method Render(env: Env, cfg: Config, structure: Option<seq<Section>>) returns (r: Option<seq<Block>>)
    ensures r.None? <==> structure.None?
    ensures structure.Some? ==> r.value == RenderSections(env, cfg, structure.value)
  {
    if structure.None? {
      return None;
    }
    var sections := structure.value;
    var blocks: seq<Block> := [];
    for i := 0 to |sections|
      invariant blocks == RenderSections(env, cfg, sections[..i])
    {
      assert sections[..i + 1][..i] == sections[..i];
      var more := RenderSection(env, cfg, sections[i]);
      blocks := blocks + more;
    }
    assert sections[..|sections|] == sections;
    return Some(blocks);
  }

  /** One section's blocks: `renderDefault`, `renderTags` or `renderPalette` by the section's type. */
  method RenderSection(env: Env, cfg: Config, s: Section) returns (blocks: seq<Block>)
    ensures blocks == SectionBlocks(env, cfg, s)
  {
    blocks := [];
    match s {
      case Default(title, rows) =>
        var b := RenderDefault(env, cfg, title, rows);
        blocks := [b];
      case Tags(title, value, editable) =>
        blocks := [TagsBlock(title, value, if editable then Some("edit_tags") else None)];
      case Palette(title, value) =>
        if value != "" {
          blocks := [PaletteBlock(title, value)];
        }
      case Empty =>
    }
  }

  // ---- has_location -------------------------------------------------------

  /** The section has a title and it is `title`; the empty object has none. */
  predicate TitledAs(s: Section, title: string) {
    !s.Empty? && s.title == title
  }

  /** Some section is titled `title`. */
  predicate SomeTitled(sections: seq<Section>, title: string) {
    exists i :: 0 <= i < |sections| && TitledAs(sections[i], title)
  }

  /** `sidebar.has_location`: whether some section is titled with the location label. */
  method HasLocation(env: Env, structure: Option<seq<Section>>) returns (b: bool)
    ensures b <==> structure.Some? && SomeTitled(structure.value, env.locale(PHOTO_LOCATION))
  {
    if structure.None? {
      return false;
    }
    var sections := structure.value;
    b := false;
    for i := 0 to |sections|
      invariant b <==> exists k :: 0 <= k < i && TitledAs(sections[k], env.locale(PHOTO_LOCATION))
    {
      if TitledAs(sections[i], env.locale(PHOTO_LOCATION)) {
        b := true;
      }
    }
  }
}
