/**
 The review CSV printer (scripts/import-hotelbeds/csv.ts) and the character scanner
 (scripts/photos/plan.ts): printing then scanning (section 2 of RFC 4180).
 */
module Csv {
  import opened Prelude
  import opened Sequences
  import CN = CanonicalNumeric

  // ---- The printer. ----

  /** /^[=+\-@\t\r]/ */
  predicate Guarded(raw: string) {
    raw != "" && (raw[0] == '=' || raw[0] == '+' || raw[0] == '-' || raw[0] == '@' || raw[0] == '\t' || raw[0] == '\r')
  }

  function Safe(raw: string): string { if Guarded(raw) then "'" + raw else raw }

  function Doubled(s: string): string {
    if s == "" then "" else (if s[0] == '"' then "\"\"" else [s[0]]) + Doubled(s[1..])
  }

  function CsvCell(raw: string): string { "\"" + Doubled(Safe(raw)) + "\"" }

  function Line(cells: seq<string>): string {
    if cells == [] then "" else if |cells| == 1 then CsvCell(cells[0]) else CsvCell(cells[0]) + "," + Line(cells[1..])
  }

  /** lines.join("\n") followed by a newline. */
  function JoinLines(lines: seq<string>): string {
    if lines == [] then "\n" else if |lines| == 1 then lines[0] + "\n" else lines[0] + "\n" + JoinLines(lines[1..])
  }

  function Lines(rows: seq<seq<string>>): (ls: seq<string>) { if rows == [] then [] else [Line(rows[0])] + Lines(rows[1..]) }

  function Print(rows: seq<seq<string>>): string { JoinLines(Lines(rows)) }

  const COLUMNS := [
    "hotelbeds_code", "hotelbeds_name", "category_code", "star_rating", "destination_code", "accommodation_type_code",
    "latitude", "longitude", "website", "needs_category_review", "existing_hotel_id", "existing_hotel_name",
    "existing_latitude", "existing_longitude", "distance_metres", "name_similarity"]

  datatype StarRating = Four | Five

  /** One review match; its numbers are the text String() prints for them. */
  datatype ReviewMatch = ReviewMatch(
    hotelbedsCode: string, hotelbedsName: string, categoryCode: string, starRating: StarRating,
    destinationCode: Option<string>, accommodationTypeCode: string, latitude: string, longitude: string,
    website: Option<string>, needsCategoryReview: bool, existingHotelId: string, existingHotelName: string,
    existingLatitude: string, existingLongitude: string, distanceMetres: string, nameSimilarity: string)
  {
    function Cells(): (cs: seq<string>)
      ensures |cs| == 16
    {
      [hotelbedsCode, hotelbedsName, categoryCode, if starRating.Four? then "4" else "5", destinationCode.GetOr(""),
       accommodationTypeCode, latitude, longitude, website.GetOr(""), if needsCategoryReview then "true" else "false",
       existingHotelId, existingHotelName, existingLatitude, existingLongitude, distanceMetres, nameSimilarity]
    }
  }

  function Table(matches: seq<ReviewMatch>): seq<seq<string>> { if matches == [] then [] else [matches[0].Cells()] + Table(matches[1..]) }

  lemma {:induction false} LinesAppend(rows: seq<seq<string>>, row: seq<string>)
    ensures Lines(rows + [row]) == Lines(rows) + [Line(row)]
  {
    if rows == [] {
      assert rows + [row] == [row] && [row][1..] == [];
    } else {
      assert (rows + [row])[1..] == rows[1..] + [row];
      LinesAppend(rows[1..], row);
    }
  }

  lemma {:induction false} TableAppend(matches: seq<ReviewMatch>, m: ReviewMatch)
    ensures Table(matches + [m]) == Table(matches) + [m.Cells()]
  {
    if matches == [] {
      assert matches + [m] == [m] && [m][1..] == [];
    } else {
      assert (matches + [m])[1..] == matches[1..] + [m];
      TableAppend(matches[1..], m);
    }
  }

  method RenderMatchesCsv(matches: seq<ReviewMatch>) returns (text: string)
    ensures text == Print([COLUMNS] + Table(matches))
  {
    hide Line, JoinLines, COLUMNS;
    var lines := [Line(COLUMNS)];
    assert lines == Lines([COLUMNS] + Table(matches[..0])) by {
      LinesAppend([], COLUMNS);
      assert [] + [COLUMNS] == [COLUMNS] + Table(matches[..0]);
    }
    for i := 0 to |matches|
      invariant lines == Lines([COLUMNS] + Table(matches[..i]))
    {
      assert matches[..i + 1] == matches[..i] + [matches[i]];
      TableAppend(matches[..i], matches[i]);
      LinesAppend([COLUMNS] + Table(matches[..i]), matches[i].Cells());
      assert [COLUMNS] + Table(matches[..i + 1]) == ([COLUMNS] + Table(matches[..i])) + [matches[i].Cells()];
      lines := lines + [Line(matches[i].Cells())];
    }
    assert matches[..|matches|] == matches;
    text := JoinLines(lines);
  }

  // ---- The scanner. ----

  datatype State = State(rows: seq<seq<string>>, row: seq<string>, cell: string, quoted: bool)

  const START := State([], [], "", false)

  function Scan(text: string, st: State): State
    decreases |text|
  {
    if text == "" then st
    else
      var c := text[0];
      if st.quoted then
        if c == '"' then
          if |text| > 1 && text[1] == '"' then Scan(text[2..], st.(cell := st.cell + "\""))
          else Scan(text[1..], st.(quoted := false))
        else Scan(text[1..], st.(cell := st.cell + [c]))
      else if c == '"' then Scan(text[1..], st.(quoted := true))
      else if c == ',' then Scan(text[1..], State(st.rows, st.row + [st.cell], "", false))
      else if c == '\n' then Scan(text[1..], State(st.rows + [st.row + [st.cell]], [], "", false))
      else if c != '\r' then Scan(text[1..], st.(cell := st.cell + [c]))
      else Scan(text[1..], st)
  }

  function Finish(st: State): seq<seq<string>> {
    if st.cell != "" || st.row != [] then st.rows + [st.row + [st.cell]] else st.rows
  }

  function ScanRows(text: string): seq<seq<string>> { Finish(Scan(text, START)) }

  /** The character loop with one character of lookahead. */
  method ScanText(text: string) returns (rows: seq<seq<string>>)
    ensures rows == ScanRows(text)
  {
    rows := [];
    var cell := "";
    var row: seq<string> := [];
    var quoted := false;
    var i := 0;
    assert text[0..] == text;
    while i < |text|
      invariant 0 <= i <= |text|
      invariant Scan(text[i..], State(rows, row, cell, quoted)) == Scan(text, START)
    {
      var c := text[i];
      assert text[i..][1..] == text[i + 1..];
      if quoted {
        if c == '"' {
          if i + 1 < |text| && text[i + 1] == '"' {
            assert text[i..][2..] == text[i + 2..];
            cell := cell + "\"";
            i := i + 1;
          } else {
            quoted := false;
          }
        } else {
          cell := cell + [c];
        }
      } else if c == '"' {
        quoted := true;
      } else if c == ',' {
        row := row + [cell];
        cell := "";
      } else if c == '\n' {
        row := row + [cell];
        rows := rows + [row];
        row := [];
        cell := "";
      } else if c != '\r' {
        cell := cell + [c];
      }
      i := i + 1;
    }
    if |cell| > 0 || |row| > 0 {
      row := row + [cell];
      rows := rows + [row];
    }
  }

  // ---- Printing then scanning. ----

  lemma {:induction false} QuotedReads(s: string, rest: string, st: State)
    requires st.quoted && (rest == "" || rest[0] != '"')
    ensures Scan(Doubled(s) + "\"" + rest, st) == Scan(rest, st.(cell := st.cell + s, quoted := false))
  {
    var text := Doubled(s) + "\"" + rest;
    if s == "" {
      assert text == "\"" + rest && text[1..] == rest;
      assert st.cell + s == st.cell;
    } else {
      var tail := Doubled(s[1..]) + "\"" + rest;
      var st' := st.(cell := st.cell + [s[0]]);
      QuotedReads(s[1..], rest, st');
      assert st'.cell + s[1..] == st.cell + s;
      QuotedStep(s[0], tail, st);
      assert text == (if s[0] == '"' then "\"\"" else [s[0]]) + tail;
    }
  }

  lemma QuotedStep(c: char, tail: string, st: State)
    requires st.quoted
    ensures Scan((if c == '"' then "\"\"" else [c]) + tail, st) == Scan(tail, st.(cell := st.cell + [c]))
  {
    var text := (if c == '"' then "\"\"" else [c]) + tail;
    if c == '"' {
      assert text[2..] == tail;
    } else {
      assert text[1..] == tail;
    }
  }

  lemma CellReads(raw: string, rest: string, st: State)
    requires !st.quoted && st.cell == "" && (rest == "" || rest[0] != '"')
    ensures Scan(CsvCell(raw) + rest, st) == Scan(rest, st.(cell := Safe(raw)))
  {
    hide Doubled, Safe;
    var text := CsvCell(raw) + rest;
    assert text[0] == '"' && text[1..] == Doubled(Safe(raw)) + "\"" + rest;
    QuotedReads(Safe(raw), rest, st.(quoted := true));
    assert "" + Safe(raw) == Safe(raw);
    assert Scan(text, st) == Scan(text[1..], st.(quoted := true));
  }

  lemma SeparatorReads(rest: string, st: State)
    requires !st.quoted
    ensures Scan("," + rest, st) == Scan(rest, State(st.rows, st.row + [st.cell], "", false))
    ensures Scan("\n" + rest, st) == Scan(rest, State(st.rows + [st.row + [st.cell]], [], "", false))
  {
    assert ("," + rest)[1..] == rest && ("\n" + rest)[1..] == rest;
  }

  function SafeRow(cells: seq<string>): seq<string> { Map(Safe, cells) }

  lemma {:induction false} LineReads(cells: seq<string>, rest: string, st: State)
    requires cells != [] && !st.quoted && st.cell == ""
    ensures Scan(Line(cells) + "\n" + rest, st) == Scan(rest, State(st.rows + [st.row + SafeRow(cells)], [], "", false))
    decreases |cells|
  {
    hide Scan, CsvCell, Safe;
    var text := Line(cells) + "\n" + rest;
    if |cells| == 1 {
      CellReads(cells[0], "\n" + rest, st);
      SeparatorReads(rest, st.(cell := Safe(cells[0])));
      assert text == CsvCell(cells[0]) + ("\n" + rest);
      assert SafeRow(cells) == [Safe(cells[0])];
    } else {
      var tail := Line(cells[1..]) + "\n" + rest;
      CellReads(cells[0], "," + tail, st);
      SeparatorReads(tail, st.(cell := Safe(cells[0])));
      var st' := State(st.rows, st.row + [Safe(cells[0])], "", false);
      LineReads(cells[1..], rest, st');
      assert text == CsvCell(cells[0]) + ("," + tail);
      assert SafeRow(cells) == [Safe(cells[0])] + SafeRow(cells[1..]);
      assert st'.row + SafeRow(cells[1..]) == st.row + SafeRow(cells);
    }
  }

  function SafeRows(rows: seq<seq<string>>): seq<seq<string>> { Map(SafeRow, rows) }

  lemma {:induction false} RowsRead(rows: seq<seq<string>>, done: seq<seq<string>>)
    requires rows != [] && forall r | r in rows :: r != []
    ensures Scan(Print(rows), State(done, [], "", false)) == State(done + SafeRows(rows), [], "", false)
    decreases |rows|
  {
    hide Scan, Line, SafeRow;
    var st := State(done, [], "", false);
    assert rows[0] in rows;
    var next := State(done + [SafeRow(rows[0])], [], "", false);
    assert [] + SafeRow(rows[0]) == SafeRow(rows[0]);
    assert Lines(rows)[1..] == Lines(rows[1..]);
    LinesCount(rows);
    if |rows| == 1 {
      LineReads(rows[0], "", st);
      assert Print(rows) == Line(rows[0]) + "\n" + "";
      assert Scan("", next) == next by { ScanNothing(next); }
      assert SafeRows(rows) == [SafeRow(rows[0])];
    } else {
      LineReads(rows[0], Print(rows[1..]), st);
      assert Print(rows) == Line(rows[0]) + "\n" + Print(rows[1..]);
      assert forall r | r in rows[1..] :: r in rows;
      RowsRead(rows[1..], done + [SafeRow(rows[0])]);
      assert SafeRows(rows) == [SafeRow(rows[0])] + SafeRows(rows[1..]);
      assert done + [SafeRow(rows[0])] + SafeRows(rows[1..]) == done + SafeRows(rows);
    }
  }

  lemma ScanNothing(st: State)
    ensures Scan("", st) == st
  {
  }

  lemma {:induction false} LinesCount(rows: seq<seq<string>>)
    ensures |Lines(rows)| == |rows|
  {
    hide Line;
    if rows != [] {
      LinesCount(rows[1..]);
    }
  }

  /** Whatever the cells hold (quotes, commas, CR, LF), the scanner gives back the printed matrix, guard included. */
  lemma PrintThenScan(rows: seq<seq<string>>)
    requires rows != [] && forall r | r in rows :: r != []
    ensures ScanRows(Print(rows)) == SafeRows(rows)
  {
    hide Scan, Print;
    RowsRead(rows, []);
    assert [] + SafeRows(rows) == SafeRows(rows);
  }

  /** The matrix comes back unchanged iff no cell begins with a character the printer guards. */
  lemma PrintThenScanIsExactIff(rows: seq<seq<string>>)
    requires rows != [] && forall r | r in rows :: r != []
    ensures ScanRows(Print(rows)) == rows <==> forall r, c | r in rows && c in r :: !Guarded(c)
  {
    hide ScanRows, Print, Guarded;
    PrintThenScan(rows);
    forall r | r in rows ensures SafeRow(r) == r <==> forall c | c in r :: !Guarded(c) {
      RowIsExactIff(r);
    }
    assert SafeRows(rows) == rows <==> forall i | 0 <= i < |rows| :: SafeRow(rows[i]) == rows[i];
  }

  lemma RowIsExactIff(r: seq<string>)
    ensures SafeRow(r) == r <==> forall c | c in r :: !Guarded(c)
  {
    assert SafeRow(r) == r <==> forall i | 0 <= i < |r| :: Safe(r[i]) == r[i];
    forall c ensures Safe(c) == c <==> !Guarded(c) {
      assert |"'" + c| == |c| + 1;
    }
  }

  // ---- Records. ----

  predicate BlankRow(values: seq<string>) { forall v | v in values :: CN.Trim(v) == "" }

  /** record[key] = value for each named column in turn, so a repeated name keeps its last column. */
  function Record(header: seq<string>, values: seq<string>): map<string, string> {
    if header == [] then map[]
    else
      var n := |header| - 1;
      var earlier := Record(header[..n], values);
      if header[n] == "" then earlier
      else earlier[header[n] := CN.Trim(if n < |values| then values[n] else "")]
  }

  function ParseCsv(text: string): seq<map<string, string>> {
    var rows := ScanRows(text);
    if rows == [] then []
    else
      var header := Map(CN.Trim, rows[0]);
      Map((values: seq<string>) => Record(header, values), Filter((values: seq<string>) => !BlankRow(values), rows[1..]))
  }

  lemma {:induction false} RecordAt(header: seq<string>, values: seq<string>, j: nat)
    requires j < |header| && header[j] != ""
    requires forall a, b | 0 <= a < b < |header| :: header[a] != header[b]
    ensures header[j] in Record(header, values)
    ensures Record(header, values)[header[j]] == CN.Trim(if j < |values| then values[j] else "")
  {
    hide CN.Trim;
    if j < |header| - 1 {
      RecordAt(header[..|header| - 1], values, j);
    }
  }

  lemma {:induction false} TableRows(matches: seq<ReviewMatch>)
    ensures |Table(matches)| == |matches|
    ensures forall i | 0 <= i < |matches| :: Table(matches)[i] == matches[i].Cells()
  {
    if matches != [] {
      TableRows(matches[1..]);
    }
  }

  /** A match always prints a flag, so its row is never blank. */
  lemma MatchIsNotBlank(m: ReviewMatch)
    ensures !BlankRow(SafeRow(m.Cells()))
  {
    hide CN.Trim, Guarded;
    var flag := m.Cells()[9];
    assert flag == "true" || flag == "false";
    LetterEndsAreKept(flag);
    assert SafeRow(m.Cells())[9] == flag && flag in SafeRow(m.Cells());
  }

  predicate LetterEnds(c: string) { c != "" && 'a' <= c[0] <= 'z' && 'a' <= c[|c| - 1] <= 'z' }

  lemma ColumnsEndInLetters()
    ensures |COLUMNS| == 16 && forall i | 0 <= i < |COLUMNS| :: LetterEnds(COLUMNS[i])
  {
  }

  lemma LetterEndsAreKept(c: string)
    requires LetterEnds(c)
    ensures !Guarded(c) && CN.Trim(c) == c
  {
    hide CN.Trim;
    CN.NotTrimmed(c);
  }

  lemma ColumnsAreUnchanged()
    ensures SafeRow(COLUMNS) == COLUMNS && |COLUMNS| == 16
    ensures Map(CN.Trim, COLUMNS) == COLUMNS
  {
    hide SafeRow, CN.Trim, COLUMNS, Guarded, LetterEnds;
    ColumnsEndInLetters();
    RowIsExactIff(COLUMNS);
    forall i | 0 <= i < |COLUMNS| ensures CN.Trim(COLUMNS[i]) == COLUMNS[i] && !Guarded(COLUMNS[i]) {
      LetterEndsAreKept(COLUMNS[i]);
    }
  }

  lemma ColumnsDiffer()
    ensures forall a, b | 0 <= a < b < |COLUMNS| :: COLUMNS[a] != COLUMNS[b]
    ensures forall a | 0 <= a < |COLUMNS| :: COLUMNS[a] != ""
  {
  }

  /** What the scanner reads of a printed cell: blanks trimmed, a formula start disarmed. */
  function Shown(raw: string): string { CN.Trim(Safe(raw)) }

  predicate Holds(record: map<string, string>, column: string, value: string) { column in record && record[column] == value }

  /** The record of a match, column by column under the file's own names. */
  predicate RecordOf(record: map<string, string>, m: ReviewMatch) {
    && record.Keys == (set c | c in COLUMNS)
    && Holds(record, "hotelbeds_code", Shown(m.hotelbedsCode)) && Holds(record, "hotelbeds_name", Shown(m.hotelbedsName))
    && Holds(record, "category_code", Shown(m.categoryCode))
    && Holds(record, "star_rating", if m.starRating.Four? then "4" else "5")
    && Holds(record, "destination_code", Shown(m.destinationCode.GetOr("")))
    && Holds(record, "accommodation_type_code", Shown(m.accommodationTypeCode))
    && Holds(record, "latitude", Shown(m.latitude)) && Holds(record, "longitude", Shown(m.longitude))
    && Holds(record, "website", Shown(m.website.GetOr("")))
    && Holds(record, "needs_category_review", if m.needsCategoryReview then "true" else "false")
    && Holds(record, "existing_hotel_id", Shown(m.existingHotelId))
    && Holds(record, "existing_hotel_name", Shown(m.existingHotelName))
    && Holds(record, "existing_latitude", Shown(m.existingLatitude))
    && Holds(record, "existing_longitude", Shown(m.existingLongitude))
    && Holds(record, "distance_metres", Shown(m.distanceMetres)) && Holds(record, "name_similarity", Shown(m.nameSimilarity))
  }

  /** Reading the review file back: one record per match, in order, each field under its own column. */
  lemma ReviewFileReadsBack(matches: seq<ReviewMatch>)
    ensures var records := ParseCsv(Print([COLUMNS] + Table(matches)));
      |records| == |matches| && forall i | 0 <= i < |matches| :: RecordOf(records[i], matches[i])
  {
    hide ScanRows, Print, COLUMNS, CN.Trim, BlankRow, SafeRow, Record, RecordOf;
    ColumnsAreUnchanged();
    TableRows(matches);
    var rows := [COLUMNS] + Table(matches);
    PrintThenScan(rows);
    assert SafeRows(rows) == [SafeRow(COLUMNS)] + SafeRows(Table(matches));
    var cells := SafeRows(Table(matches));
    forall r | r in cells ensures !BlankRow(r) {
      var i :| 0 <= i < |cells| && cells[i] == r;
      MatchIsNotBlank(matches[i]);
    }
    FilterAll((values: seq<string>) => !BlankRow(values), cells);
    forall i | 0 <= i < |matches| ensures RecordOf(Record(COLUMNS, cells[i]), matches[i]) {
      RecordIsNamed(matches[i]);
    }
  }

  lemma {:induction false} FilterAll<T(!new)>(keep: T -> bool, xs: seq<T>)
    requires forall x | x in xs :: keep(x)
    ensures Filter(keep, xs) == xs
  {
    if xs != [] {
      FilterAll(keep, xs[1..]);
    }
  }

  lemma RecordCell(m: ReviewMatch, j: nat, column: string)
    requires j < |COLUMNS| && COLUMNS[j] == column && j < 16
    ensures Holds(Record(COLUMNS, SafeRow(m.Cells())), column, Shown(m.Cells()[j]))
  {
    hide CN.Trim, COLUMNS, Safe;
    ColumnsDiffer();
    RecordAt(COLUMNS, SafeRow(m.Cells()), j);
  }

  lemma {:induction false} RecordKeys(header: seq<string>, values: seq<string>)
    requires forall h | h in header :: h != ""
    ensures Record(header, values).Keys == set c | c in header
  {
    if header != [] {
      var n := |header| - 1;
      assert header == header[..n] + [header[n]] && forall h | h in header[..n] :: h in header;
      RecordKeys(header[..n], values);
    }
  }

  lemma ShortTextShown(s: string)
    requires s == "4" || s == "5" || s == "true" || s == "false"
    ensures Shown(s) == s
  {
    hide CN.Trim;
    CN.NotTrimmed(s);
  }

  lemma ColumnNames()
    ensures |COLUMNS| == 16
    ensures COLUMNS[0] == "hotelbeds_code" && COLUMNS[1] == "hotelbeds_name" && COLUMNS[2] == "category_code"
    ensures COLUMNS[3] == "star_rating" && COLUMNS[4] == "destination_code" && COLUMNS[5] == "accommodation_type_code"
    ensures COLUMNS[6] == "latitude" && COLUMNS[7] == "longitude" && COLUMNS[8] == "website"
    ensures COLUMNS[9] == "needs_category_review" && COLUMNS[10] == "existing_hotel_id"
    ensures COLUMNS[11] == "existing_hotel_name" && COLUMNS[12] == "existing_latitude"
    ensures COLUMNS[13] == "existing_longitude" && COLUMNS[14] == "distance_metres" && COLUMNS[15] == "name_similarity"
  {
  }

  lemma RecordIsNamed(m: ReviewMatch)
    ensures RecordOf(Record(COLUMNS, SafeRow(m.Cells())), m)
  {
    hide Shown, Record, SafeRow, COLUMNS, Holds;
    ColumnNames();
    ColumnsDiffer();
    RecordKeys(COLUMNS, SafeRow(m.Cells()));
    ShortTextShown(m.Cells()[3]);
    ShortTextShown(m.Cells()[9]);
    RecordCell(m, 0, "hotelbeds_code");
    RecordCell(m, 1, "hotelbeds_name");
    RecordCell(m, 2, "category_code");
    RecordCell(m, 3, "star_rating");
    RecordCell(m, 4, "destination_code");
    RecordCell(m, 5, "accommodation_type_code");
    RecordCell(m, 6, "latitude");
    RecordCell(m, 7, "longitude");
    RecordCell(m, 8, "website");
    RecordCell(m, 9, "needs_category_review");
    RecordCell(m, 10, "existing_hotel_id");
    RecordCell(m, 11, "existing_hotel_name");
    RecordCell(m, 12, "existing_latitude");
    RecordCell(m, 13, "existing_longitude");
    RecordCell(m, 14, "distance_metres");
    RecordCell(m, 15, "name_similarity");
  }

  // ---- A spreadsheet never sees a formula. ----

  const FORMULA_STARTS := {'=', '+', '-', '@', '\t', '\r'}

  /** Every cell read back is the value it was printed from, behind an apostrophe exactly when that value starts like a formula. */
  lemma PrintedCellsAreInert(rows: seq<seq<string>>, i: nat, j: nat)
    requires rows != [] && (forall r | r in rows :: r != []) && i < |rows| && j < |rows[i]|
    ensures var read, raw := ScanRows(Print(rows)), rows[i][j];
      && |read| == |rows| && |read[i]| == |rows[i]|
      && (read[i][j] == "" || read[i][j][0] !in FORMULA_STARTS)
      && read[i][j] == if raw != "" && raw[0] in FORMULA_STARTS then "'" + raw else raw
  {
    hide ScanRows, Print;
    PrintThenScan(rows);
  }
}
