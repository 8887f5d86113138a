/**
 The CSV export of the club's members, proved inverse to a reader of section 2 of RFC 4180 that ends records only at
 CRLF: whatever the cells hold, reading the file after its byte order mark gives back exactly the table.
 */
module Csv {
  import opened Common

  const BOM: char := '\U{FEFF}'
  const CRLF: string := "\r\n"

  // ---------------------------------------------------------------------
  // The printer
  // ---------------------------------------------------------------------

  predicate NeedsQuotes(cell: string) { '"' in cell || ',' in cell || '\n' in cell }

  /** Every quote doubled. */
  function Doubled(cell: string): string {
    if cell == "" then "" else (if cell[0] == '"' then "\"\"" else [cell[0]]) + Doubled(cell[1..])
  }

  function EscapeCsvCell(cell: string): string {
    if NeedsQuotes(cell) then "\"" + Doubled(cell) + "\"" else cell
  }

  function JoinCells(cells: seq<string>): string {
    if cells == [] then ""
    else if |cells| == 1 then EscapeCsvCell(cells[0])
    else EscapeCsvCell(cells[0]) + "," + JoinCells(cells[1..])
  }

  function JoinRows(rows: seq<seq<string>>): string {
    if rows == [] then ""
    else if |rows| == 1 then JoinCells(rows[0])
    else JoinCells(rows[0]) + CRLF + JoinRows(rows[1..])
  }

  /** A member as text; numbers and the birth date in their printed form. */
  datatype Member = Member(
    playerId: string, fullName: string, category: Option<string>, gender: Option<string>, points: Option<string>,
    clubName: Option<string>, ageCategory: Option<string>, nationality: Option<string>, email: Option<string>,
    phone: Option<string>, birthdate: Option<string>, town: Option<string>, address: Option<string>,
    zip: Option<string>)

  const HEADERS: seq<string> := [
    "N\U{B0} AFPadel", "Nom", "Cat\U{E9}gorie", "Sexe", "Points",
    "Club", "\U{C2}ge/cat\U{E9}gorie", "Nationalit\U{E9}", "Email",
    "T\U{E9}l\U{E9}phone", "Date de naissance", "Ville", "Adresse", "Code postal"]

  function OrEmpty(v: Option<string>): string { if v.Some? then v.value else "" }

  function Cells(m: Member): seq<string> {
    [m.playerId, m.fullName, OrEmpty(m.category), OrEmpty(m.gender), OrEmpty(m.points),
     OrEmpty(m.clubName), OrEmpty(m.ageCategory), OrEmpty(m.nationality), OrEmpty(m.email),
     OrEmpty(m.phone), OrEmpty(m.birthdate), OrEmpty(m.town), OrEmpty(m.address), OrEmpty(m.zip)]
  }

  function Table(members: seq<Member>): seq<seq<string>> {
    [HEADERS] + seq(|members|, k requires 0 <= k < |members| => Cells(members[k]))
  }

  function BuildAfpMembersCsv(members: seq<Member>): string { [BOM] + JoinRows(Table(members)) }

  // ---------------------------------------------------------------------
  // The reader
  // ---------------------------------------------------------------------

  predicate AtCrlf(text: string) { |text| >= 2 && text[0] == '\r' && text[1] == '\n' }

  /** A field without quotes runs up to a comma, a CRLF or the end; it may not contain a quote. */
  function ReadPlain(text: string): (r: Option<(string, string)>)
    ensures r.Some? ==> |r.value.1| <= |text|
  {
    if text == "" || text[0] == ',' || AtCrlf(text) then Some(("", text))
    else if text[0] == '"' then None
    else
      var r := ReadPlain(text[1..]);
      if r.None? then None else Some(([text[0]] + r.value.0, r.value.1))
  }

  /** After the opening quote: a doubled quote is a quote, a single one ends the field. */
  function ReadQuoted(text: string): (r: Option<(string, string)>)
    ensures r.Some? ==> |r.value.1| < |text|
  {
    if text == "" then None
    else if text[0] == '"' && !(|text| >= 2 && text[1] == '"') then Some(("", text[1..]))
    else
      var step := if text[0] == '"' then 2 else 1;
      var r := ReadQuoted(text[step..]);
      if r.None? then None else Some(([text[0]] + r.value.0, r.value.1))
  }

  function ReadField(text: string): (r: Option<(string, string)>)
    ensures r.Some? ==> |r.value.1| <= |text|
  {
    if text != "" && text[0] == '"' then ReadQuoted(text[1..]) else ReadPlain(text)
  }

  /** Fields separated by commas, up to a CRLF or the end. */
  function ReadRecord(text: string): (r: Option<(seq<string>, string)>)
    ensures r.Some? ==> |r.value.1| <= |text| && (r.value.1 == "" || AtCrlf(r.value.1))
    decreases |text|
  {
    var f := ReadField(text);
    if f.None? then None
    else
      var (cell, rest) := f.value;
      if rest == "" || AtCrlf(rest) then Some(([cell], rest))
      else if rest[0] == ',' then
        var r := ReadRecord(rest[1..]);
        if r.None? then None else Some(([cell] + r.value.0, r.value.1))
      else None
  }

  /** Records ended by CRLF, which is optional after the last one. */
  function ReadFile(text: string): Option<seq<seq<string>>>
    decreases |text|
  {
    var r := ReadRecord(text);
    if r.None? then None
    else
      var (cells, rest) := r.value;
      if rest == "" || rest[2..] == "" then Some([cells])
      else
        var more := ReadFile(rest[2..]);
        if more.None? then None else Some([cells] + more.value)
  }

  // ---------------------------------------------------------------------
  // Reading what was printed
  // ---------------------------------------------------------------------

  predicate Ends(rest: string) { rest == "" || rest[0] == ',' || AtCrlf(rest) }

  lemma {:induction false} PlainRoundTrip(cell: string, rest: string)
    requires !NeedsQuotes(cell) && Ends(rest)
    ensures ReadPlain(cell + rest) == Some((cell, rest))
  {
    var text := cell + rest;
    if cell == "" {
      assert text == rest;
    } else {
      assert text[1..] == cell[1..] + rest;
      PlainRoundTrip(cell[1..], rest);
      assert cell[0] in cell;
      if |cell| > 1 { assert cell[1] in cell; }
      assert !AtCrlf(text);
      assert [cell[0]] + cell[1..] == cell;
    }
  }

  lemma {:induction false} ReadOneQuote(tail: string, cell: string, rest: string)
    requires ReadQuoted(tail) == Some((cell, rest))
    ensures ReadQuoted("\"\"" + tail) == Some((['"'] + cell, rest))
  {
    assert ("\"\"" + tail)[2..] == tail;
  }

  lemma {:induction false} ReadOneChar(c: char, tail: string, cell: string, rest: string)
    requires c != '"' && ReadQuoted(tail) == Some((cell, rest))
    ensures ReadQuoted([c] + tail) == Some(([c] + cell, rest))
  {
    assert ([c] + tail)[1..] == tail;
  }

  lemma {:induction false} ReadClosingQuote(rest: string)
    requires rest == "" || rest[0] != '"'
    ensures ReadQuoted("\"" + rest) == Some(("", rest))
  {
    assert ("\"" + rest)[1..] == rest;
  }

  lemma {:induction false} QuotedRoundTrip(cell: string, rest: string)
    requires rest == "" || rest[0] != '"'
    ensures ReadQuoted(Doubled(cell) + "\"" + rest) == Some((cell, rest))
  {
    hide ReadQuoted;
    var text := Doubled(cell) + "\"" + rest;
    if cell == "" {
      assert text == "\"" + rest;
      ReadClosingQuote(rest);
    } else {
      QuotedRoundTrip(cell[1..], rest);
      var tail := Doubled(cell[1..]) + "\"" + rest;
      if cell[0] == '"' {
        assert text == "\"\"" + tail;
        ReadOneQuote(tail, cell[1..], rest);
      } else {
        assert text == [cell[0]] + tail;
        ReadOneChar(cell[0], tail, cell[1..], rest);
      }
      assert [cell[0]] + cell[1..] == cell;
    }
  }

  lemma {:induction false} FieldRoundTrip(cell: string, rest: string)
    requires Ends(rest)
    ensures ReadField(EscapeCsvCell(cell) + rest) == Some((cell, rest))
  {
    hide ReadPlain, ReadQuoted, Doubled;
    var text := EscapeCsvCell(cell) + rest;
    if NeedsQuotes(cell) {
      QuotedRoundTrip(cell, rest);
      assert text[1..] == Doubled(cell) + "\"" + rest;
    } else {
      PlainRoundTrip(cell, rest);
      if cell != "" { assert cell[0] in cell; }
    }
  }

  lemma {:induction false} RecordRoundTrip(cells: seq<string>, rest: string)
    requires cells != [] && (rest == "" || AtCrlf(rest))
    ensures ReadRecord(JoinCells(cells) + rest) == Some((cells, rest))
  {
    hide ReadField, EscapeCsvCell;
    if |cells| == 1 {
      FieldRoundTrip(cells[0], rest);
      assert [cells[0]] == cells;
    } else {
      var tail := "," + JoinCells(cells[1..]) + rest;
      assert JoinCells(cells) + rest == EscapeCsvCell(cells[0]) + tail;
      FieldRoundTrip(cells[0], tail);
      assert tail[1..] == JoinCells(cells[1..]) + rest;
      RecordRoundTrip(cells[1..], rest);
      assert [cells[0]] + cells[1..] == cells;
    }
  }

  lemma {:induction false} RowIsNotEmpty(cells: seq<string>)
    requires |cells| >= 2
    ensures JoinCells(cells) != ""
  {
  }

  lemma {:induction false} ReadLast(text: string, cells: seq<string>)
    requires ReadRecord(text) == Some((cells, ""))
    ensures ReadFile(text) == Some([cells])
  {
    hide ReadRecord;
  }

  lemma {:induction false} ReadMore(text: string, cells: seq<string>, next: string, more: seq<seq<string>>)
    requires next != "" && ReadRecord(text) == Some((cells, CRLF + next)) && ReadFile(next) == Some(more)
    ensures ReadFile(text) == Some([cells] + more)
  {
    hide ReadRecord;
    assert (CRLF + next)[2..] == next;
  }

  lemma {:induction false} RowsNotEmpty(rows: seq<seq<string>>)
    requires rows != [] && |rows[0]| >= 2
    ensures JoinRows(rows) != ""
  {
    RowIsNotEmpty(rows[0]);
  }

  /** Every table whose rows have at least two cells is read back exactly, whatever the cells hold. */
  lemma {:induction false} TableRoundTrip(rows: seq<seq<string>>)
    requires rows != [] && forall k :: 0 <= k < |rows| ==> |rows[k]| >= 2
    ensures ReadFile(JoinRows(rows)) == Some(rows)
  {
    hide ReadRecord, JoinCells, ReadFile;
    var first := JoinCells(rows[0]);
    if |rows| == 1 {
      assert first + "" == first;
      RecordRoundTrip(rows[0], "");
      ReadLast(first, rows[0]);
      assert [rows[0]] == rows;
    } else {
      var next := JoinRows(rows[1..]);
      assert JoinRows(rows) == first + (CRLF + next);
      RecordRoundTrip(rows[0], CRLF + next);
      RowsNotEmpty(rows[1..]);
      TableRoundTrip(rows[1..]);
      ReadMore(JoinRows(rows), rows[0], next, rows[1..]);
      assert [rows[0]] + rows[1..] == rows;
    }
  }

  /** Column `c` carries this header and, in the row of a member, this value. */
  predicate Paired(headers: seq<string>, row: seq<string>, c: nat, header: string, value: string) {
    c < |headers| && c < |row| && headers[c] == header && row[c] == value
  }

  /** Each of the fourteen columns pairs a header with what it is about; a missing value is an empty cell. */
  predicate RowShows(headers: seq<string>, row: seq<string>, m: Member) {
    && |headers| == 14 && |row| == 14
    && Paired(headers, row, 0, "N\U{B0} AFPadel", m.playerId) && Paired(headers, row, 1, "Nom", m.fullName)
    && Paired(headers, row, 2, "Cat\U{E9}gorie", OrEmpty(m.category))
    && Paired(headers, row, 3, "Sexe", OrEmpty(m.gender)) && Paired(headers, row, 4, "Points", OrEmpty(m.points))
    && Paired(headers, row, 5, "Club", OrEmpty(m.clubName))
    && Paired(headers, row, 6, "\U{C2}ge/cat\U{E9}gorie", OrEmpty(m.ageCategory))
    && Paired(headers, row, 7, "Nationalit\U{E9}", OrEmpty(m.nationality))
    && Paired(headers, row, 8, "Email", OrEmpty(m.email))
    && Paired(headers, row, 9, "T\U{E9}l\U{E9}phone", OrEmpty(m.phone))
    && Paired(headers, row, 10, "Date de naissance", OrEmpty(m.birthdate))
    && Paired(headers, row, 11, "Ville", OrEmpty(m.town)) && Paired(headers, row, 12, "Adresse", OrEmpty(m.address))
    && Paired(headers, row, 13, "Code postal", OrEmpty(m.zip))
  }

  /** A row of headers and one row per member, in their order. */
  predicate Shows(table: seq<seq<string>>, members: seq<Member>) {
    |table| == |members| + 1 && forall k :: 0 <= k < |members| ==> RowShows(table[0], table[k + 1], members[k])
  }

  /** The same in every column. */
  predicate Alike(x: Member, y: Member) {
    && x.playerId == y.playerId && x.fullName == y.fullName && OrEmpty(x.category) == OrEmpty(y.category)
    && OrEmpty(x.gender) == OrEmpty(y.gender) && OrEmpty(x.points) == OrEmpty(y.points)
    && OrEmpty(x.clubName) == OrEmpty(y.clubName) && OrEmpty(x.ageCategory) == OrEmpty(y.ageCategory)
    && OrEmpty(x.nationality) == OrEmpty(y.nationality) && OrEmpty(x.email) == OrEmpty(y.email)
    && OrEmpty(x.phone) == OrEmpty(y.phone) && OrEmpty(x.birthdate) == OrEmpty(y.birthdate)
    && OrEmpty(x.town) == OrEmpty(y.town) && OrEmpty(x.address) == OrEmpty(y.address)
    && OrEmpty(x.zip) == OrEmpty(y.zip)
  }

  lemma {:induction false} CellsShow(m: Member)
    ensures RowShows(HEADERS, Cells(m), m)
  {
  }

  lemma {:induction false} TableShows(members: seq<Member>)
    ensures Shows(Table(members), members)
  {
    hide RowShows, Cells;
    forall k | 0 <= k < |members| ensures RowShows(HEADERS, Cells(members[k]), members[k]) { CellsShow(members[k]); }
  }

  lemma {:induction false} SameRowAlike(headers: seq<string>, row: seq<string>, x: Member, y: Member)
    requires RowShows(headers, row, x) && RowShows(headers, row, y)
    ensures Alike(x, y)
  {
  }

  /** The export starts with the byte order mark, and behind it the reader finds the headers and every member. */
  lemma {:induction false} ExportRoundTrip(members: seq<Member>)
    ensures var text := BuildAfpMembersCsv(members);
            && text != "" && text[0] == BOM
            && ReadFile(text[1..]) == Some(Table(members)) && Shows(Table(members), members)
  {
    hide ReadFile, JoinRows, Shows;
    TableRoundTrip(Table(members));
    TableShows(members);
    assert BuildAfpMembersCsv(members)[1..] == JoinRows(Table(members));
  }

  /** Two exports are only the same text when they show the same, member by member and column by column. */
  lemma {:induction false} ExportIsInjective(a: seq<Member>, b: seq<Member>)
    requires BuildAfpMembersCsv(a) == BuildAfpMembersCsv(b)
    ensures |a| == |b| && forall k :: 0 <= k < |a| ==> Alike(a[k], b[k])
  {
    hide ReadFile, JoinRows, BuildAfpMembersCsv, Table, RowShows, Alike;
    ExportRoundTrip(a);
    ExportRoundTrip(b);
    forall k | 0 <= k < |a| ensures Alike(a[k], b[k]) {
      SameRowAlike(Table(a)[0], Table(a)[k + 1], a[k], b[k]);
    }
  }

  // ---------------------------------------------------------------------
  // Against the grammar of RFC 4180
  // ---------------------------------------------------------------------

  /** TEXTDATA of section 2: printable ASCII except the quote and the comma. */
  predicate TextData(c: char) { ' ' <= c <= '!' || '#' <= c <= '+' || '-' <= c <= '~' }

  predicate Structural(c: char) { c == '"' || c == ',' || c == '\r' || c == '\n' }

  /** A field without quotes, over a character set `text`. */
  predicate NonEscaped(text: char -> bool, field: string) { forall c :: c in field ==> text(c) }

  /** Between the quotes of an escaped field: text, commas and line ends, and quotes only in pairs. */
  predicate Inside(text: char -> bool, s: string) {
    if s == "" then true
    else if s[0] == '"' then |s| >= 2 && s[1] == '"' && Inside(text, s[2..])
    else (text(s[0]) || Structural(s[0])) && Inside(text, s[1..])
  }

  predicate Escaped(text: char -> bool, field: string) {
    |field| >= 2 && field[0] == '"' && field[|field| - 1] == '"' && Inside(text, field[1..|field| - 1])
  }

  predicate HasMark(cell: string) { exists c :: c in cell && (c == '"' || c == ',' || c == '\n') }

  /** A cell is printed as it is exactly when it has none of the three marks. */
  lemma {:induction false} PrintedAsItIs(cell: string)
    ensures EscapeCsvCell(cell) == cell <==> !HasMark(cell)
  {
    DoubledGrows(cell);
  }

  lemma {:induction false} DoubledGrows(cell: string)
    ensures |Doubled(cell)| >= |cell|
  {
    if cell != "" { DoubledGrows(cell[1..]); }
  }

  lemma {:induction false} DoubledIsInside(text: char -> bool, cell: string)
    requires !text('"')
    ensures Inside(text, Doubled(cell)) <==> forall c :: c in cell ==> text(c) || Structural(c)
  {
    if cell != "" {
      DoubledIsInside(text, cell[1..]);
      var rest := Doubled(cell[1..]);
      assert cell == [cell[0]] + cell[1..];
      if cell[0] == '"' {
        assert Doubled(cell) == "\"\"" + rest && Doubled(cell)[2..] == rest;
      } else {
        assert Doubled(cell) == [cell[0]] + rest && Doubled(cell)[1..] == rest;
      }
    }
  }

  /**
   A printed cell is a field of the grammar, over TEXTDATA or any other character set without the four structural
   characters, exactly when its characters are of that set or structural, and a carriage return comes with a quote, a
   comma or a line feed, which get it quoted.
   */
  lemma {:induction false} ConformsExactly(text: char -> bool, cell: string)
    requires forall c :: text(c) ==> !Structural(c)
    ensures NonEscaped(text, EscapeCsvCell(cell)) || Escaped(text, EscapeCsvCell(cell))
            <==> (forall c :: c in cell ==> text(c) || Structural(c)) && ('\r' !in cell || HasMark(cell))
  {
    hide Doubled, Inside;
    var field := EscapeCsvCell(cell);
    if NeedsQuotes(cell) {
      DoubledIsInside(text, cell);
      assert field[0] in field && field[1..|field| - 1] == Doubled(cell);
    } else if |cell| >= 2 {
      assert cell[0] in cell;
    }
  }

  /** The grammar to the letter. */
  lemma {:induction false} ConformsToRfc4180(cell: string)
    ensures NonEscaped(TextData, EscapeCsvCell(cell)) || Escaped(TextData, EscapeCsvCell(cell))
            <==> (forall c :: c in cell ==> TextData(c) || Structural(c)) && ('\r' !in cell || HasMark(cell))
  {
    hide HasMark, Doubled, Inside, EscapeCsvCell;
    ConformsExactly(TextData, cell);
  }
}
