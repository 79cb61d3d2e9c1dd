/**
 The two ways to hand rows to the database: CSV text for COPY, and numbered parameters for VALUES. A row is the list of
 its column texts as the code prints them, None for NULL; both ways leave it to the database to read a column's text.
 */
module CopyFormat {
  import opened Wrappers

  type Row = seq<Option<string>>

  const COLUMNS: nat := 11

  // ------------------------------------------------------------------ VALUES

  /** The placeholders of one row, `$start` to `$start + 10`. */
  method RowPlaceholders(start: nat) returns (ps: seq<nat>)
    ensures |ps| == COLUMNS && forall j :: 0 <= j < COLUMNS ==> ps[j] == start + j
  {
    ps := [];
    for j := 0 to COLUMNS
      invariant |ps| == j && forall k :: 0 <= k < j ==> ps[k] == start + k
    {
      ps := ps + [start + j];
    }
  }

  /**
   The statement for one batch: placeholder lists row by row, and the bound values in order. The placeholder of row
   `i`, column `j` is 11 * i + j + 1 and is bound to exactly that column; a batch of 5000 stays below 65535.
   */
  method BuildValues(rows: seq<Row>) returns (placeholders: seq<seq<nat>>, binds: seq<Option<string>>)
    requires forall i :: 0 <= i < |rows| ==> |rows[i]| == COLUMNS
    ensures |placeholders| == |rows| && |binds| == 11 * |rows|
    ensures forall i :: 0 <= i < |rows| ==> |placeholders[i]| == COLUMNS
    ensures forall i, j :: 0 <= i < |rows| && 0 <= j < COLUMNS ==>
                             placeholders[i][j] == 11 * i + j + 1 && binds[placeholders[i][j] - 1] == rows[i][j]
    ensures |rows| <= 5_000 ==> |binds| <= 65_535
  {
    placeholders := BuildPlaceholders(|rows|);
    binds := BindAll(rows);
  }

  method BuildPlaceholders(n: nat) returns (placeholders: seq<seq<nat>>)
    ensures |placeholders| == n
    ensures forall i :: 0 <= i < n ==> |placeholders[i]| == COLUMNS
    ensures forall i, j :: 0 <= i < n && 0 <= j < COLUMNS ==> placeholders[i][j] == 11 * i + j + 1
  {
    placeholders := [];
    var paramIndex := 1;
    for i := 0 to n
      invariant |placeholders| == i && paramIndex == 11 * i + 1
      invariant forall k :: 0 <= k < i ==> |placeholders[k]| == COLUMNS
      invariant forall k, j :: 0 <= k < i && 0 <= j < COLUMNS ==> placeholders[k][j] == 11 * k + j + 1
    {
      var ps := RowPlaceholders(paramIndex);
      placeholders := placeholders + [ps];
      paramIndex := paramIndex + COLUMNS;
    }
  }

  method BindAll(rows: seq<Row>) returns (binds: seq<Option<string>>)
    requires forall i :: 0 <= i < |rows| ==> |rows[i]| == COLUMNS
    ensures |binds| == 11 * |rows|
    ensures forall i, j :: 0 <= i < |rows| && 0 <= j < COLUMNS ==> binds[11 * i + j] == rows[i][j]
  {
    binds := [];
    for i := 0 to |rows|
      invariant |binds| == 11 * i
      invariant forall k, j :: 0 <= k < i && 0 <= j < COLUMNS ==> binds[11 * k + j] == rows[k][j]
    {
      ghost var before := binds;
      binds := binds + rows[i];
      forall k, j | 0 <= k < i + 1 && 0 <= j < COLUMNS ensures binds[11 * k + j] == rows[k][j] {
        if k < i {
          assert binds[11 * k + j] == before[11 * k + j];
        }
      }
    }
  }

  // --------------------------------------------------------------------- CSV

  const NULL_TEXT: string := "\\N"

  function CellText(c: Option<string>): string {
    match c case Some(s) => s case None => NULL_TEXT
  }

  function EncodeCells(row: Row): string
    requires row != []
  {
    var n := |row| - 1;
    if n == 0 then CellText(row[0]) else EncodeCells(row[..n]) + "," + CellText(row[n])
  }

  lemma CsvLooksLike()
    ensures EncodeCells([Some("1"), None, Some("")]) == "1,\\N,"
  {
    var row: Row := [Some("1"), None, Some("")];
    assert row[..2] == [Some("1"), None] && row[..2][..1] == [Some("1")];
  }

  ghost predicate Rectangular(rows: seq<Row>) {
    forall i :: 0 <= i < |rows| ==> rows[i] != []
  }

  function Encode(rows: seq<Row>): string
    requires Rectangular(rows)
  {
    if rows == [] then "" else Encode(rows[..|rows| - 1]) + EncodeCells(rows[|rows| - 1]) + "\n"
  }

  /** The loop that writes the CSV text. */
  method BuildCsv(rows: seq<Row>) returns (csv: string)
    requires forall i :: 0 <= i < |rows| ==> |rows[i]| == COLUMNS
    ensures csv == Encode(rows)
  {
    csv := "";
    for i := 0 to |rows|
      invariant csv == Encode(rows[..i])
    {
      assert rows[..i + 1][..i] == rows[..i];
      var line := CellText(rows[i][0]);
      assert rows[i][..1][0] == rows[i][0];
      for j := 1 to COLUMNS
        invariant line == EncodeCells(rows[i][..j])
      {
        assert rows[i][..j + 1][..j] == rows[i][..j];
        line := line + "," + CellText(rows[i][j]);
      }
      assert rows[i][..COLUMNS] == rows[i];
      csv := csv + line + "\n";
    }
    assert rows[..|rows|] == rows;
  }

  /** Reading CSV: outside quotes, inside quotes, or just after a quote inside quotes. */
  datatype Mode = Plain | Quoted | QuoteSeen

  datatype Scan = Scan(rows: seq<Row>, cells: Row, cell: string, wasQuoted: bool, mode: Mode)

  /** An unquoted `\N` is NULL. */
  function CellOf(s: Scan): Option<string> {
    if !s.wasQuoted && s.cell == NULL_TEXT then None else Some(s.cell)
  }

  /** One character of `FORMAT csv`; None is an error. */
  function Step(s: Scan, c: char): Option<Scan> {
    if s.mode == Quoted then Some(if c == '"' then s.(mode := QuoteSeen) else s.(cell := s.cell + [c]))
    else if s.mode == QuoteSeen && c == '"' then Some(s.(cell := s.cell + [c], mode := Quoted))
    else if c == '"' then Some(s.(wasQuoted := true, mode := Quoted))
    else if c == ',' then Some(Scan(s.rows, s.cells + [CellOf(s)], "", false, Plain))
    else if c == '\n' then Some(Scan(s.rows + [s.cells + [CellOf(s)]], [], "", false, Plain))
    else if c == '\r' then None
    else Some(s.(cell := s.cell + [c], mode := Plain))
  }

  function Read(s: Scan, text: string): Option<Scan>
    decreases |text|
  {
    if text == "" then Some(s) else
      match Step(s, text[0])
      case None => None
      case Some(next) => Read(next, text[1..])
  }

  const START: Scan := Scan([], [], "", false, Plain)

  /** The rows of a text; a last line without a line end counts too. */
  function Decode(text: string): Option<seq<Row>> {
    match Read(START, text)
    case None => None
    case Some(s) =>
      if s.mode == Quoted then None
      else if s.cells == [] && s.cell == "" && !s.wasQuoted then Some(s.rows)
      else Some(s.rows + [s.cells + [CellOf(s)]])
  }

  predicate Special(c: char) {
    c == ',' || c == '"' || c == '\n' || c == '\r'
  }

  predicate Free(s: string) {
    forall i :: 0 <= i < |s| ==> !Special(s[i])
  }

  ghost predicate AllFree(rows: seq<Row>) {
    forall i, j :: 0 <= i < |rows| && 0 <= j < |rows[i]| ==> Free(CellText(rows[i][j]))
  }

  ghost predicate NoNullText(rows: seq<Row>) {
    forall i, j :: 0 <= i < |rows| && 0 <= j < |rows[i]| ==> rows[i][j] != Some(NULL_TEXT)
  }

  lemma {:induction false} ReadAppend(s: Scan, a: string, b: string)
    ensures Read(s, a + b) == match Read(s, a) case None => None case Some(t) => Read(t, b)
    decreases |a|
  {
    if a == "" {
      assert a + b == b;
    } else {
      assert (a + b)[1..] == a[1..] + b;
      match Step(s, a[0]) {
        case None =>
        case Some(next) => ReadAppend(next, a[1..], b);
      }
    }
  }

  lemma {:induction false} ReadFree(s: Scan, text: string)
    requires s.mode == Plain && Free(text)
    ensures Read(s, text) == Some(s.(cell := s.cell + text))
    decreases |text|
  {
    if text == "" {
      assert s.cell + text == s.cell;
    } else {
      ReadFree(s.(cell := s.cell + [text[0]]), text[1..]);
      assert s.cell + [text[0]] + text[1..] == s.cell + text;
    }
  }

  /** What reading makes of a cell: the text `\N` turns into NULL. */
  function AsRead(c: Option<string>): Option<string> {
    if CellText(c) == NULL_TEXT then None else c
  }

  function RowAsRead(row: Row): Row {
    seq(|row|, i requires 0 <= i < |row| => AsRead(row[i]))
  }

  function RowsAsRead(rows: seq<Row>): seq<Row> {
    seq(|rows|, i requires 0 <= i < |rows| => RowAsRead(rows[i]))
  }

  lemma RowAsReadSnoc(row: Row)
    requires row != []
    ensures RowAsRead(row) == RowAsRead(row[..|row| - 1]) + [AsRead(row[|row| - 1])]
  {
  }

  /** A comma ends the cell. */
  lemma ReadComma(s: Scan, text: string)
    requires s.mode == Plain
    ensures Read(s, "," + text) == Read(Scan(s.rows, s.cells + [CellOf(s)], "", false, Plain), text)
  {
    assert ("," + text)[1..] == text;
  }

  lemma ReadCell(rows: seq<Row>, cells: Row, text: string)
    requires Free(text)
    ensures Read(Scan(rows, cells, "", false, Plain), text) == Some(Scan(rows, cells, text, false, Plain))
  {
    assert "" + text == text;
    ReadFree(Scan(rows, cells, "", false, Plain), text);
  }

  lemma EncodeSnoc(row: Row)
    requires |row| > 1
    ensures EncodeCells(row) == EncodeCells(row[..|row| - 1]) + ("," + CellText(row[|row| - 1]))
  {
  }

  /** What reading the cells of a row leaves behind: all but the last one ended. */
  function BeforeLineEnd(rows: seq<Row>, row: Row): Scan
    requires row != []
  {
    Scan(rows, RowAsRead(row[..|row| - 1]), CellText(row[|row| - 1]), false, Plain)
  }

  lemma {:induction false} ReadCells(rows: seq<Row>, row: Row)
    requires row != [] && forall j :: 0 <= j < |row| ==> Free(CellText(row[j]))
    ensures Read(Scan(rows, [], "", false, Plain), EncodeCells(row)) ==
            Some(BeforeLineEnd(rows, row))
    decreases |row|
  {
    var n := |row| - 1;
    var front, text := row[..n], CellText(row[n]);
    if n == 0 {
      assert RowAsRead(front) == [];
      ReadCell(rows, [], text);
    } else {
      ReadCells(rows, front);
      EncodeSnoc(row);
      ReadAppend(Scan(rows, [], "", false, Plain), EncodeCells(front), "," + text);
      RowAsReadSnoc(front);
      ReadComma(BeforeLineEnd(rows, front), text);
      ReadCell(rows, RowAsRead(front), text);
    }
  }

  lemma ReadRow(rows: seq<Row>, row: Row, line: string)
    requires row != [] && Read(Scan(rows, [], "", false, Plain), line) == Some(BeforeLineEnd(rows, row))
    ensures Read(Scan(rows, [], "", false, Plain), line + "\n") ==
            Some(Scan(rows + [RowAsRead(row)], [], "", false, Plain))
  {
    RowAsReadSnoc(row);
    ReadLineEnd(BeforeLineEnd(rows, row));
    ReadAppend(Scan(rows, [], "", false, Plain), line, "\n");
  }

  lemma {:induction false} ReadRows(rows: seq<Row>)
    requires Rectangular(rows) && AllFree(rows)
    ensures Read(START, Encode(rows)) == Some(Scan(RowsAsRead(rows), [], "", false, Plain))
    decreases |rows|
  {
    if rows != [] {
      var n := |rows| - 1;
      var front, row := rows[..n], rows[n];
      ReadRows(front);
      var line := EncodeCells(row);
      ReadCells(RowsAsRead(front), row);
      ReadRow(RowsAsRead(front), row, line);
      assert Encode(front) + line + "\n" == Encode(front) + (line + "\n");
      ReadAppend(START, Encode(front), line + "\n");
      assert RowsAsRead(rows) == RowsAsRead(front) + [RowAsRead(row)];
    }
  }

  // ---------------------------------------------------- when COPY is faithful

  function CountOf(text: string, c: char): nat {
    if text == "" then 0 else (if text[0] == c then 1 else 0) + CountOf(text[1..], c)
  }

  lemma {:induction false} CountAppend(a: string, b: string, c: char)
    ensures CountOf(a + b, c) == CountOf(a, c) + CountOf(b, c)
    decreases |a|
  {
    if a == "" {
      assert a + b == b;
    } else {
      assert (a + b)[1..] == a[1..] + b;
      CountAppend(a[1..], b, c);
    }
  }

  function CountCells(row: Row, c: char): nat {
    if row == [] then 0 else CountCells(row[..|row| - 1], c) +
                             (var cell := row[|row| - 1]; if cell.Some? then CountOf(cell.value, c) else 0)
  }

  function CountRows(rows: seq<Row>, c: char): nat {
    if rows == [] then 0 else CountRows(rows[..|rows| - 1], c) + CountCells(rows[|rows| - 1], c)
  }

  function CellsIn(rows: seq<Row>): nat {
    if rows == [] then 0 else CellsIn(rows[..|rows| - 1]) + |rows[|rows| - 1]|
  }

  lemma NullTextHasNoSpecials(c: char)
    requires Special(c)
    ensures CountOf(NULL_TEXT, c) == 0 && CountOf(",", c) == (if c == ',' then 1 else 0)
    ensures CountOf("\n", c) == (if c == '\n' then 1 else 0)
  {
  }

  /** The text of a row holds the special characters of its cells, and a comma between any two of them. */
  lemma {:induction false} CellsCounted(row: Row, c: char)
    requires row != [] && Special(c)
    ensures CountOf(EncodeCells(row), c) == CountCells(row, c) + (if c == ',' then |row| - 1 else 0)
    decreases |row|
  {
    var n := |row| - 1;
    NullTextHasNoSpecials(c);
    if n == 0 {
      assert CountCells(row[..0], c) == 0;
    } else {
      CellsCounted(row[..n], c);
      CountAppend(EncodeCells(row[..n]), ",", c);
      CountAppend(EncodeCells(row[..n]) + ",", CellText(row[n]), c);
    }
  }

  /** Separators in the whole text: one per cell, and those inside the cells. */
  lemma {:induction false} SeparatorsCounted(rows: seq<Row>)
    requires Rectangular(rows)
    ensures CountOf(Encode(rows), ',') + CountOf(Encode(rows), '\n') ==
            CellsIn(rows) + CountRows(rows, ',') + CountRows(rows, '\n')
    ensures CountOf(Encode(rows), '"') == CountRows(rows, '"')
    ensures CountOf(Encode(rows), '\r') == CountRows(rows, '\r')
    decreases |rows|
  {
    if rows != [] {
      var n := |rows| - 1;
      SeparatorsCounted(rows[..n]);
      RowCounted(rows[..n], rows[n], ',');
      RowCounted(rows[..n], rows[n], '\n');
      RowCounted(rows[..n], rows[n], '"');
      RowCounted(rows[..n], rows[n], '\r');
    }
  }

  lemma RowCounted(front: seq<Row>, row: Row, c: char)
    requires Rectangular(front) && row != [] && Special(c)
    ensures CountOf(Encode(front) + EncodeCells(row) + "\n", c) ==
            CountOf(Encode(front), c) + CountCells(row, c)
            + (if c == ',' then |row| - 1 else if c == '\n' then 1 else 0)
  {
    NullTextHasNoSpecials(c);
    CellsCounted(row, c);
    CountAppend(Encode(front), EncodeCells(row), c);
    CountAppend(Encode(front) + EncodeCells(row), "\n", c);
  }

  /** Quotes that have come out as text, and those still owed for an open quotation. */
  function QuotesOut(s: Scan): nat {
    CountRows(s.rows, '"') + CountCells(s.cells, '"') + CountOf(s.cell, '"')
  }

  function Owed(m: Mode): nat {
    match m case Plain => 0 case Quoted => 1 case QuoteSeen => 2
  }

  lemma CountSnoc(text: string, c: char, q: char)
    ensures CountOf(text + [c], q) == CountOf(text, q) + (if c == q then 1 else 0)
  {
    CountAppend(text, [c], q);
    assert [c][1..] == "";
  }

  lemma CellsSnoc(s: Scan)
    ensures CountCells(s.cells + [CellOf(s)], '"') == CountCells(s.cells, '"') + CountOf(s.cell, '"')
  {
    NullTextHasNoSpecials('"');
    assert (s.cells + [CellOf(s)])[..|s.cells|] == s.cells;
  }

  lemma RowsSnoc(rows: seq<Row>, row: Row)
    ensures CountRows(rows + [row], '"') == CountRows(rows, '"') + CountCells(row, '"')
  {
    assert (rows + [row])[..|rows|] == rows;
  }

  /** A character that goes into the cell. */
  lemma AddedOut(s: Scan, c: char, m: Mode)
    ensures QuotesOut(s.(cell := s.cell + [c], mode := m)) == QuotesOut(s) + (if c == '"' then 1 else 0)
  {
    CountSnoc(s.cell, c, '"');
  }

  /** The end of a cell lets no quote appear or disappear. */
  lemma CellEndOut(s: Scan)
    ensures QuotesOut(Scan(s.rows, s.cells + [CellOf(s)], "", false, Plain)) == QuotesOut(s)
  {
    CellsSnoc(s);
    assert CountOf("", '"') == 0;
  }

  lemma RowEndOut(s: Scan)
    ensures QuotesOut(Scan(s.rows + [s.cells + [CellOf(s)]], [], "", false, Plain)) == QuotesOut(s)
  {
    CellsSnoc(s);
    RowsSnoc(s.rows, s.cells + [CellOf(s)]);
    assert CountOf("", '"') == 0 && CountCells([], '"') == 0;
  }

  lemma ModeOut(s: Scan, quoted: bool, m: Mode)
    ensures QuotesOut(s.(wasQuoted := quoted, mode := m)) == QuotesOut(s)
  {
  }

  /** Twice the quotes that are out, and those owed. */
  function Balance(s: Scan): int {
    2 * QuotesOut(s) + Owed(s.mode)
  }

  lemma QuoteStep(s: Scan)
    requires Step(s, '"').Some?
    ensures Balance(Step(s, '"').value) <= Balance(s) + 1
  {
    AddedOut(s, '"', Quoted);
    ModeOut(s, s.wasQuoted, QuoteSeen);
    ModeOut(s, true, Quoted);
  }

  lemma TextStep(s: Scan, c: char)
    requires c != '"' && (s.mode == Quoted || (c != ',' && c != '\n')) && Step(s, c).Some?
    ensures Balance(Step(s, c).value) <= Balance(s)
  {
    AddedOut(s, c, s.mode);
    AddedOut(s, c, Plain);
  }

  lemma EndStep(s: Scan, c: char)
    requires s.mode != Quoted && (c == ',' || c == '\n') && Step(s, c).Some?
    ensures Balance(Step(s, c).value) <= Balance(s)
  {
    if c == ',' {
      CellEndOut(s);
    } else {
      RowEndOut(s);
    }
  }

  lemma StepHalves(s: Scan, c: char)
    requires Step(s, c).Some?
    ensures Balance(Step(s, c).value) <= Balance(s) + (if c == '"' then 1 else 0)
  {
    if c == '"' {
      QuoteStep(s);
    } else if s.mode == Quoted || (c != ',' && c != '\n') {
      TextStep(s, c);
    } else {
      EndStep(s, c);
    }
  }

  /** Of the quotes read, at most half come out. */
  lemma {:induction false} QuotesHalve(s: Scan, text: string)
    requires Read(s, text).Some?
    ensures Balance(Read(s, text).value) <= Balance(s) + CountOf(text, '"')
    decreases |text|
  {
    if text != "" {
      StepHalves(s, text[0]);
      QuotesHalve(Step(s, text[0]).value, text[1..]);
    }
  }

  /** Without quotes every separator ends a cell, and there is no carriage return. */
  lemma {:induction false} SeparatorsEndCells(s: Scan, text: string)
    requires s.mode == Plain && CountOf(text, '"') == 0 && Read(s, text).Some?
    ensures var t := Read(s, text).value;
            t.mode == Plain && t.wasQuoted == (t.wasQuoted && s.wasQuoted)
            && CellsIn(t.rows) + |t.cells| ==
               CellsIn(s.rows) + |s.cells| + CountOf(text, ',') + CountOf(text, '\n')
    ensures CountOf(text, '\r') == 0
    decreases |text|
  {
    if text != "" {
      var next := Step(s, text[0]).value;
      var row := s.cells + [CellOf(s)];
      assert (s.rows + [row])[..|s.rows|] == s.rows;
      SeparatorsEndCells(next, text[1..]);
    }
  }

  lemma {:induction false} NoneInText(text: string, c: char)
    requires CountOf(text, c) == 0
    ensures c !in text
    decreases |text|
  {
    if text != "" {
      NoneInText(text[1..], c);
      assert text == [text[0]] + text[1..];
    }
  }

  lemma {:induction false} NoneInCells(row: Row, c: char, j: nat)
    requires CountCells(row, c) == 0 && j < |row| && Special(c)
    ensures c !in CellText(row[j])
    decreases |row|
  {
    var n := |row| - 1;
    if j < n {
      NoneInCells(row[..n], c, j);
    } else {
      NullTextHasNoSpecials(c);
      NoneInText(CellText(row[n]), c);
    }
  }

  lemma {:induction false} NoneInRows(rows: seq<Row>, c: char, i: nat, j: nat)
    requires CountRows(rows, c) == 0 && i < |rows| && j < |rows[i]| && Special(c)
    ensures c !in CellText(rows[i][j])
    decreases |rows|
  {
    var n := |rows| - 1;
    if i < n {
      NoneInRows(rows[..n], c, i, j);
    } else {
      NoneInCells(rows[n], c, j);
    }
  }

  /** If reading gives the rows back, no quote was written. */
  lemma FaithfulHasNoQuotes(rows: seq<Row>)
    requires Rectangular(rows) && Decode(Encode(rows)) == Some(rows)
    ensures CountRows(rows, '"') == 0
  {
    SeparatorsCounted(rows);
    QuotesHalve(START, Encode(rows));
    StartIsEmpty();
    RowEndOut(Read(START, Encode(rows)).value);
  }

  lemma StartIsEmpty()
    ensures Balance(START) == 0
  {
    assert CountRows([], '"') == 0 && CountCells([], '"') == 0 && CountOf("", '"') == 0;
  }

  /** If reading gives the rows back, no separator was written but those between the cells. */
  lemma FaithfulHasNoSeparators(rows: seq<Row>)
    requires Rectangular(rows) && Decode(Encode(rows)) == Some(rows) && rows != []
    ensures CountRows(rows, ',') == 0 && CountRows(rows, '\n') == 0 && CountRows(rows, '\r') == 0
  {
    SeparatorsCounted(rows);
    FaithfulHasNoQuotes(rows);
    SeparatorsEndCells(START, Encode(rows));
    LineEndIsLast(rows);
    assert CellsIn([]) == 0;
  }

  /** After the text of some rows without quotes, the last one is complete. */
  lemma LineEndIsLast(rows: seq<Row>)
    requires Rectangular(rows) && rows != []
    requires CountOf(Encode(rows), '"') == 0 && Read(START, Encode(rows)).Some?
    ensures var t := Read(START, Encode(rows)).value;
            t == Scan(t.rows, [], "", false, Plain) && Decode(Encode(rows)) == Some(t.rows)
  {
    var n := |rows| - 1;
    var body := Encode(rows[..n]) + EncodeCells(rows[n]);
    ReadAppend(START, body, "\n");
    CountAppend(body, "\n", '"');
    SeparatorsEndCells(START, body);
    ReadLineEnd(Read(START, body).value);
  }

  lemma ReadLineEnd(s: Scan)
    requires s.mode == Plain
    ensures Read(s, "\n") == Some(Scan(s.rows + [s.cells + [CellOf(s)]], [], "", false, Plain))
  {
    assert "\n"[1..] == "";
  }

  lemma FaithfulIsFree(rows: seq<Row>)
    requires Rectangular(rows) && Decode(Encode(rows)) == Some(rows)
    ensures AllFree(rows)
  {
    if rows != [] {
      FaithfulHasNoQuotes(rows);
      FaithfulHasNoSeparators(rows);
    }
    forall i, j | 0 <= i < |rows| && 0 <= j < |rows[i]| ensures Free(CellText(rows[i][j])) {
      NoneInRows(rows, ',', i, j);
      NoneInRows(rows, '"', i, j);
      NoneInRows(rows, '\n', i, j);
      NoneInRows(rows, '\r', i, j);
    }
  }

  lemma AsReadIsSame(rows: seq<Row>)
    ensures RowsAsRead(rows) == rows <==> NoNullText(rows)
  {
    if NoNullText(rows) {
      forall i | 0 <= i < |rows| ensures RowsAsRead(rows)[i] == rows[i] {
        assert RowAsRead(rows[i]) == rows[i];
      }
    } else {
      var i, j :| 0 <= i < |rows| && 0 <= j < |rows[i]| && rows[i][j] == Some(NULL_TEXT);
      assert RowsAsRead(rows)[i][j] == None;
    }
  }

  /** A row of at least two columns, as all of the table's are, is never the line `\.` that ends the data of COPY. */
  lemma RowIsNoEndMarker(row: Row)
    requires |row| >= 2
    ensures EncodeCells(row) != "\\."
  {
    var front := EncodeCells(row[..|row| - 1]);
    EncodeSnoc(row);
    assert EncodeCells(row)[|front|] == ',';
  }

  /**
   COPY hands over exactly the rows that VALUES binds if and only if no text holds a comma, a quote or a line break,
   or is the marker for NULL. Decode knows no end marker: with eleven columns RowIsNoEndMarker excludes it, except as a
   line within a text, which is not handed over in either reading.
   */
  lemma CopyFaithfulIff(rows: seq<Row>)
    requires Rectangular(rows)
    ensures Decode(Encode(rows)) == Some(rows) <==> AllFree(rows) && NoNullText(rows)
  {
    AsReadIsSame(rows);
    if AllFree(rows) {
      ReadRows(rows);
    }
    if Decode(Encode(rows)) == Some(rows) {
      FaithfulIsFree(rows);
    }
  }
}
