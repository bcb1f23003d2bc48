/** What a scanned sheet delivers, in terms of its cells. */
module XlsxRecords {
  import opened Options
  import opened Sequences
  import opened Strings
  import opened HeaderNames
  import opened RowValidation
  import opened XlsxHeader
  import opened XlsxScan

  // ----- the grid below a header row -----

  /** The cell of a sheet that column `k` of row `i` below the header comes from. */
  function CellBelow(sheet: Sheet, header: nat, i: nat, k: nat): Cell {
    CellAt(sheet, header + 1 + i, sheet.startColumn + k)
  }

  /** Reading that cell does not throw. */
  predicate ValidBelow(sheet: Sheet, header: nat, i: nat, k: nat) {
    (header + 1 + i, sheet.startColumn + k) !in sheet.invalid
  }

  /** There is a column for each cell of the header row up to the last that is not empty. */
  lemma ColumnsEndAtLastHeader(sheet: Sheet, header: nat)
    ensures var width := |GridBelow(sheet, header).headers|;
      && (width > 0 ==>
            && sheet.startColumn + width - 1 <= sheet.endColumn
            && !IsEmpty(CellAt(sheet, header, sheet.startColumn + width - 1)))
      && forall c: nat :: sheet.startColumn + width <= c <= sheet.endColumn ==> IsEmpty(CellAt(sheet, header, c))
  {
    hide IsEmpty, CellAt, FindLastNonEmptyIndex, NormalizeXlsxHeaders, RowsBelow;
    var cells := ReadRowValues(sheet, header, sheet.startColumn, sheet.endColumn);
    var last := FindLastNonEmptyIndex(cells);
    forall c: nat | sheet.startColumn + last + 1 <= c <= sheet.endColumn ensures IsEmpty(CellAt(sheet, header, c)) {
      assert cells[c - sheet.startColumn] == CellAt(sheet, header, c);
    }
  }

  lemma NothingIsNoWords(s: string)
    ensures Join(Tokens(IS_ALNUM, s), "_") == "" <==> Tokens(IS_ALNUM, s) == []
  {
    hide Tokens, Join;
    var words := Tokens(IS_ALNUM, s);
    if words == [] {
      StripNothing();
    } else {
      TokensAreRuns(IS_ALNUM, s);
      JoinedWords(words);
    }
  }

  /** A column is called by the words of its header cell, or by its position, counted from one, when
      there are none; and names that repeat are numbered. */
  lemma HeadersAreWords(sheet: Sheet, header: nat, k: nat)
    requires k < |GridBelow(sheet, header).headers|
    ensures var names := BaseNames(HeaderCells(sheet, header));
      var words := Tokens(IS_ALNUM, Lower(Trim(AsString(CellAt(sheet, header, sheet.startColumn + k)))));
      && |names| == |GridBelow(sheet, header).headers|
      && names[k] == (if words == [] then "column_" + Decimal(k + 1) else Join(words, "_"))
      && GridBelow(sheet, header).headers[k] == Numbered(names, k)
  {
    hide CellAt, FindLastNonEmptyIndex, RowsBelow, NormalizeXlsxHeader, Trim, Lower, Tokens, Join, Numbered, Decimal, AsString;
    var cell := CellAt(sheet, header, sheet.startColumn + k);
    assert HeaderCells(sheet, header)[k] == cell;
    XlsxHeaderIsItsWords(AsString(cell));
    NothingIsNoWords(Lower(Trim(AsString(cell))));
  }

  lemma ReadableIff(sheet: Sheet, header: nat, i: nat, width: nat)
    ensures Readable(sheet, header + 1 + i, sheet.startColumn, sheet.startColumn + width - 1) <==>
      forall k: nat :: k < width ==> ValidBelow(sheet, header, i, k)
  {
    if cell :| cell in sheet.invalid && cell.0 == header + 1 + i
               && sheet.startColumn <= cell.1 <= sheet.startColumn + width - 1 {
      assert cell == (header + 1 + i, cell.1);
      assert !ValidBelow(sheet, header, i, cell.1 - sheet.startColumn);
    }
  }

  /** The rows are all those of the range below the header; one is read exactly when none of its
      cells under a header is invalid, and then it holds these cells. */
  lemma RowsAreCells(sheet: Sheet, header: nat, i: nat)
    requires i < |GridBelow(sheet, header).rows|
    ensures var g := GridBelow(sheet, header);
      && g.firstRow == header + 1
      && |g.rows| == sheet.endRow - header
      && (g.rows[i].Some? <==>
            forall k: nat :: k < |g.headers| ==> ValidBelow(sheet, header, i, k))
      && (g.rows[i].Some? ==> forall k :: 0 <= k < |g.headers| ==> g.rows[i].value[k] == CellBelow(sheet, header, i, k))
  {
    hide CellAt, HeaderCells, NormalizeXlsxHeaders;
    var g, width := GridBelow(sheet, header), |HeaderCells(sheet, header)|;
    assert g.rows[i] == RowBelow(sheet, header + 1 + i, width);
    ReadableIff(sheet, header, i, width);
  }

  /** A row read below a header keeps one entry per column exactly when no header is already called
      what the numbering makes of a repeated one; and then each entry is the trimmed text of the
      sheet's cell in that column, or null exactly when that cell is empty of text. */
  lemma RowIsRecoverableIff(sheet: Sheet, header: nat, i: nat)
    requires i < |GridBelow(sheet, header).rows| && GridBelow(sheet, header).rows[i].Some?
    ensures var g := GridBelow(sheet, header); var record := ParsedAt(g, i).data;
      && (|record| == |g.headers| <==> !Collides(BaseNames(HeaderCells(sheet, header))))
      && (|record| == |g.headers| ==>
            forall k :: 0 <= k < |g.headers| ==>
              var text := AsString(CellBelow(sheet, header, i, k));
              && g.headers[k] in record
              && (record[g.headers[k]].None? <==> text == "")
              && (record[g.headers[k]].Some? ==> record[g.headers[k]] == Some(Trim(text))))
  {
    hide Collides, Numbered, Parsed, HeaderCells, RowsBelow, Trim, CellAt;
    var g := GridBelow(sheet, header);
    var names := BaseNames(HeaderCells(sheet, header));
    NumberingIsInjectiveIff(names);
    assert forall k :: 0 <= k < |names| ==> g.headers[k] == Numbered(names, k);
    ParsedRowIsComplete(g.headers, g.rows[i].value);
    RowsAreCells(sheet, header, i);
  }

  // ----- the rows that are delivered -----

  lemma LongIsNotEmpty(c: Cell)
    requires c.Text? && |Trim(c.text)| > 25
    ensures !IsEmpty(c)
  {
  }

  lemma CountZeroIff(p: Cell -> bool, values: seq<Cell>)
    ensures Count(p, values) == 0 <==> forall k :: 0 <= k < |values| ==> !p(values[k])
  {
    hide Count;
    if k: nat :| k < |values| && p(values[k]) {
      CountPositive(p, values, k);
    }
    if Count(p, values) > 0 {
      CountWitness(p, values);
    }
  }

  /** A note is a row whose first cell is a text of more than 25 characters, trimmed, and whose
      other cells are empty. */
  lemma NoteIff(values: seq<Cell>)
    ensures IsTrailingNoteRow(values) <==>
      && values != [] && values[0].Text? && |Trim(values[0].text)| > 25
      && forall k :: 0 < k < |values| ==> IsEmpty(values[k])
  {
    hide IsEmpty, Trim;
    if values != [] {
      if values[0].Text? && |Trim(values[0].text)| > 25 { LongIsNotEmpty(values[0]); }
      CountZeroIff(NON_EMPTY, values[1..]);
      assert forall k :: 0 < k < |values| ==> values[k] == values[1..][k - 1];
    }
  }

  /** Some cell under a header is filled, and the row is not a note. */
  ghost predicate HoldsData(sheet: Sheet, header: nat, i: nat, width: nat) {
    && (exists k: nat :: k < width && !IsEmpty(CellBelow(sheet, header, i, k)))
    && (CellBelow(sheet, header, i, 0).Text? && |Trim(CellBelow(sheet, header, i, 0).text)| > 25 ==>
          exists k: nat :: 0 < k < width && !IsEmpty(CellBelow(sheet, header, i, k)))
  }

  lemma IsDataIff(sheet: Sheet, header: nat, i: nat)
    requires i < |GridBelow(sheet, header).rows|
    ensures var g := GridBelow(sheet, header);
      IsData(g, i) <==> g.rows[i].Some? && HoldsData(sheet, header, i, |g.headers|)
  {
    hide IsEmpty, Trim, CellBelow, RowsBelow, HeaderCells, NormalizeXlsxHeaders, IsTrailingNoteRow;
    var g := GridBelow(sheet, header);
    RowsAreCells(sheet, header, i);
    hide GridBelow;
    if g.rows[i].Some? {
      NoteIff(g.rows[i].value);
    }
  }

  function IsDataIn(g: Grid): nat -> bool {
    (i: nat) => i < |g.rows| && IsData(g, i)
  }

  /** The records delivered are those of the data rows, in order. */
  lemma {:induction false} DataRowsAre(g: Grid, n: nat)
    requires n <= |g.rows|
    ensures var data := Select(IsDataIn(g), n);
      && |DataRows(g, n)| == |data|
      && forall k :: 0 <= k < |data| ==>
           data[k] < |g.rows| && IsData(g, data[k]) && g.rows[data[k]].Some? && DataRows(g, n)[k] == ParsedAt(g, data[k])
  {
    if n > 0 {
      DataRowsAre(g, n - 1);
    }
  }

  /** Among the first `n` rows below a header a record with the number of row `i` is delivered exactly
      when its cells under the headers are all valid, one is filled, and the row is not a note; and
      then it is the record that `RowIsRecoverableIff` describes. */
  lemma DeliveredIff(sheet: Sheet, header: nat, n: nat, i: nat)
    requires i < n <= |GridBelow(sheet, header).rows|
    ensures var g := GridBelow(sheet, header); var rows := DataRows(g, n);
      && ((exists k :: 0 <= k < |rows| && rows[k].rowIndex == header + i + 2) <==>
            (forall k: nat :: k < |g.headers| ==> ValidBelow(sheet, header, i, k))
            && HoldsData(sheet, header, i, |g.headers|))
      && forall k :: 0 <= k < |rows| && rows[k].rowIndex == header + i + 2 ==> g.rows[i].Some? && rows[k] == ParsedAt(g, i)
  {
    hide HoldsData, GridBelow, IsData, DataRows, Parsed, ValidBelow, Select;
    var g := GridBelow(sheet, header);
    RowsAreCells(sheet, header, i);
    IsDataIff(sheet, header, i);
    DataRowsAre(g, n);
    SelectShape(IsDataIn(g), n);
    var data := Select(IsDataIn(g), n);
    if IsData(g, i) {
      assert i in data;
      var k :| 0 <= k < |data| && data[k] == i;
      assert DataRows(g, n)[k].rowIndex == header + i + 2;
    }
  }

  // ----- the warnings -----

  /** The exception row `i` causes, if any: it cannot be read, or its mapping throws, or the callback
      does, at the number of candidates handed over before. */
  function ThrownBy<C>(
    g: Grid, i: nat, mapRow: ParsedRow -> Result<C, string>, outcome: (nat, C) -> Option<string>): Option<string>
  {
    if i >= |g.rows| then None
    else
      match g.rows[i]
      case None => Some("Invalid time value")
      case Some(_) =>
        if !IsData(g, i) then None
        else
          match mapRow(ParsedAt(g, i))
          case Err(thrown) => Some(thrown)
          case Ok(candidate) => outcome(|Mapped(DataRows(g, i), mapRow)|, candidate)
  }

  function Faulty<C>(g: Grid, mapRow: ParsedRow -> Result<C, string>, outcome: (nat, C) -> Option<string>): nat -> bool {
    (i: nat) => ThrownBy(g, i, mapRow, outcome).Some?
  }

  lemma IsDataIsRead(g: Grid, i: nat)
    requires i < |g.rows| && IsData(g, i)
    ensures g.rows[i].Some?
  {
  }

  /** The warnings are exactly these exceptions, each with the number of its row, in row order. */
  lemma {:induction false} WarningsAre<C>(
    g: Grid, n: nat, mapRow: ParsedRow -> Result<C, string>, outcome: (nat, C) -> Option<string>)
    requires n <= |g.rows|
    ensures var faulty, warnings := Select(Faulty(g, mapRow, outcome), n), Throws(g, n, mapRow, outcome);
      && |warnings| == |faulty|
      && forall k :: 0 <= k < |faulty| ==>
           var thrown := ThrownBy(g, faulty[k], mapRow, outcome);
           thrown.Some? && warnings[k] == Threw(g.firstRow + faulty[k] + 1, thrown.value)
  {
    hide IsData, Parsed, Mapped, DataRows;
    if n > 0 {
      WarningsAre(g, n - 1, mapRow, outcome);
      if IsData(g, n - 1) { IsDataIsRead(g, n - 1); }
    }
  }
}
