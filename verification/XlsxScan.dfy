/** The two sheet loops of the spreadsheet reader: one collects candidates, one hands them to a
    callback. Both stop after a hundred empty rows in a run. */
module XlsxScan {
  import opened Options
  import opened Sequences
  import opened Strings
  import opened HeaderNames
  import opened RowValidation
  import opened XlsxHeader

  const MAX_CONSECUTIVE_EMPTY_ROWS: nat := 100

  /** What the validator leaves of a row: its number and its record. */
  datatype ParsedRow = ParsedRow(rowIndex: nat, data: Record)

  datatype Warning = Rejected(error: RowError) | Threw(rowIndex: nat, message: string)

  // ----- the header of a sheet -----

  function FindLastNonEmptyIndex(values: seq<Cell>): (r: int)
    ensures -1 <= r < |values|
    ensures r >= 0 ==> !IsEmpty(values[r])
    ensures forall i :: r < i < |values| ==> IsEmpty(values[i])
  {
    if values == [] then -1
    else if !IsEmpty(values[|values| - 1]) then |values| - 1
    else
      var r := FindLastNonEmptyIndex(values[..|values| - 1]);
      assert forall i :: 0 <= i < |values| - 1 ==> values[..|values| - 1][i] == values[i];
      r
  }

  function BaseName(cell: Cell, index: nat): string {
    var normalized := NormalizeXlsxHeader(AsString(cell));
    if normalized != "" then normalized else "column_" + Decimal(index + 1)
  }

  function BaseNames(cells: seq<Cell>): seq<string> {
    seq(|cells|, i requires 0 <= i < |cells| => BaseName(cells[i], i))
  }

  function NormalizeXlsxHeaders(cells: seq<Cell>): seq<string> {
    seq(|cells|, i requires 0 <= i < |cells| => Numbered(BaseNames(cells), i))
  }

  /** What the scan works on: the headers, and the rows below the header row, each read over
      exactly as many columns as there are headers; `None` is a row whose reading throws. */
  datatype Grid = Grid(headers: seq<string>, firstRow: nat, rows: seq<Option<seq<Cell>>>)

  ghost predicate Rectangular(g: Grid) {
    forall i :: 0 <= i < |g.rows| && g.rows[i].Some? ==> |g.rows[i].value| == |g.headers|
  }

  function HeaderCells(sheet: Sheet, header: nat): seq<Cell> {
    var cells := ReadRowValues(sheet, header, sheet.startColumn, sheet.endColumn);
    cells[..FindLastNonEmptyIndex(cells) + 1]
  }

  function RowBelow(sheet: Sheet, row: nat, width: nat): (values: Option<seq<Cell>>)
    ensures values.Some? ==> |values.value| == width
  {
    if Readable(sheet, row, sheet.startColumn, sheet.startColumn + width - 1)
    then Some(ReadRowValues(sheet, row, sheet.startColumn, sheet.startColumn + width - 1))
    else None
  }

  function RowsBelow(sheet: Sheet, header: nat, width: nat): (rows: seq<Option<seq<Cell>>>)
    ensures forall i :: 0 <= i < |rows| && rows[i].Some? ==> |rows[i].value| == width
  {
    if sheet.endRow <= header then []
    else
      var rows := seq(sheet.endRow - header, i requires 0 <= i => RowBelow(sheet, header + 1 + i, width));
      assert forall i :: 0 <= i < |rows| ==> rows[i] == RowBelow(sheet, header + 1 + i, width);
      rows
  }

  function GridBelow(sheet: Sheet, header: nat): (g: Grid)
    ensures Rectangular(g) && |g.headers| == |HeaderCells(sheet, header)|
  {
    var cells := HeaderCells(sheet, header);
    Grid(NormalizeXlsxHeaders(cells), header + 1, RowsBelow(sheet, header, |cells|))
  }

  /** The grid a sheet is scanned over; a sheet without a range or a header row has none. */
  function SheetGrid(sheet: Option<Sheet>): (g: Option<Grid>)
    ensures g.Some? ==> Rectangular(g.value)
  {
    if sheet.None? || HeaderRow(ScannedRows(sheet.value)).None? then None
    else Some(GridBelow(sheet.value, HeaderRow(ScannedRows(sheet.value)).value))
  }

  // ----- one row -----

  predicate AllEmpty(values: seq<Cell>) {
    forall i :: 0 <= i < |values| ==> IsEmpty(values[i])
  }

  predicate IsEmptyRow(g: Grid, i: int)
    requires 0 <= i < |g.rows|
  {
    g.rows[i].Some? && AllEmpty(g.rows[i].value)
  }

  predicate IsTrailingNoteRow(values: seq<Cell>) {
    && Count(NON_EMPTY, values) == 1 && !IsEmpty(values[0])
    && values[0].Text? && |Trim(values[0].text)| > 25
  }

  /** Read without an exception, and neither empty nor a note. */
  predicate IsData(g: Grid, i: nat)
    requires i < |g.rows|
  {
    g.rows[i].Some? && !AllEmpty(g.rows[i].value) && !IsTrailingNoteRow(g.rows[i].value)
  }

  function Raw(g: Grid, i: nat): RawRow
    requires i < |g.rows| && g.rows[i].Some?
  {
    RawRow(g.firstRow + i + 1, g.headers, g.rows[i].value)
  }

  function ParsedAt(g: Grid, i: nat): ParsedRow
    requires i < |g.rows| && g.rows[i].Some?
  {
    ParsedRow(Raw(g, i).rowIndex, Parsed(g.headers, g.rows[i].value, |g.headers|))
  }

  function RowErrors(g: Grid, i: nat): seq<RowError>
    requires i < |g.rows| && g.rows[i].Some?
  {
    Errors(|g.headers|, [], Raw(g, i))
  }

  function Rejections(errors: seq<RowError>): seq<Warning> {
    seq(|errors|, k requires 0 <= k < |errors| => Rejected(errors[k]))
  }

  /** The candidate a row yields, if any: mapping the parsed row may throw. */
  function RowCandidates<C>(g: Grid, i: nat, mapRow: ParsedRow -> Result<C, string>): seq<C>
    requires i < |g.rows|
  {
    if IsData(g, i) && RowErrors(g, i) == [] && mapRow(ParsedAt(g, i)).Ok? then [mapRow(ParsedAt(g, i)).value] else []
  }

  /** The message of the exception a date that is not a point in time causes. */
  const INVALID_TIME := "Invalid time value"

  function Exceptions<C>(g: Grid, i: nat, mapRow: ParsedRow -> Result<C, string>, outcome: (nat, C) -> Option<string>, d: nat): seq<Warning>
    requires i < |g.rows| && g.rows[i].Some?
  {
    var mapped := mapRow(ParsedAt(g, i));
    if mapped.Err? then [Threw(g.firstRow + i + 1, mapped.error)]
    else if outcome(d, mapped.value).Some? then [Threw(g.firstRow + i + 1, outcome(d, mapped.value).value)]
    else []
  }

  /** The warnings row `i` causes: exceptions of reading, mapping and the callback, and rejections
      of the validator. `outcome` is the message of the callback's exception, if it throws; it may
      depend on `d`, the number of candidates delivered before. */
  function RowWarnings<C>(g: Grid, i: nat, mapRow: ParsedRow -> Result<C, string>, outcome: (nat, C) -> Option<string>, d: nat): seq<Warning>
    requires i < |g.rows|
  {
    if g.rows[i].None? then [Threw(g.firstRow + i + 1, INVALID_TIME)]
    else if !IsData(g, i) then []
    else if RowErrors(g, i) != [] then Rejections(RowErrors(g, i))
    else Exceptions(g, i, mapRow, outcome, d)
  }

  function Accepted<C>(g: Grid, n: nat, mapRow: ParsedRow -> Result<C, string>): seq<C>
    requires n <= |g.rows|
  {
    if n == 0 then [] else Accepted(g, n - 1, mapRow) + RowCandidates(g, n - 1, mapRow)
  }

  function Warnings<C>(g: Grid, n: nat, mapRow: ParsedRow -> Result<C, string>, outcome: (nat, C) -> Option<string>): seq<Warning>
    requires n <= |g.rows|
  {
    if n == 0 then []
    else Warnings(g, n - 1, mapRow, outcome)
         + RowWarnings(g, n - 1, mapRow, outcome, |Accepted(g, n - 1, mapRow)|)
  }

  // ----- the stop rule -----

  /** The empty rows among rows `s` to `e - 1`. */
  function Empties(g: Grid, s: nat, e: nat): nat
    requires s <= e <= |g.rows|
  {
    if s == e then 0 else Empties(g, s, e - 1) + (if IsEmptyRow(g, e - 1) then 1 else 0)
  }

  /** No row from `s` to `e - 1` holds anything, as far as it can be read. */
  predicate Barren(g: Grid, s: int, e: int)
    requires 0 <= s <= e <= |g.rows|
  {
    forall t :: s <= t < e ==> g.rows[t].None? || IsEmptyRow(g, t)
  }

  /** Rows `s` to `j` hold nothing and at least a hundred of them are empty. */
  predicate Exhausted(g: Grid, s: int, j: int)
    requires 0 <= s <= j < |g.rows|
  {
    Barren(g, s, j + 1) && Empties(g, s, j + 1) >= 100
  }

  /** Row `j` is the hundredth empty row, or a later one, since a row with content; a row whose
      reading throws neither counts nor interrupts the run. */
  ghost predicate RunEnds(g: Grid, j: int) {
    && 0 <= j < |g.rows| && IsEmptyRow(g, j)
    && exists s: nat :: s <= j && Exhausted(g, s, j)
  }

  /** Rows `[0, n)` are processed: up to the first such row, or all. */
  ghost predicate IsLimit(g: Grid, n: nat) {
    && n <= |g.rows|
    && (forall j :: 0 <= j < n - 1 ==> !RunEnds(g, j))
    && (n < |g.rows| ==> RunEnds(g, n - 1))
  }

  /** The loop's counter before row `i`. */
  function Run(g: Grid, i: nat): nat
    requires i <= |g.rows|
  {
    if i == 0 then 0
    else if g.rows[i - 1].None? then Run(g, i - 1)
    else if IsEmptyRow(g, i - 1) then Run(g, i - 1) + 1
    else 0
  }

  lemma {:induction false} RunStart(g: Grid, i: nat) returns (s: nat)
    requires i <= |g.rows|
    ensures s <= i && Barren(g, s, i) && Empties(g, s, i) == Run(g, i)
    ensures s > 0 ==> g.rows[s - 1].Some? && !IsEmptyRow(g, s - 1)
  {
    if i == 0 || (g.rows[i - 1].Some? && !IsEmptyRow(g, i - 1)) {
      s := i;
    } else {
      s := RunStart(g, i - 1);
    }
  }

  lemma {:induction false} EmptiesAtMost(g: Grid, s: nat, e: nat)
    requires s <= e <= |g.rows|
    ensures Empties(g, s, e) <= e - s
    ensures (forall t :: s <= t < e ==> IsEmptyRow(g, t)) ==> Empties(g, s, e) == e - s
  {
    if s < e {
      EmptiesAtMost(g, s, e - 1);
    }
  }

  lemma {:induction false} EmptiesFrom(g: Grid, s: nat, t: nat, e: nat)
    requires s <= t <= e <= |g.rows|
    ensures Empties(g, t, e) <= Empties(g, s, e) <= Empties(g, t, e) + (t - s)
    decreases e
  {
    if t < e {
      EmptiesFrom(g, s, t, e - 1);
    } else {
      EmptiesAtMost(g, s, e);
    }
  }

  lemma RunTells(g: Grid, j: nat)
    requires j < |g.rows|
    ensures RunEnds(g, j) <==> IsEmptyRow(g, j) && Run(g, j + 1) >= 100
  {
    hide Run, Empties;
    var s := RunStart(g, j + 1);
    if RunEnds(g, j) {
      var t: nat :| t <= j && Exhausted(g, t, j);
      var before := if s > 0 then g.rows[s - 1] else None;
      EmptiesFrom(g, s, t, j + 1);
    }
    if IsEmptyRow(g, j) && Run(g, j + 1) >= 100 {
      EmptiesAtMost(g, s, j + 1);
      assert s <= j && Exhausted(g, s, j);
    }
  }

  lemma RunStep(g: Grid, i: nat)
    requires i < |g.rows|
    ensures Run(g, i + 1) ==
      if g.rows[i].None? then Run(g, i) else if IsEmptyRow(g, i) then Run(g, i) + 1 else 0
    ensures RunEnds(g, i) <==> IsEmptyRow(g, i) && Run(g, i + 1) >= 100
  {
    hide RunEnds;
    RunTells(g, i);
  }

  /** When every row can be read, the scan stops where a hundred consecutive empty rows end. */
  lemma StopsAfterHundredEmptyRows(g: Grid, j: nat)
    requires j < |g.rows| && forall i :: 0 <= i < |g.rows| ==> g.rows[i].Some?
    ensures RunEnds(g, j) <==> j >= 99 && forall t :: j - 99 <= t <= j ==> IsEmptyRow(g, t)
  {
    hide Empties;
    if RunEnds(g, j) {
      var s: nat :| s <= j && Exhausted(g, s, j);
      EmptiesAtMost(g, s, j + 1);
    }
    if j >= 99 && forall t :: j - 99 <= t <= j ==> IsEmptyRow(g, t) {
      EmptiesAtMost(g, j - 99, j + 1);
      assert Exhausted(g, j - 99, j);
    }
  }

  lemma RowAdds<C>(g: Grid, i: nat, mapRow: ParsedRow -> Result<C, string>, outcome: (nat, C) -> Option<string>)
    requires i < |g.rows|
    ensures Accepted(g, i + 1, mapRow) == Accepted(g, i, mapRow) + RowCandidates(g, i, mapRow)
    ensures Warnings(g, i + 1, mapRow, outcome) == Warnings(g, i, mapRow, outcome) + RowWarnings(g, i, mapRow, outcome, |Accepted(g, i, mapRow)|)
  {
  }

  lemma EmptyRowAddsNothing<C>(
    g: Grid, i: nat, mapRow: ParsedRow -> Result<C, string>, outcome: (nat, C) -> Option<string>, d: nat)
    requires i < |g.rows| && IsEmptyRow(g, i)
    ensures RowCandidates(g, i, mapRow) == [] && RowWarnings(g, i, mapRow, outcome, d) == []
  {
  }

  lemma LimitUnique(g: Grid, m: nat, n: nat)
    requires IsLimit(g, m) && IsLimit(g, n)
    ensures m == n
  {
    assert m < n ==> RunEnds(g, m - 1);
    assert n < m ==> RunEnds(g, n - 1);
  }

  lemma NothingScanned<C>(g: Grid, mapRow: ParsedRow -> Result<C, string>, outcome: (nat, C) -> Option<string>)
    ensures Run(g, 0) == 0 && Accepted(g, 0, mapRow) == [] && Warnings(g, 0, mapRow, outcome) == []
  {
  }

  // ----- the loops -----

  /** The part of either loop body that handles a row that was read and is not empty; `Err` is an
      exception of the mapping. */
  method HandleRow<C>(g: Grid, i: nat, rowValidator: RowValidationHelper, mapRow: ParsedRow -> Result<C, string>)
    returns (candidate: Result<Option<C>, string>, rejections: seq<Warning>)
    requires i < |g.rows| && g.rows[i].Some? && !IsEmptyRow(g, i)
    requires rowValidator.requiredHeaders == [] && rowValidator.headerCount == |g.headers|
    ensures RowCandidates(g, i, mapRow) == if candidate.Ok? && candidate.value.Some? then [candidate.value.value] else []
    ensures candidate.Ok? ==> forall outcome: (nat, C) -> Option<string>, d: nat ::
      RowWarnings(g, i, mapRow, outcome, d)
      == rejections + (if candidate.value.Some? && outcome(d, candidate.value.value).Some?
                       then [Threw(g.firstRow + i + 1, outcome(d, candidate.value.value).value)] else [])
    ensures candidate.Err? ==> forall outcome: (nat, C) -> Option<string>, d: nat ::
      RowWarnings(g, i, mapRow, outcome, d) == [Threw(g.firstRow + i + 1, candidate.error)]
  {
    hide AllEmpty, IsTrailingNoteRow, Errors, Parsed;
    if IsTrailingNoteRow(g.rows[i].value) {
      return Ok(None), [];
    }
    var errors := rowValidator.ValidateRow(Raw(g, i));
    if |errors| > 0 {
      return Ok(None), Rejections(errors);
    }
    var data := rowValidator.ParseRow(Raw(g, i));
    var mapped := mapRow(ParsedRow(Raw(g, i).rowIndex, data));
    match mapped
    case Ok(c) => return Ok(Some(c)), [];
    case Err(message) => return Err(message), [];
  }

  /** One pass of either loop over a row that is not empty, with its `catch`; the collecting loop
      has a callback that only pushes. */
  method ProcessRow<C>(
    g: Grid, i: nat, rowValidator: RowValidationHelper,
    mapRow: ParsedRow -> Result<C, string>, outcome: (nat, C) -> Option<string>, d: nat)
    returns (delivered: seq<C>, warnings: seq<Warning>)
    requires i < |g.rows| && !IsEmptyRow(g, i)
    requires rowValidator.requiredHeaders == [] && rowValidator.headerCount == |g.headers|
    ensures delivered == RowCandidates(g, i, mapRow)
    ensures warnings == RowWarnings(g, i, mapRow, outcome, d)
  {
    if g.rows[i].None? {
      return [], [Threw(g.firstRow + i + 1, INVALID_TIME)];
    }
    hide RowCandidates, RowWarnings;
    var candidate, rejections := HandleRow(g, i, rowValidator, mapRow);
    match candidate
    case Err(message) => return [], [Threw(g.firstRow + i + 1, message)];
    case Ok(None) => return [], rejections;
    case Ok(Some(c)) =>
      if outcome(d, c).Some? {
        return [c], rejections + [Threw(g.firstRow + i + 1, outcome(d, c).value)];
      }
      return [c], rejections;
  }

  datatype SheetResult<+C> = SheetResult(processedRows: nat, candidates: seq<C>, warnings: seq<Warning>)

  /** A callback that never throws, as the push of the collecting loop. */
  function Quiet<C>(): (nat, C) -> Option<string> { (d: nat, c: C) => None }

  /** The result of a scan over `g`. */
  ghost predicate Scanned<C>(
    g: Grid, mapRow: ParsedRow -> Result<C, string>, outcome: (nat, C) -> Option<string>, r: SheetResult<C>)
  {
    && IsLimit(g, r.processedRows)
    && r.candidates == Accepted(g, r.processedRows, mapRow)
    && r.warnings == Warnings(g, r.processedRows, mapRow, outcome)
  }

  lemma EmptyIsRead(g: Grid, i: nat)
    requires i < |g.rows| && IsEmptyRow(g, i)
    ensures g.rows[i].Some?
  {
  }

  /** The row loop of `processSheet`. */
  method CollectRows<C>(g: Grid, rowValidator: RowValidationHelper, mapRow: ParsedRow -> Result<C, string>)
    returns (r: SheetResult<C>)
    requires rowValidator.requiredHeaders == [] && rowValidator.headerCount == |g.headers|
    ensures Scanned(g, mapRow, Quiet(), r)
  {
    hide RunEnds, Run, Accepted, Warnings, RowCandidates, RowWarnings, IsEmptyRow;
    var processedRows: nat, candidates: seq<C>, warnings: seq<Warning> := 0, [], [];
    NothingScanned(g, mapRow, Quiet());
    var consecutiveEmptyRows := 0;
    while processedRows < |g.rows|
      invariant processedRows <= |g.rows|
      invariant consecutiveEmptyRows == Run(g, processedRows) < 100
      invariant forall j :: 0 <= j < processedRows ==> !RunEnds(g, j)
      invariant candidates == Accepted(g, processedRows, mapRow)
      invariant warnings == Warnings(g, processedRows, mapRow, Quiet())
    {
      var i := processedRows;
      RunStep(g, i);
      RowAdds(g, i, mapRow, Quiet());
      processedRows := processedRows + 1;
      if IsEmptyRow(g, i) {
        EmptyRowAddsNothing(g, i, mapRow, Quiet(), |candidates|);
        EmptyIsRead(g, i);
        consecutiveEmptyRows := consecutiveEmptyRows + 1;
        if consecutiveEmptyRows >= MAX_CONSECUTIVE_EMPTY_ROWS {
          break;
        }
        continue;
      } else if g.rows[i].Some? {
        consecutiveEmptyRows := 0;
      }
      var found, more := ProcessRow(g, i, rowValidator, mapRow, Quiet(), |candidates|);
      candidates := candidates + found;
      warnings := warnings + more;
    }
    r := SheetResult(processedRows, candidates, warnings);
  }

  /** The row loop of `processSheetWithBackpressure`. */
  method DeliverRows<C>(
    g: Grid, rowValidator: RowValidationHelper,
    mapRow: ParsedRow -> Result<C, string>, outcome: (nat, C) -> Option<string>)
    returns (r: SheetResult<C>)
    requires rowValidator.requiredHeaders == [] && rowValidator.headerCount == |g.headers|
    ensures Scanned(g, mapRow, outcome, r)
  {
    hide RunEnds, Run, Accepted, Warnings, RowCandidates, RowWarnings, IsEmptyRow;
    var processedRows: nat, delivered: seq<C>, warnings: seq<Warning> := 0, [], [];
    NothingScanned(g, mapRow, outcome);
    var consecutiveEmptyRows := 0;
    while processedRows < |g.rows|
      invariant processedRows <= |g.rows|
      invariant consecutiveEmptyRows == Run(g, processedRows) < 100
      invariant forall j :: 0 <= j < processedRows ==> !RunEnds(g, j)
      invariant delivered == Accepted(g, processedRows, mapRow)
      invariant warnings == Warnings(g, processedRows, mapRow, outcome)
    {
      var i := processedRows;
      RunStep(g, i);
      RowAdds(g, i, mapRow, outcome);
      processedRows := processedRows + 1;
      if IsEmptyRow(g, i) {
        EmptyRowAddsNothing(g, i, mapRow, outcome, |delivered|);
        EmptyIsRead(g, i);
        consecutiveEmptyRows := consecutiveEmptyRows + 1;
        if consecutiveEmptyRows >= MAX_CONSECUTIVE_EMPTY_ROWS {
          break;
        }
        continue;
      } else if g.rows[i].Some? {
        consecutiveEmptyRows := 0;
      }
      var found, more := ProcessRow(g, i, rowValidator, mapRow, outcome, |delivered|);
      delivered := delivered + found;
      warnings := warnings + more;
    }
    r := SheetResult(processedRows, delivered, warnings);
  }

  /** What either sheet method returns: nothing without a range or a header row, an exception if
      the search for the header meets an unreadable cell, and else the scan below the header. */
  ghost predicate SheetOutcome<C>(
    sheet: Option<Sheet>, mapRow: ParsedRow -> Result<C, string>, outcome: (nat, C) -> Option<string>,
    r: Result<SheetResult<C>, ReadError>)
  {
    if sheet.Some? && !ScanIsReadable(sheet.value) then r == Err(InvalidDate)
    else if SheetGrid(sheet).None? then r == Ok(SheetResult(0, [], []))
    else r.Ok? && Scanned(SheetGrid(sheet).value, mapRow, outcome, r.value)
  }

  method ProcessSheet<C>(
    sheet: Option<Sheet>, rowValidator: RowValidationHelper, mapRow: ParsedRow -> Result<C, string>)
    returns (r: Result<SheetResult<C>, ReadError>)
    requires rowValidator.requiredHeaders == []
    modifies rowValidator`headerCount
    ensures SheetOutcome(sheet, mapRow, Quiet(), r)
  {
    hide HeaderRow, ScannedRows, ScanIsReadable, GridBelow, Scanned;
    if sheet.None? { return Ok(SheetResult(0, [], [])); }
    var headerRowNumber := DetectHeaderRowNumber(sheet.value);
    if headerRowNumber.Err? { return Err(headerRowNumber.error); }
    if headerRowNumber.value.None? { return Ok(SheetResult(0, [], [])); }
    var g := GridBelow(sheet.value, headerRowNumber.value.value);
    rowValidator.SetHeaderCount(|g.headers|);
    var collected := CollectRows(g, rowValidator, mapRow);
    return Ok(collected);
  }

  /** The same with a callback that is awaited for each candidate. */
  method ProcessSheetWithBackpressure<C>(
    sheet: Option<Sheet>, rowValidator: RowValidationHelper,
    mapRow: ParsedRow -> Result<C, string>, outcome: (nat, C) -> Option<string>)
    returns (r: Result<SheetResult<C>, ReadError>)
    requires rowValidator.requiredHeaders == []
    modifies rowValidator`headerCount
    ensures SheetOutcome(sheet, mapRow, outcome, r)
  {
    hide HeaderRow, ScannedRows, ScanIsReadable, GridBelow, Scanned;
    if sheet.None? { return Ok(SheetResult(0, [], [])); }
    var headerRowNumber := DetectHeaderRowNumber(sheet.value);
    if headerRowNumber.Err? { return Err(headerRowNumber.error); }
    if headerRowNumber.value.None? { return Ok(SheetResult(0, [], [])); }
    var g := GridBelow(sheet.value, headerRowNumber.value.value);
    rowValidator.SetHeaderCount(|g.headers|);
    var delivered := DeliverRows(g, rowValidator, mapRow, outcome);
    return Ok(delivered);
  }

  // ----- what the scan delivers -----

  /** The parsed data rows among the first `n`, in row order. */
  function DataRows(g: Grid, n: nat): seq<ParsedRow>
    requires n <= |g.rows|
  {
    if n == 0 then [] else DataRows(g, n - 1) + (if IsData(g, n - 1) then [ParsedAt(g, n - 1)] else [])
  }

  /** The candidates of those rows the mapping does not throw on. */
  function Mapped<C>(rows: seq<ParsedRow>, mapRow: ParsedRow -> Result<C, string>): seq<C> {
    if rows == [] then []
    else
      var last := mapRow(rows[|rows| - 1]);
      Mapped(rows[..|rows| - 1], mapRow) + (if last.Ok? then [last.value] else [])
  }

  /** The exceptions among the first `n` rows: of reading, mapping, or the callback. */
  function Throws<C>(g: Grid, n: nat, mapRow: ParsedRow -> Result<C, string>, outcome: (nat, C) -> Option<string>): seq<Warning>
    requires n <= |g.rows|
  {
    if n == 0 then []
    else
      Throws(g, n - 1, mapRow, outcome)
      + (if g.rows[n - 1].None? then [Threw(g.firstRow + n, INVALID_TIME)]
         else if IsData(g, n - 1) then Exceptions(g, n - 1, mapRow, outcome, |Mapped(DataRows(g, n - 1), mapRow)|) else [])
  }

  lemma DataRowIsAccepted(g: Grid, i: nat)
    requires Rectangular(g) && i < |g.rows| && IsData(g, i)
    ensures RowErrors(g, i) == []
  {
    var row := g.rows[i].value;
    var k :| 0 <= k < |row| && !IsEmpty(row[k]);
    assert Raw(g, i).values[k] == row[k];
    FullRowIsAccepted(Raw(g, i));
  }

  lemma MappedPush<C>(rows: seq<ParsedRow>, row: ParsedRow, mapRow: ParsedRow -> Result<C, string>)
    ensures Mapped(rows + [row], mapRow) == Mapped(rows, mapRow) + (if mapRow(row).Ok? then [mapRow(row).value] else [])
  {
    assert (rows + [row])[..|rows|] == rows;
  }

  lemma NothingMapped<C>(mapRow: ParsedRow -> Result<C, string>)
    ensures Mapped([], mapRow) == []
  {
  }

  /** Below a header row the validator can reject nothing: every data row is mapped and delivered,
      in row order, and all warnings are exceptions of reading, of the mapping or of the callback. */
  lemma {:induction false} ScanDeliversDataRows<C>(
    g: Grid, n: nat, mapRow: ParsedRow -> Result<C, string>, outcome: (nat, C) -> Option<string>)
    requires Rectangular(g) && n <= |g.rows|
    ensures Accepted(g, n, mapRow) == Mapped(DataRows(g, n), mapRow)
    ensures Warnings(g, n, mapRow, outcome) == Throws(g, n, mapRow, outcome)
  {
    hide AllEmpty, IsTrailingNoteRow, Errors, Parsed, Mapped;
    if n == 0 {
      NothingMapped(mapRow);
    } else {
      ScanDeliversDataRows(g, n - 1, mapRow, outcome);
      if IsData(g, n - 1) {
        DataRowIsAccepted(g, n - 1);
        MappedPush(DataRows(g, n - 1), ParsedAt(g, n - 1), mapRow);
      } else {
        assert DataRows(g, n) == DataRows(g, n - 1);
      }
    }
  }

  lemma {:induction false} SameWarnings<C(!new)>(
    g: Grid, n: nat, mapRow: ParsedRow -> Result<C, string>, a: (nat, C) -> Option<string>, b: (nat, C) -> Option<string>)
    requires n <= |g.rows| && forall d: nat, c :: a(d, c) == b(d, c)
    ensures Warnings(g, n, mapRow, a) == Warnings(g, n, mapRow, b)
  {
    hide IsData, ParsedAt, RowErrors, Rejections;
    if n > 0 {
      SameWarnings(g, n - 1, mapRow, a, b);
    }
  }

  lemma {:induction false} NoThrows<C(!new)>(
    g: Grid, n: nat, mapRow: ParsedRow -> Result<C, string>, outcome: (nat, C) -> Option<string>)
    requires n <= |g.rows| && (forall i :: 0 <= i < n ==> g.rows[i].Some?)
    requires (forall row :: mapRow(row).Ok?) && forall d: nat, c :: outcome(d, c).None?
    ensures Throws(g, n, mapRow, outcome) == []
    ensures |Mapped(DataRows(g, n), mapRow)| == |DataRows(g, n)|
    ensures forall k :: 0 <= k < |DataRows(g, n)| ==>
      mapRow(DataRows(g, n)[k]) == Ok(Mapped(DataRows(g, n), mapRow)[k])
  {
    hide IsData, ParsedAt, Mapped;
    if n == 0 {
      NothingMapped(mapRow);
    } else {
      NoThrows(g, n - 1, mapRow, outcome);
      if IsData(g, n - 1) {
        MappedPush(DataRows(g, n - 1), ParsedAt(g, n - 1), mapRow);
      } else {
        assert DataRows(g, n) == DataRows(g, n - 1);
      }
    }
  }

  /** Rows are delivered in strictly increasing row order. */
  lemma {:induction false} DataRowsAscend(g: Grid, n: nat, i: nat, j: nat)
    requires n <= |g.rows| && i < |DataRows(g, n)|
    ensures g.firstRow < DataRows(g, n)[i].rowIndex <= g.firstRow + n
    ensures i < j < |DataRows(g, n)| ==> DataRows(g, n)[i].rowIndex < DataRows(g, n)[j].rowIndex
    decreases n
  {
    var before := DataRows(g, n - 1);
    if i < |before| {
      DataRowsAscend(g, n - 1, i, if j < |before| then j else i);
    }
  }

  /** The two sheet methods agree on every sheet: both throw or neither does; they process the
      same rows and hand over the same candidates whatever the callback does, namely the mapped
      data rows of the processed part; and if the callback never throws their warnings agree. */
  lemma BothLoopsAgree<C(!new)>(
    sheet: Option<Sheet>, mapRow: ParsedRow -> Result<C, string>, outcome: (nat, C) -> Option<string>,
    collected: Result<SheetResult<C>, ReadError>, delivered: Result<SheetResult<C>, ReadError>)
    requires SheetOutcome(sheet, mapRow, Quiet(), collected)
    requires SheetOutcome(sheet, mapRow, outcome, delivered)
    ensures collected.Ok? <==> sheet.None? || ScanIsReadable(sheet.value)
    ensures collected.Ok? <==> delivered.Ok?
    ensures collected.Ok? ==>
      && collected.value.processedRows == delivered.value.processedRows
      && collected.value.candidates == delivered.value.candidates
      && (SheetGrid(sheet).Some? ==>
            var g, n := SheetGrid(sheet).value, collected.value.processedRows;
            && IsLimit(g, n)
            && collected.value.candidates == Mapped(DataRows(g, n), mapRow)
            && delivered.value.warnings == Throws(g, n, mapRow, outcome))
      && (SheetGrid(sheet).None? ==> collected.value == SheetResult(0, [], []))
    ensures (forall d: nat, c :: outcome(d, c).None?) ==> collected == delivered
  {
    hide SheetGrid, ScanIsReadable, Accepted, Warnings, Throws, Mapped, DataRows, RunEnds, Rectangular;
    if collected.Ok? && SheetGrid(sheet).Some? {
      var g, n := SheetGrid(sheet).value, collected.value.processedRows;
      LimitUnique(g, n, delivered.value.processedRows);
      ScanDeliversDataRows(g, n, mapRow, outcome);
      if forall d: nat, c :: outcome(d, c).None? {
        SameWarnings(g, n, mapRow, Quiet(), outcome);
      }
    }
  }

  /** With readable rows, a mapping and a callback that do not throw, there is no warning at all
      and one candidate for each data row, in row order. */
  lemma CleanScan<C(!new)>(
    g: Grid, mapRow: ParsedRow -> Result<C, string>, outcome: (nat, C) -> Option<string>, r: SheetResult<C>)
    requires Rectangular(g) && Scanned(g, mapRow, outcome, r)
    requires forall i :: 0 <= i < |g.rows| ==> g.rows[i].Some?
    requires (forall row :: mapRow(row).Ok?) && forall d: nat, c :: outcome(d, c).None?
    ensures r.warnings == []
    ensures var rows := DataRows(g, r.processedRows);
      |r.candidates| == |rows| && forall k :: 0 <= k < |rows| ==> mapRow(rows[k]) == Ok(r.candidates[k])
  {
    ScanDeliversDataRows(g, r.processedRows, mapRow, outcome);
    NoThrows(g, r.processedRows, mapRow, outcome);
  }

  lemma LastIndexReaches(cells: seq<Cell>, j: nat)
    requires j < |cells| && !IsEmpty(cells[j])
    ensures FindLastNonEmptyIndex(cells) >= j
  {
  }

  /** A header row that is found has at least one header. */
  lemma HeaderIsNotEmpty(sheet: Sheet)
    requires SheetGrid(Some(sheet)).Some?
    ensures SheetGrid(Some(sheet)).value.headers != []
  {
    hide HeaderRow, ScannedRows, IsEmpty, FindLastNonEmptyIndex, NormalizeXlsxHeaders, RowsBelow;
    var rows := ScannedRows(sheet);
    HeaderRowExists(rows);
    var i, j :| 0 <= i < |rows| && 0 <= j < |rows[i].values|
                && rows[i].rowNumber == HeaderRow(rows).value && !IsEmpty(rows[i].values[j]);
    assert rows[i] == ScannedRow(sheet, sheet.startRow + i);
    LastIndexReaches(rows[i].values, j);
  }
}
