/** The header row of a sheet in terms of its cells. */
module XlsxHeaderCells {
  import opened Options
  import opened Sequences
  import opened RowValidation
  import opened XlsxHeader

  // ----- counting cells -----

  ghost function Filled(sheet: Sheet, row: nat): nat {
    |set c: nat | sheet.startColumn <= c <= sheet.endColumn && !IsEmpty(CellAt(sheet, row, c))|
  }

  ghost function Texts(sheet: Sheet, row: nat): nat {
    |set c: nat | sheet.startColumn <= c <= sheet.endColumn
                  && CellAt(sheet, row, c).Text? && !IsEmpty(CellAt(sheet, row, c))|
  }

  ghost function Numbers(sheet: Sheet, row: nat): nat {
    |set c: nat | sheet.startColumn <= c <= sheet.endColumn && CellAt(sheet, row, c).Number?|
  }

  ghost function Columns(sheet: Sheet, row: nat, p: Cell -> bool, n: nat): set<nat> {
    set c: nat | sheet.startColumn <= c < sheet.startColumn + n && p(CellAt(sheet, row, c))
  }

  lemma ReadOneMore(sheet: Sheet, row: nat, n: nat)
    requires n > 0
    ensures var start := sheet.startColumn;
      ReadRowValues(sheet, row, start, start + n - 1)
      == ReadRowValues(sheet, row, start, start + n - 2) + [CellAt(sheet, row, start + n - 1)]
  {
    hide CellAt;
  }

  lemma ColumnsPush(sheet: Sheet, row: nat, p: Cell -> bool, n: nat)
    requires n > 0
    ensures var c := sheet.startColumn + n - 1;
      |Columns(sheet, row, p, n)| == |Columns(sheet, row, p, n - 1)| + (if p(CellAt(sheet, row, c)) then 1 else 0)
  {
    hide CellAt;
    var c := sheet.startColumn + n - 1;
    assert Columns(sheet, row, p, n)
        == Columns(sheet, row, p, n - 1) + (if p(CellAt(sheet, row, c)) then {c} else {});
  }

  lemma {:induction false} CountColumns(sheet: Sheet, row: nat, p: Cell -> bool, n: nat)
    ensures Count(p, ReadRowValues(sheet, row, sheet.startColumn, sheet.startColumn + n - 1))
         == |Columns(sheet, row, p, n)|
  {
    if n == 0 {
      assert Columns(sheet, row, p, 0) == {};
    } else {
      hide CellAt, ReadRowValues, Columns, Count;
      var c := sheet.startColumn + n - 1;
      CountColumns(sheet, row, p, n - 1);
      ReadOneMore(sheet, row, n);
      CountPush(p, ReadRowValues(sheet, row, sheet.startColumn, c - 1), CellAt(sheet, row, c));
      ColumnsPush(sheet, row, p, n);
    }
  }

  /** The scan covers the first hundred rows of the range, in order, and describes each by the
      numbers of its filled cells, texts and numbers in the columns of the range. */
  lemma ScannedRowsAre(sheet: Sheet, i: nat)
    requires i < |ScannedRows(sheet)|
    ensures sheet.startRow + i <= sheet.endRow
    ensures |ScannedRows(sheet)| == if sheet.endRow - sheet.startRow >= 100 then 100 else sheet.endRow - sheet.startRow + 1
    ensures var row := ScannedRows(sheet)[i];
      && row.rowNumber == sheet.startRow + i
      && row.nonEmptyCount == Filled(sheet, sheet.startRow + i)
      && row.stringCount == Texts(sheet, sheet.startRow + i)
      && row.numericCount == Numbers(sheet, sheet.startRow + i)
  {
    hide Count, CellAt, IsEmpty;
    var row := sheet.startRow + i;
    var n: nat := if sheet.endColumn < sheet.startColumn then 0 else sheet.endColumn - sheet.startColumn + 1;
    assert ReadRowValues(sheet, row, sheet.startColumn, sheet.endColumn)
        == ReadRowValues(sheet, row, sheet.startColumn, sheet.startColumn + n - 1);
    CountColumns(sheet, row, NON_EMPTY, n);
    CountColumns(sheet, row, NON_EMPTY_TEXT, n);
    CountColumns(sheet, row, IS_NUMBER, n);
    assert Columns(sheet, row, NON_EMPTY, n)
        == set c: nat | sheet.startColumn <= c <= sheet.endColumn && !IsEmpty(CellAt(sheet, row, c));
    assert Columns(sheet, row, NON_EMPTY_TEXT, n)
        == set c: nat | sheet.startColumn <= c <= sheet.endColumn
                        && CellAt(sheet, row, c).Text? && !IsEmpty(CellAt(sheet, row, c));
    assert Columns(sheet, row, IS_NUMBER, n)
        == set c: nat | sheet.startColumn <= c <= sheet.endColumn && CellAt(sheet, row, c).Number?;
  }

  /** A row of the sheet the scan looks at. */
  predicate InScan(sheet: Sheet, row: nat) {
    sheet.startRow <= row <= sheet.endRow && row < sheet.startRow + 100
  }

  lemma ScanCovers(sheet: Sheet, row: nat)
    requires InScan(sheet, row)
    ensures row - sheet.startRow < |ScannedRows(sheet)|
  {
    hide ScannedRow;
  }

  // ----- candidates and their successors -----

  ghost predicate IsCandidateRow(sheet: Sheet, row: nat) {
    InScan(sheet, row) && Filled(sheet, row) >= 2
  }

  /** `next` is the first candidate below the candidate `row`. */
  ghost predicate IsNext(sheet: Sheet, row: nat, next: nat) {
    && IsCandidateRow(sheet, row) && IsCandidateRow(sheet, next) && row < next
    && forall between :: row < between < next ==> !IsCandidateRow(sheet, between)
  }

  ghost predicate Ascending(rows: seq<RowData>) {
    forall i, j :: 0 <= i < j < |rows| ==> rows[i].rowNumber < rows[j].rowNumber
  }

  lemma {:induction false} FilterAscends(p: RowData -> bool, rows: seq<RowData>)
    requires Ascending(rows)
    ensures Ascending(Filter(p, rows))
  {
    if rows != [] {
      FilterAscends(p, rows[1..]);
      FilterMembers(p, rows[1..]);
      var rest := Filter(p, rows[1..]);
      forall k | 0 <= k < |rest| ensures rows[0].rowNumber < rest[k].rowNumber {
        assert rest[k] in rows[1..];
      }
    }
  }

  lemma ScanAscends(sheet: Sheet)
    ensures Ascending(ScannedRows(sheet))
  {
    hide ScannedRows, Filled, Texts, Numbers;
    forall i: nat, j: nat | i < j < |ScannedRows(sheet)|
      ensures ScannedRows(sheet)[i].rowNumber < ScannedRows(sheet)[j].rowNumber
    {
      ScannedRowsAre(sheet, i);
      ScannedRowsAre(sheet, j);
    }
  }

  ghost predicate DescribesCells(sheet: Sheet, row: RowData) {
    && row.nonEmptyCount == Filled(sheet, row.rowNumber)
    && row.stringCount == Texts(sheet, row.rowNumber)
    && row.numericCount == Numbers(sheet, row.rowNumber)
  }

  /** A filtered scan row is a scanned row of the sheet. */
  lemma FilteredRows(sheet: Sheet, p: RowData -> bool)
    ensures forall i :: 0 <= i < |Filter(p, ScannedRows(sheet))| ==>
      var row := Filter(p, ScannedRows(sheet))[i];
      p(row) && InScan(sheet, row.rowNumber) && DescribesCells(sheet, row)
  {
    hide ScannedRow, Filled, Texts, Numbers, ScanEnd, Filter;
    var rows := ScannedRows(sheet);
    FilterMembers(p, rows);
    forall i | 0 <= i < |Filter(p, rows)|
      ensures var row := Filter(p, rows)[i]; p(row) && InScan(sheet, row.rowNumber) && DescribesCells(sheet, row)
    {
      assert Filter(p, rows)[i] in rows;
      var k :| 0 <= k < |rows| && rows[k] == Filter(p, rows)[i];
      ScannedRowsAre(sheet, k);
    }
  }

  /** And all of those that qualify are there. */
  lemma FilteredAt(sheet: Sheet, p: RowData -> bool, row: nat) returns (i: nat)
    requires InScan(sheet, row) && p(ScannedRow(sheet, row))
    ensures i < |Filter(p, ScannedRows(sheet))| && Filter(p, ScannedRows(sheet))[i] == ScannedRow(sheet, row)
  {
    hide ScannedRow, Filter;
    var rows := ScannedRows(sheet);
    FilterMembers(p, rows);
    ScanCovers(sheet, row);
    assert rows[row - sheet.startRow] == ScannedRow(sheet, row);
    assert ScannedRow(sheet, row) in Filter(p, rows);
    i :| 0 <= i < |Filter(p, rows)| && Filter(p, rows)[i] == ScannedRow(sheet, row);
  }

  lemma ScannedRowIs(sheet: Sheet, row: nat)
    requires InScan(sheet, row)
    ensures ScannedRow(sheet, row).rowNumber == row && DescribesCells(sheet, ScannedRow(sheet, row))
  {
    hide ScannedRow, Filled, Texts, Numbers;
    ScanCovers(sheet, row);
    ScannedRowsAre(sheet, row - sheet.startRow);
    assert ScannedRows(sheet)[row - sheet.startRow] == ScannedRow(sheet, row);
  }

  /** Every candidate row of the sheet is among the candidates. */
  lemma CandidateAt(sheet: Sheet, row: nat) returns (i: nat)
    requires IsCandidateRow(sheet, row)
    ensures i < |Candidates(ScannedRows(sheet))| && Candidates(ScannedRows(sheet))[i].rowNumber == row
  {
    hide ScannedRow, Filled, ScannedRows, Filter;
    ScannedRowIs(sheet, row);
    i := FilteredAt(sheet, IS_CANDIDATE, row);
  }

  lemma CandidatesAre(sheet: Sheet)
    ensures Ascending(Candidates(ScannedRows(sheet)))
    ensures forall i :: 0 <= i < |Candidates(ScannedRows(sheet))| ==>
      var row := Candidates(ScannedRows(sheet))[i];
      IsCandidateRow(sheet, row.rowNumber) && DescribesCells(sheet, row)
  {
    hide ScannedRows, Filled, Texts, Numbers, Filter;
    ScanAscends(sheet);
    FilterAscends(IS_CANDIDATE, ScannedRows(sheet));
    FilteredRows(sheet, IS_CANDIDATE);
  }

  /** Neighbouring candidates are a row and its next, and the other way round. */
  lemma NeighboursAreNext(sheet: Sheet, i: nat)
    requires i + 1 < |Candidates(ScannedRows(sheet))|
    ensures var c := Candidates(ScannedRows(sheet)); IsNext(sheet, c[i].rowNumber, c[i + 1].rowNumber)
  {
    hide ScannedRows, IsCandidateRow, Candidates, DescribesCells;
    var c := Candidates(ScannedRows(sheet));
    CandidatesAre(sheet);
    forall between: nat | c[i].rowNumber < between < c[i + 1].rowNumber ensures !IsCandidateRow(sheet, between) {
      if IsCandidateRow(sheet, between) {
        var k := CandidateAt(sheet, between);
      }
    }
  }

  lemma NextAreNeighbours(sheet: Sheet, row: nat, next: nat) returns (i: nat)
    requires IsNext(sheet, row, next)
    ensures var c := Candidates(ScannedRows(sheet));
      i + 1 < |c| && c[i].rowNumber == row && c[i + 1].rowNumber == next
  {
    hide ScannedRows, IsCandidateRow, Candidates, DescribesCells;
    var c := Candidates(ScannedRows(sheet));
    CandidatesAre(sheet);
    i := CandidateAt(sheet, row);
    var k := CandidateAt(sheet, next);
    assert i < k;
    var second := c[i + 1].rowNumber;
    assert IsCandidateRow(sheet, second) && row < second <= next;
  }

  // ----- the header row -----

  /** What the transition from `row` to the candidate below it is worth. */
  ghost function Score(sheet: Sheet, row: nat, next: nat): real
    requires IsNext(sheet, row, next)
  {
    40.0 * Texts(sheet, row) as real / Filled(sheet, row) as real
    + (if Numbers(sheet, next) > Numbers(sheet, row) then 25.0 else 0.0)
    + (if 10 * Numbers(sheet, next) > 3 * Filled(sheet, next) then 15.0 else 0.0)
    + 5.0 * Filled(sheet, row) as real
    - 2.0 * (row - sheet.startRow) as real
  }

  lemma MoreThanThreeTenths(part: nat, whole: nat)
    requires whole > 0
    ensures part as real / whole as real > 0.3 <==> 10 * part > 3 * whole
  {
    var q := part as real / whole as real;
    assert q * whole as real == part as real;
    assert q > 0.3 ==> q * whole as real > 0.3 * whole as real;
    assert q <= 0.3 ==> q * whole as real <= 0.3 * whole as real;
  }

  lemma FortyTimes(part: nat, whole: nat)
    requires whole > 0
    ensures part as real / whole as real * 40.0 == 40.0 * part as real / whole as real
  {
    var q := part as real / whole as real;
    assert q * whole as real == part as real;
    assert (q * 40.0) * whole as real == 40.0 * part as real;
  }

  lemma NotEmptyScan(sheet: Sheet)
    ensures Candidates(ScannedRows(sheet)) != [] ==> ScannedRows(sheet) != []
  {
  }

  lemma ScoreIs(sheet: Sheet, i: nat)
    requires i + 1 < |Candidates(ScannedRows(sheet))|
    ensures var c := Candidates(ScannedRows(sheet));
      && IsNext(sheet, c[i].rowNumber, c[i + 1].rowNumber)
      && ScoreAt(ScannedRows(sheet), i) == Score(sheet, c[i].rowNumber, c[i + 1].rowNumber)
  {
    hide Candidates, Filled, Texts, Numbers;
    var rows, c := ScannedRows(sheet), Candidates(ScannedRows(sheet));
    NeighboursAreNext(sheet, i);
    CandidatesAre(sheet);
    NotEmptyScan(sheet);
    ScannedRowsAre(sheet, 0);
    hide ScannedRows;
    FortyTimes(c[i].stringCount, c[i].nonEmptyCount);
    MoreThanThreeTenths(c[i + 1].numericCount, c[i + 1].nonEmptyCount);
  }

  /** No transition of the sheet scores more than that from `row`, and none further up as much. */
  ghost predicate IsFirstBest(sheet: Sheet, row: nat, next: nat) {
    && IsNext(sheet, row, next)
    && forall r: nat, n: nat :: IsNext(sheet, r, n) ==>
         Score(sheet, r, n) <= Score(sheet, row, next) && (r < row ==> Score(sheet, r, n) < Score(sheet, row, next))
  }

  ghost predicate IsBestTransition(sheet: Sheet, row: nat) {
    exists next :: IsFirstBest(sheet, row, next)
  }

  lemma BestAgainst(sheet: Sheet, b: nat, r: nat, n: nat)
    requires IsFirstArgmax(ScannedRows(sheet), b) && IsNext(sheet, r, n)
    ensures var c := Candidates(ScannedRows(sheet));
      && b + 1 < |c| && IsNext(sheet, c[b].rowNumber, c[b + 1].rowNumber)
      && Score(sheet, r, n) <= Score(sheet, c[b].rowNumber, c[b + 1].rowNumber)
      && (r < c[b].rowNumber ==> Score(sheet, r, n) < Score(sheet, c[b].rowNumber, c[b + 1].rowNumber))
  {
    hide Candidates, ScannedRows, IsNext, Score, ScoreAt, DescribesCells, IsCandidateRow;
    var i := NextAreNeighbours(sheet, r, n);
    CandidatesAre(sheet);
    ScoreIs(sheet, i);
    ScoreIs(sheet, b);
  }

  lemma HeaderIsArgmax(rows: seq<RowData>) returns (b: nat)
    requires |Candidates(rows)| >= 2
    ensures b + 1 < |Candidates(rows)| && IsFirstArgmax(rows, b)
    ensures HeaderRow(rows) == Some(Candidates(rows)[b].rowNumber)
  {
    hide Candidates, ScoreAt, TransitionScores, FirstBest;
    CascadeIsHeaderRow(rows, 0);
    b :| IsFirstArgmax(rows, b) && HeaderRow(rows) == Some(Candidates(rows)[b].rowNumber);
  }

  lemma ArgmaxIsNext(sheet: Sheet, b: nat)
    requires IsFirstArgmax(ScannedRows(sheet), b)
    ensures var c := Candidates(ScannedRows(sheet));
      b + 1 < |c| && IsNext(sheet, c[b].rowNumber, c[b + 1].rowNumber)
  {
    hide ScannedRows, Candidates, IsNext, ScoreAt;
    NeighboursAreNext(sheet, b);
  }

  lemma BestIsHeader(sheet: Sheet)
    requires |Candidates(ScannedRows(sheet))| >= 2
    ensures HeaderRow(ScannedRows(sheet)).Some? && IsBestTransition(sheet, HeaderRow(ScannedRows(sheet)).value)
  {
    hide Candidates, ScannedRows, IsNext, Score, IsFirstArgmax, HeaderRow;
    var b := HeaderIsArgmax(ScannedRows(sheet));
    var c := Candidates(ScannedRows(sheet));
    ArgmaxIsNext(sheet, b);
    forall r: nat, n: nat | IsNext(sheet, r, n)
      ensures Score(sheet, r, n) <= Score(sheet, c[b].rowNumber, c[b + 1].rowNumber)
      ensures r < c[b].rowNumber ==> Score(sheet, r, n) < Score(sheet, c[b].rowNumber, c[b + 1].rowNumber)
    {
      BestAgainst(sheet, b, r, n);
    }
    assert IsFirstBest(sheet, c[b].rowNumber, c[b + 1].rowNumber);
  }

  lemma FallbackIs(sheet: Sheet)
    ensures var header := FallbackDetectHeader(ScannedRows(sheet));
      if header.None? then forall row: nat :: InScan(sheet, row) ==> Filled(sheet, row) == 0
      else InScan(sheet, header.value) && Filled(sheet, header.value) > 0
           && forall row: nat :: sheet.startRow <= row < header.value ==> Filled(sheet, row) == 0
  {
    hide ScannedRows, Filled, Texts, Numbers, Filter, ScannedRow;
    var f := Filter(HAS_CONTENT, ScannedRows(sheet));
    FilteredRows(sheet, HAS_CONTENT);
    ScanAscends(sheet);
    FilterAscends(HAS_CONTENT, ScannedRows(sheet));
    forall row: nat | InScan(sheet, row) && Filled(sheet, row) > 0
      ensures f != [] && f[0].rowNumber <= row
    {
      ScannedRowIs(sheet, row);
      var i := FilteredAt(sheet, HAS_CONTENT, row);
    }
  }

  /** With two candidate rows the header is the row of the first best transition; a single
      candidate is the header; and without one it is the first row with a filled cell. */
  lemma HeaderRowIs(sheet: Sheet)
    ensures var header := HeaderRow(ScannedRows(sheet));
      && ((exists a, b :: a < b && IsCandidateRow(sheet, a) && IsCandidateRow(sheet, b)) ==>
            header.Some? && IsBestTransition(sheet, header.value))
      && (forall a: nat :: IsCandidateRow(sheet, a) && (forall b: nat :: IsCandidateRow(sheet, b) ==> b == a) ==>
            header == Some(a))
      && ((forall a: nat :: !IsCandidateRow(sheet, a)) ==>
            if header.None? then forall row: nat :: InScan(sheet, row) ==> Filled(sheet, row) == 0
            else InScan(sheet, header.value) && Filled(sheet, header.value) > 0
                 && forall row: nat :: sheet.startRow <= row < header.value ==> Filled(sheet, row) == 0)
  {
    hide Candidates, ScannedRows, IsCandidateRow, Filled, Filter, DescribesCells, IsBestTransition;
    var c := Candidates(ScannedRows(sheet));
    CandidatesAre(sheet);
    assert |c| > 0 ==> IsCandidateRow(sheet, c[0].rowNumber);
    assert |c| > 1 ==> IsCandidateRow(sheet, c[1].rowNumber) && c[0].rowNumber < c[1].rowNumber;
    if a: nat, b: nat :| a < b && IsCandidateRow(sheet, a) && IsCandidateRow(sheet, b) {
      var i := CandidateAt(sheet, a);
      var j := CandidateAt(sheet, b);
      BestIsHeader(sheet);
    } else if a: nat :| IsCandidateRow(sheet, a) {
      var i := CandidateAt(sheet, a);
    } else {
      FallbackIs(sheet);
    }
  }

  // ----- a row of texts over data -----

  lemma {:induction false} SubsetIsSmaller(a: set<nat>, b: set<nat>)
    requires a <= b
    ensures |a| <= |b|
  {
    if a != {} {
      var x :| x in a;
      SubsetIsSmaller(a - {x}, b - {x});
    }
  }

  lemma TextsAndNumbers(sheet: Sheet, row: nat)
    ensures Texts(sheet, row) + Numbers(sheet, row) <= Filled(sheet, row)
  {
    var filled := set c: nat | sheet.startColumn <= c <= sheet.endColumn && !IsEmpty(CellAt(sheet, row, c));
    var texts := set c: nat | sheet.startColumn <= c <= sheet.endColumn
                              && CellAt(sheet, row, c).Text? && !IsEmpty(CellAt(sheet, row, c));
    var numbers := set c: nat | sheet.startColumn <= c <= sheet.endColumn && CellAt(sheet, row, c).Number?;
    assert texts * numbers == {};
    SubsetIsSmaller(texts + numbers, filled);
  }

  lemma TextRowScore(sheet: Sheet, next: nat)
    requires IsNext(sheet, sheet.startRow, next)
    requires Texts(sheet, sheet.startRow) == Filled(sheet, sheet.startRow)
    requires 10 * Numbers(sheet, next) > 3 * Filled(sheet, next)
    ensures Score(sheet, sheet.startRow, next) == 80.0 + 5.0 * Filled(sheet, sheet.startRow) as real
  {
    hide Texts, Filled, Numbers;
    TextsAndNumbers(sheet, sheet.startRow);
    var f := Filled(sheet, sheet.startRow) as real;
    assert 40.0 * f / f == 40.0;
  }

  lemma LessThanForty(part: nat, whole: nat)
    requires part < whole
    ensures 40.0 * part as real / whole as real < 40.0
  {
    var q := 40.0 * part as real / whole as real;
    assert q * whole as real == 40.0 * part as real;
    assert q >= 40.0 ==> q * whole as real >= 40.0 * whole as real;
  }

  lemma DataRowScore(sheet: Sheet, row: nat, next: nat)
    requires IsNext(sheet, row, next) && sheet.startRow < row && Numbers(sheet, row) > 0
    ensures Score(sheet, row, next) < 80.0 + 5.0 * Filled(sheet, row) as real
  {
    hide Texts, Filled, Numbers;
    TextsAndNumbers(sheet, row);
    LessThanForty(Texts(sheet, row), Filled(sheet, row));
  }

  lemma {:induction false} FirstBelow(sheet: Sheet, row: nat, below: nat) returns (next: nat)
    requires IsCandidateRow(sheet, row) && IsCandidateRow(sheet, below) && row < below
    ensures IsNext(sheet, row, next)
    decreases below
  {
    hide IsCandidateRow;
    if between: nat :| row < between < below && IsCandidateRow(sheet, between) {
      next := FirstBelow(sheet, row, between);
    } else {
      next := below;
    }
  }

  lemma OthersAreWorse(sheet: Sheet, header: nat, below: nat)
    requires IsBestTransition(sheet, header)
    requires IsCandidateRow(sheet, sheet.startRow) && IsCandidateRow(sheet, below) && sheet.startRow < below
    requires Texts(sheet, sheet.startRow) == Filled(sheet, sheet.startRow)
    requires forall row :: sheet.startRow < row && IsCandidateRow(sheet, row) ==>
      && Filled(sheet, row) <= Filled(sheet, sheet.startRow)
      && 10 * Numbers(sheet, row) > 3 * Filled(sheet, row)
    ensures header == sheet.startRow
  {
    hide Filled, Texts, Numbers, Score;
    var start := sheet.startRow;
    var second := FirstBelow(sheet, start, below);
    TextRowScore(sheet, second);
    var next :| IsFirstBest(sheet, header, next);
    assert Score(sheet, start, second) <= Score(sheet, header, next);
    if header != start {
      DataRowScore(sheet, header, next);
    }
  }

  /** A first row of two texts or more, and nothing else, is the header if every scanned row below
      it with two filled cells has no more of them, and numbers in over three tenths of them. */
  lemma TextRowOverDataIsHeader(sheet: Sheet)
    requires sheet.startRow <= sheet.endRow
    requires Filled(sheet, sheet.startRow) >= 2 && Texts(sheet, sheet.startRow) == Filled(sheet, sheet.startRow)
    requires forall row :: sheet.startRow < row && IsCandidateRow(sheet, row) ==>
      && Filled(sheet, row) <= Filled(sheet, sheet.startRow)
      && 10 * Numbers(sheet, row) > 3 * Filled(sheet, row)
    ensures HeaderRow(ScannedRows(sheet)) == Some(sheet.startRow)
  {
    hide Filled, Texts, Numbers, ScannedRows, Score, HeaderRow, IsNext, IsBestTransition;
    HeaderRowIs(sheet);
    var start := sheet.startRow;
    assert IsCandidateRow(sheet, start);
    if b: nat :| IsCandidateRow(sheet, b) && b != start {
      OthersAreWorse(sheet, HeaderRow(ScannedRows(sheet)).value, b);
    }
  }

  // ----- the tallies of the third strategy -----

  function TextIn(column: nat): RowData -> bool {
    (row: RowData) => column < |row.values| && row.values[column].Text? && !IsEmpty(row.values[column])
  }

  function NumberIn(column: nat): RowData -> bool {
    (row: RowData) => column < |row.values| && row.values[column].Number?
  }

  /** A column is tallied by the texts and the numbers of the candidates below the first. */
  lemma TallyIs(candidates: seq<RowData>, column: nat)
    requires candidates != []
    ensures var below, t := candidates[1..], TallyOf(candidates, column);
      && t.strings == |Positions(TextIn(column), below, |below|)|
      && t.numbers == |Positions(NumberIn(column), below, |below|)|
      && t.dates == 0
  {
    hide Count, IsEmpty;
    var below := candidates[1..];
    assert below[..|below|] == below;
    var texts := (r: RowData) => column < |r.values| && NON_EMPTY_TEXT(r.values[column]);
    var numbers := (r: RowData) => column < |r.values| && IS_NUMBER(r.values[column]);
    CountIs(texts, below, |below|);
    CountIs(numbers, below, |below|);
    assert Positions(texts, below, |below|) == Positions(TextIn(column), below, |below|);
    assert Positions(numbers, below, |below|) == Positions(NumberIn(column), below, |below|);
  }

  /** A text of the header matches where more than half of the column's tallied cells are texts. */
  ghost predicate StandsOverTexts(candidates: seq<RowData>, header: RowData, column: nat)
    requires candidates != []
  {
    var t := TallyOf(candidates, column);
    column < |header.values| && header.values[column].Text? && !IsEmpty(header.values[column])
    && 2 * t.strings > t.strings + t.numbers
  }

  ghost function MatchesBelow(candidates: seq<RowData>, header: RowData, n: nat, width: nat): set<nat>
    requires candidates != []
  {
    set c: nat | c < n && c < width && StandsOverTexts(candidates, header, c)
  }

  lemma MatchesIff(candidates: seq<RowData>, header: RowData, column: nat)
    requires candidates != [] && column < |header.values|
    ensures StandsOverTexts(candidates, header, column) <==> Matches(header.values[column], TallyOf(candidates, column))
  {
    hide IsEmpty, ColumnCount;
  }

  /** Those are the matching columns the third strategy counts. */
  lemma {:induction false} MatchingColumnsAre(candidates: seq<RowData>, header: RowData, n: nat, width: nat)
    requires candidates != [] && n <= |header.values|
    ensures MatchingColumns(candidates, header, n, width) == |MatchesBelow(candidates, header, n, width)|
  {
    hide StandsOverTexts, Matches, TallyOf;
    if n == 0 {
      assert MatchesBelow(candidates, header, 0, width) == {};
    } else {
      MatchingColumnsAre(candidates, header, n - 1, width);
      MatchesIff(candidates, header, n - 1);
      assert MatchesBelow(candidates, header, n, width)
          == MatchesBelow(candidates, header, n - 1, width)
             + (if n - 1 < width && StandsOverTexts(candidates, header, n - 1) then {n - 1} else {});
    }
  }
}
