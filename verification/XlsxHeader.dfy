/** Choosing the header row of a sheet: four scoring strategies and a fallback. */
module XlsxHeader {
  import opened Options
  import opened Sequences
  import opened RowValidation

  /** A worksheet with its used range; cells missing from the map read as empty. Reading a cell
      in `invalid` throws: it holds a date that is not a point in time. */
  datatype Sheet = Sheet(
    cells: map<(nat, nat), Cell>, invalid: set<(nat, nat)>,
    startRow: nat, endRow: nat, startColumn: nat, endColumn: nat)

  datatype ReadError = InvalidDate

  /** No cell of the row between the two columns, inclusive, throws. */
  predicate Readable(sheet: Sheet, row: nat, startColumn: nat, endColumn: int) {
    forall cell :: cell in sheet.invalid && cell.0 == row ==> !(startColumn <= cell.1 <= endColumn)
  }

  function CellAt(sheet: Sheet, row: nat, column: nat): Cell {
    if (row, column) in sheet.cells then sheet.cells[(row, column)] else Empty
  }

  function ReadRowValues(sheet: Sheet, row: nat, startColumn: nat, endColumn: int): (values: seq<Cell>)
    ensures |values| == if endColumn < startColumn then 0 else endColumn - startColumn + 1
  {
    if endColumn < startColumn then []
    else seq(endColumn - startColumn + 1, i requires 0 <= i => CellAt(sheet, row, startColumn + i))
  }

  datatype RowData = RowData(
    rowNumber: nat, values: seq<Cell>, nonEmptyCount: nat, stringCount: nat, numericCount: nat)

  const NON_EMPTY: Cell -> bool := (c: Cell) => !IsEmpty(c)
  const NON_EMPTY_TEXT: Cell -> bool := (c: Cell) => !IsEmpty(c) && c.Text?
  const IS_NUMBER: Cell -> bool := (c: Cell) => c.Number?

  function Describe(rowNumber: nat, values: seq<Cell>): RowData {
    RowData(rowNumber, values, Count(NON_EMPTY, values), Count(NON_EMPTY_TEXT, values), Count(IS_NUMBER, values))
  }

  /** The scan looks at the first hundred rows of the range. */
  function ScanEnd(sheet: Sheet): int {
    if sheet.endRow < sheet.startRow + 99 then sheet.endRow else sheet.startRow + 99
  }

  function ScannedRow(sheet: Sheet, row: nat): RowData {
    Describe(row, ReadRowValues(sheet, row, sheet.startColumn, sheet.endColumn))
  }

  function ScannedRows(sheet: Sheet): (rows: seq<RowData>)
    ensures forall i :: 0 <= i < |rows| ==> rows[i] == ScannedRow(sheet, sheet.startRow + i)
  {
    if ScanEnd(sheet) < sheet.startRow then []
    else
      seq(ScanEnd(sheet) - sheet.startRow + 1, i requires 0 <= i =>
        ScannedRow(sheet, sheet.startRow + i))
  }

  predicate ScanIsReadable(sheet: Sheet) {
    forall row :: sheet.startRow <= row <= ScanEnd(sheet) ==>
      Readable(sheet, row, sheet.startColumn, sheet.endColumn)
  }

  /** The scanning loop; an exception while reading a cell leaves it. */
  method ScanRows(sheet: Sheet) returns (r: Result<seq<RowData>, ReadError>)
    ensures r == if ScanIsReadable(sheet) then Ok(ScannedRows(sheet)) else Err(InvalidDate)
  {
    hide Readable, ScannedRow;
    var rows := [];
    var rowNumber := sheet.startRow;
    while rowNumber <= ScanEnd(sheet)
      invariant |rows| == rowNumber - sheet.startRow <= |ScannedRows(sheet)|
      invariant sheet.startRow < rowNumber ==> rowNumber <= ScanEnd(sheet) + 1
      invariant rows == ScannedRows(sheet)[..|rows|]
      invariant forall row :: sheet.startRow <= row < rowNumber ==>
        Readable(sheet, row, sheet.startColumn, sheet.endColumn)
    {
      if !Readable(sheet, rowNumber, sheet.startColumn, sheet.endColumn) { return Err(InvalidDate); }
      rows := rows + [ScannedRow(sheet, rowNumber)];
      rowNumber := rowNumber + 1;
    }
    assert ScannedRows(sheet)[..|rows|] == ScannedRows(sheet);
    return Ok(rows);
  }

  // ----- the first best row of a score table -----

  /** The first index with the greatest score. */
  function FirstBest(scores: seq<real>): (b: nat)
    requires scores != []
    ensures b < |scores|
    ensures forall j :: 0 <= j < |scores| ==> scores[j] <= scores[b]
    ensures forall j :: 0 <= j < b ==> scores[j] < scores[b]
  {
    var last := |scores| - 1;
    if last == 0 then 0
    else
      var b := FirstBest(scores[..last]);
      assert forall j :: 0 <= j < last ==> scores[..last][j] == scores[j];
      if scores[last] > scores[b] then last else b
  }

  /** The best of the first `n` scores and its row; `None` stands for a best score of minus infinity. */
  predicate IsBest(candidates: seq<RowData>, scores: seq<real>, n: nat, bestScore: Option<real>, bestRow: Option<nat>)
    requires n <= |scores| <= |candidates|
  {
    if n == 0 then bestScore == None && bestRow == None
    else
      && bestScore == Some(scores[FirstBest(scores[..n])])
      && bestRow == Some(candidates[FirstBest(scores[..n])].rowNumber)
  }

  /** The step both scoring loops end with. */
  method Improve(candidates: seq<RowData>, ghost scores: seq<real>, i: nat, score: real, best: (Option<real>, Option<nat>))
    returns (bestScore: Option<real>, bestRow: Option<nat>)
    requires i < |scores| <= |candidates| && score == scores[i]
    requires IsBest(candidates, scores, i, best.0, best.1)
    ensures IsBest(candidates, scores, i + 1, bestScore, bestRow)
  {
    bestScore, bestRow := best.0, best.1;
    assert scores[..i + 1][..i] == scores[..i];
    if bestScore.None? || score > bestScore.value {
      bestScore := Some(score);
      bestRow := Some(candidates[i].rowNumber);
    }
  }

  lemma NoneIsBest(candidates: seq<RowData>, scores: seq<real>)
    requires |scores| <= |candidates|
    ensures IsBest(candidates, scores, 0, None, None)
  {
  }

  lemma BestOfAll(candidates: seq<RowData>, scores: seq<real>, bestScore: Option<real>, bestRow: Option<nat>)
    requires 0 < |scores| <= |candidates| && IsBest(candidates, scores, |scores|, bestScore, bestRow)
    ensures bestRow == Some(candidates[FirstBest(scores)].rowNumber)
  {
    assert scores[..|scores|] == scores;
  }

  const IS_CANDIDATE: RowData -> bool := (r: RowData) => r.nonEmptyCount >= 2

  function Candidates(rows: seq<RowData>): (r: seq<RowData>) { Filter(IS_CANDIDATE, rows) }

  lemma {:induction false} CandidatesQualify(rows: seq<RowData>)
    ensures forall i :: 0 <= i < |Candidates(rows)| ==> Candidates(rows)[i].nonEmptyCount >= 2
    ensures |Candidates(rows)| <= |rows|
  {
    if rows != [] {
      CandidatesQualify(rows[1..]);
    }
  }

  // ----- strategy 1: the transition from header to data -----

  function TransitionScore(header: RowData, next: RowData, firstRow: nat): real
    requires header.nonEmptyCount >= 2 && next.nonEmptyCount >= 2
  {
    header.stringCount as real / header.nonEmptyCount as real * 40.0
    + (if next.numericCount > header.numericCount then 25.0 else 0.0)
    + (if next.numericCount as real / next.nonEmptyCount as real > 0.3 then 15.0 else 0.0)
    + header.nonEmptyCount as real * 5.0
    - (header.rowNumber - firstRow) as real * 2.0
  }

  /** A score for every candidate but the last, which has no successor. */
  function TransitionScores(rows: seq<RowData>): (scores: seq<real>)
    ensures |scores| == if |Candidates(rows)| < 2 then 0 else |Candidates(rows)| - 1
  {
    var c := Candidates(rows);
    if |c| < 2 then []
    else
      CandidatesQualify(rows);
      seq(|c| - 1, i requires 0 <= i < |c| - 1 => TransitionScore(c[i], c[i + 1], rows[0].rowNumber))
  }

  function Transition(rows: seq<RowData>): Option<nat> {
    var scores := TransitionScores(rows);
    if scores == [] then None else Some(Candidates(rows)[FirstBest(scores)].rowNumber)
  }

  method DetectByHeaderDataTransition(rows: seq<RowData>) returns (r: Option<nat>)
    ensures r == Transition(rows)
  {
    hide IsBest, TransitionScore, Candidates;
    var candidates := Candidates(rows);
    if |candidates| < 2 { return None; }
    CandidatesQualify(rows);
    ghost var scores := TransitionScores(rows);
    var bestScore: Option<real>, bestRow: Option<nat> := None, None;
    NoneIsBest(candidates, scores);
    for i := 0 to |candidates| - 1
      invariant IsBest(candidates, scores, i, bestScore, bestRow)
    {
      var score := TransitionScore(candidates[i], candidates[i + 1], rows[0].rowNumber);
      bestScore, bestRow := Improve(candidates, scores, i, score, (bestScore, bestRow));
    }
    BestOfAll(candidates, scores, bestScore, bestRow);
    r := bestRow;
  }

  // ----- strategy 2: string dominance -----

  function TotalStrings(rows: seq<RowData>): nat {
    if rows == [] then 0 else rows[0].stringCount + TotalStrings(rows[1..])
  }

  function FirstDominant(candidates: seq<RowData>, average: real): Option<nat> {
    if candidates == [] then None
    else if candidates[0].nonEmptyCount > 0
         && candidates[0].stringCount as real / candidates[0].nonEmptyCount as real > 0.6
         && candidates[0].stringCount as real > average * 0.8
    then Some(candidates[0].rowNumber)
    else FirstDominant(candidates[1..], average)
  }

  function DetectByStringDominance(rows: seq<RowData>): Option<nat> {
    var c := Candidates(rows);
    if c == [] then None else FirstDominant(c, TotalStrings(c) as real / |c| as real)
  }

  // ----- strategy 3: column consistency -----

  /** Cells of column `column` below the first candidate that satisfy `p`. */
  function ColumnCount(p: Cell -> bool, candidates: seq<RowData>, column: nat): nat {
    Count((r: RowData) => column < |r.values| && p(r.values[column]), candidates)
  }

  datatype Tally = Tally(strings: nat, numbers: nat, dates: nat)

  /** What the candidates below the first hold in one column; dates are never counted. */
  function TallyOf(candidates: seq<RowData>, column: nat): Tally
    requires candidates != []
  {
    Tally(ColumnCount(NON_EMPTY_TEXT, candidates[1..], column), ColumnCount(IS_NUMBER, candidates[1..], column), 0)
  }

  function Counted(t: Tally, c: Cell): Tally {
    if IsEmpty(c) then t
    else if c.Text? then t.(strings := t.strings + 1)
    else if c.Number? then t.(numbers := t.numbers + 1)
    else t
  }

  lemma ColumnCountPush(p: Cell -> bool, rows: seq<RowData>, row: RowData, column: nat)
    ensures ColumnCount(p, rows + [row], column)
         == ColumnCount(p, rows, column) + if column < |row.values| && p(row.values[column]) then 1 else 0
  {
    var q := (r: RowData) => column < |r.values| && p(r.values[column]);
    CountPush(q, rows, row);
  }

  lemma NumbersAreContent(c: Cell)
    ensures c.Number? ==> !IsEmpty(c) && !c.Text?
  {
  }

  lemma TallyPush(candidates: seq<RowData>, row: RowData, column: nat)
    requires candidates != []
    ensures TallyOf(candidates + [row], column)
         == if column < |row.values| then Counted(TallyOf(candidates, column), row.values[column]) else TallyOf(candidates, column)
  {
    hide IsEmpty;
    assert (candidates + [row])[1..] == candidates[1..] + [row];
    ColumnCountPush(NON_EMPTY_TEXT, candidates[1..], row, column);
    ColumnCountPush(IS_NUMBER, candidates[1..], row, column);
    if column < |row.values| { NumbersAreContent(row.values[column]); }
  }

  /** The inner loop: the row's cells are counted in the columns of the range. */
  method TallyRow(columnTypes: map<nat, Tally>, startColumn: nat, values: seq<Cell>) returns (r: map<nat, Tally>)
    ensures r.Keys == columnTypes.Keys
    ensures forall col :: col in columnTypes ==>
      r[col] == if startColumn <= col < startColumn + |values| then Counted(columnTypes[col], values[col - startColumn])
                else columnTypes[col]
  {
    hide Counted;
    r := columnTypes;
    for colIdx := 0 to |values|
      invariant r.Keys == columnTypes.Keys
      invariant forall col :: col in columnTypes ==>
        r[col] == if startColumn <= col < startColumn + colIdx then Counted(columnTypes[col], values[col - startColumn])
                  else columnTypes[col]
    {
      var col := startColumn + colIdx;
      if col !in r { continue; }
      r := r[col := Counted(r[col], values[colIdx])];
    }
  }

  lemma FirstIsNotCounted(candidates: seq<RowData>, column: nat)
    requires candidates != []
    ensures TallyOf(candidates[..1], column) == Tally(0, 0, 0)
  {
    assert candidates[..1][1..] == [];
  }

  /** The columns of the range, each with what the candidates below the first hold in it. */
  method TallyColumns(candidates: seq<RowData>, startColumn: nat, endColumn: int) returns (columnTypes: map<nat, Tally>)
    requires candidates != []
    ensures forall col :: col in columnTypes <==> startColumn <= col <= endColumn
    ensures forall col :: col in columnTypes ==> columnTypes[col] == TallyOf(candidates, col - startColumn)
  {
    hide TallyOf, Counted;
    columnTypes := map[];
    var col := startColumn;
    while col <= endColumn
      invariant col <= endColumn + 1 || col == startColumn
      invariant forall c :: c in columnTypes <==> startColumn <= c < col
      invariant forall c :: c in columnTypes ==> columnTypes[c] == Tally(0, 0, 0)
    {
      columnTypes := columnTypes[col := Tally(0, 0, 0)];
      col := col + 1;
    }
    forall c | c in columnTypes ensures columnTypes[c] == TallyOf(candidates[..1], c - startColumn) {
      FirstIsNotCounted(candidates, c - startColumn);
    }
    for i := 1 to |candidates|
      invariant forall c :: c in columnTypes <==> startColumn <= c <= endColumn
      invariant forall c :: c in columnTypes ==> columnTypes[c] == TallyOf(candidates[..i], c - startColumn)
    {
      assert candidates[..i + 1] == candidates[..i] + [candidates[i]];
      forall c | c in columnTypes
        ensures TallyOf(candidates[..i + 1], c - startColumn)
             == if c - startColumn < |candidates[i].values| then Counted(columnTypes[c], candidates[i].values[c - startColumn])
                else columnTypes[c]
      {
        TallyPush(candidates[..i], candidates[i], c - startColumn);
      }
      columnTypes := TallyRow(columnTypes, startColumn, candidates[i].values);
    }
    assert candidates[..|candidates|] == candidates;
  }

  /** A text stands over a column most of whose counted cells are texts. */
  predicate Matches(header: Cell, t: Tally) {
    var total := t.strings + t.numbers + t.dates;
    NON_EMPTY_TEXT(header) && total > 0 && t.strings as real > total as real * 0.5
  }

  /** The matching columns among the first `n` of a header, in a range of `width` columns. */
  function MatchingColumns(candidates: seq<RowData>, header: RowData, n: nat, width: nat): nat
    requires candidates != [] && n <= |header.values|
  {
    if n == 0 then 0
    else
      MatchingColumns(candidates, header, n - 1, width)
      + (if n - 1 < width && Matches(header.values[n - 1], TallyOf(candidates, n - 1)) then 1 else 0)
  }

  /** The loop over the cells of one candidate. */
  method CountMatchingColumns(candidates: seq<RowData>, header: RowData, columnTypes: map<nat, Tally>, startColumn: nat, width: nat)
    returns (matchingColumns: nat)
    requires candidates != []
    requires forall col :: col in columnTypes <==> startColumn <= col < startColumn + width
    requires forall col :: col in columnTypes ==> columnTypes[col] == TallyOf(candidates, col - startColumn)
    ensures matchingColumns == MatchingColumns(candidates, header, |header.values|, width)
  {
    hide TallyOf, IsEmpty;
    matchingColumns := 0;
    for colIdx := 0 to |header.values|
      invariant matchingColumns == MatchingColumns(candidates, header, colIdx, width)
    {
      var col, headerValue := startColumn + colIdx, header.values[colIdx];
      if IsEmpty(headerValue) || col !in columnTypes { continue; }
      var typeMap := columnTypes[col];
      var total := typeMap.strings + typeMap.numbers + typeMap.dates;
      if total == 0 { continue; }
      if headerValue.Text? && typeMap.strings as real > total as real * 0.5 {
        matchingColumns := matchingColumns + 1;
      }
    }
  }

  function ConsistencyScore(candidates: seq<RowData>, header: RowData, firstRow: nat, width: nat): real
    requires candidates != []
  {
    MatchingColumns(candidates, header, |header.values|, width) as real * 10.0
    - (header.rowNumber - firstRow) as real * 2.0
  }

  function ConsistencyScores(rows: seq<RowData>, width: nat): (scores: seq<real>)
    ensures |scores| == if |Candidates(rows)| < 2 then 0 else |Candidates(rows)| - 1
  {
    var c := Candidates(rows);
    if |c| < 2 then []
    else
      CandidatesQualify(rows);
      seq(|c| - 1, i requires 0 <= i < |c| - 1 => ConsistencyScore(c, c[i], rows[0].rowNumber, width))
  }

  function Consistency(rows: seq<RowData>, width: nat): Option<nat> {
    var scores := ConsistencyScores(rows, width);
    if scores == [] then None else Some(Candidates(rows)[FirstBest(scores)].rowNumber)
  }

  /** The number of columns of the range, which may be empty. */
  function Width(startColumn: nat, endColumn: int): nat {
    if endColumn < startColumn then 0 else endColumn - startColumn + 1
  }

  method DetectByColumnConsistency(rows: seq<RowData>, startColumn: nat, endColumn: int) returns (r: Option<nat>)
    ensures r == Consistency(rows, Width(startColumn, endColumn))
  {
    hide IsBest, Candidates, TallyOf, MatchingColumns;
    var candidates, width := Candidates(rows), Width(startColumn, endColumn);
    if |candidates| < 2 { return None; }
    CandidatesQualify(rows);
    ghost var scores := ConsistencyScores(rows, width);
    var columnTypes := TallyColumns(candidates, startColumn, endColumn);
    var bestScore: Option<real>, bestRow: Option<nat> := None, None;
    NoneIsBest(candidates, scores);
    for i := 0 to |candidates| - 1
      invariant IsBest(candidates, scores, i, bestScore, bestRow)
    {
      var matchingColumns := CountMatchingColumns(candidates, candidates[i], columnTypes, startColumn, width);
      var score := matchingColumns as real * 10.0 - (candidates[i].rowNumber - rows[0].rowNumber) as real * 2.0;
      bestScore, bestRow := Improve(candidates, scores, i, score, (bestScore, bestRow));
    }
    BestOfAll(candidates, scores, bestScore, bestRow);
    r := bestRow;
  }

  // ----- strategy 4 and the fallback -----

  function FirstRowNumber(rows: seq<RowData>): Option<nat> {
    if rows == [] then None else Some(rows[0].rowNumber)
  }

  function DetectByFirstValidRow(rows: seq<RowData>): Option<nat> { FirstRowNumber(Candidates(rows)) }

  const HAS_CONTENT: RowData -> bool := (r: RowData) => r.nonEmptyCount > 0

  function FallbackDetectHeader(rows: seq<RowData>): Option<nat> { FirstRowNumber(Filter(HAS_CONTENT, rows)) }

  function FirstSome(results: seq<Option<nat>>): Option<nat> {
    if results == [] then None else if results[0].Some? then results[0] else FirstSome(results[1..])
  }

  // ----- the cascade in three cases -----

  /** With two candidate rows or more, the first best transition; with one, that row; with none,
      the first row that has any content. */
  function HeaderRow(rows: seq<RowData>): Option<nat> {
    var c := Candidates(rows);
    if |c| >= 2 then Some(c[FirstBest(TransitionScores(rows))].rowNumber)
    else if |c| == 1 then Some(c[0].rowNumber)
    else FirstRowNumber(Filter(HAS_CONTENT, rows))
  }

  /** The transition score of candidate `i` against the candidate after it. */
  function ScoreAt(rows: seq<RowData>, i: nat): real
    requires i < |Candidates(rows)| - 1
  {
    CandidatesQualify(rows);
    TransitionScore(Candidates(rows)[i], Candidates(rows)[i + 1], rows[0].rowNumber)
  }

  ghost predicate IsFirstArgmax(rows: seq<RowData>, b: nat) {
    && b < |Candidates(rows)| - 1
    && (forall i :: 0 <= i < |Candidates(rows)| - 1 ==> ScoreAt(rows, i) <= ScoreAt(rows, b))
    && (forall i :: 0 <= i < b ==> ScoreAt(rows, i) < ScoreAt(rows, b))
  }

  lemma FirstSomeOfFour(a: Option<nat>, b: Option<nat>, c: Option<nat>, d: Option<nat>)
    ensures FirstSome([a, b, c, d]) == if a.Some? then a else if b.Some? then b else if c.Some? then c else d
  {
    var s := [a, b, c, d];
    var t := s[1..];
    var u := t[1..];
    var v := u[1..];
    assert t == [b, c, d] && u == [c, d] && v == [d];
    var w: seq<Option<nat>> := v[1..];
    assert w == [] && FirstSome(v) == d;
    assert FirstSome(u) == if c.Some? then c else d;
    assert FirstSome(t) == if b.Some? then b else FirstSome(u);
  }

  lemma BestTransitionIsArgmax(rows: seq<RowData>)
    requires |Candidates(rows)| >= 2
    ensures IsFirstArgmax(rows, FirstBest(TransitionScores(rows)))
  {
    hide Candidates, TransitionScore;
    CandidatesQualify(rows);
    var scores, b := TransitionScores(rows), FirstBest(TransitionScores(rows));
    forall i | 0 <= i < |Candidates(rows)| - 1
      ensures ScoreAt(rows, i) <= ScoreAt(rows, b) && (i < b ==> ScoreAt(rows, i) < ScoreAt(rows, b))
    {
      assert scores[i] <= scores[b];
    }
  }

  lemma OneCandidate(rows: seq<RowData>)
    requires |Candidates(rows)| == 1
    ensures DetectByStringDominance(rows) in {None, Some(Candidates(rows)[0].rowNumber)}
  {
    hide Candidates;
    var c := Candidates(rows);
    var rest: seq<RowData> := c[1..];
    assert rest == [] && FirstDominant(rest, TotalStrings(c) as real / |c| as real) == None;
  }

  lemma CascadeIsHeaderRow(rows: seq<RowData>, width: nat)
    ensures var first := FirstSome(
        [Transition(rows), DetectByStringDominance(rows), Consistency(rows, width), DetectByFirstValidRow(rows)]);
      (if first.Some? then first else FallbackDetectHeader(rows)) == HeaderRow(rows)
    ensures |Candidates(rows)| >= 2 ==>
      exists b: nat :: IsFirstArgmax(rows, b) && HeaderRow(rows) == Some(Candidates(rows)[b].rowNumber)
  {
    hide Candidates, IsFirstArgmax, TransitionScores, ConsistencyScores, FirstBest, FirstSome, FirstDominant, TotalStrings;
    FirstSomeOfFour(Transition(rows), DetectByStringDominance(rows), Consistency(rows, width), DetectByFirstValidRow(rows));
    if |Candidates(rows)| >= 2 {
      BestTransitionIsArgmax(rows);
    } else if |Candidates(rows)| == 1 {
      OneCandidate(rows);
    }
  }

  method DetectHeaderRowNumber(sheet: Sheet) returns (r: Result<Option<nat>, ReadError>)
    ensures r == if ScanIsReadable(sheet) then Ok(HeaderRow(ScannedRows(sheet))) else Err(InvalidDate)
  {
    hide ScanIsReadable, ScannedRows;
    var scanned := ScanRows(sheet);
    if scanned.Err? { return Err(scanned.error); }
    var rows := scanned.value;
    if |rows| == 0 { return Ok(None); }
    var transition := DetectByHeaderDataTransition(rows);
    var consistency := DetectByColumnConsistency(rows, sheet.startColumn, sheet.endColumn);
    var strategies := [transition, DetectByStringDominance(rows), consistency, DetectByFirstValidRow(rows)];
    CascadeIsHeaderRow(rows, Width(sheet.startColumn, sheet.endColumn));
    var found := FirstSome(strategies);
    if found.None? {
      found := FallbackDetectHeader(rows);
    }
    return Ok(found);
  }

  /** No header row is found exactly when every cell of every scanned row is empty; a row that
      is found is a scanned row with a non-empty cell. */
  lemma HeaderRowExists(rows: seq<RowData>)
    requires forall i :: 0 <= i < |rows| ==> rows[i] == Describe(rows[i].rowNumber, rows[i].values)
    ensures HeaderRow(rows).None? <==>
      forall i, j :: 0 <= i < |rows| && 0 <= j < |rows[i].values| ==> IsEmpty(rows[i].values[j])
    ensures HeaderRow(rows).Some? ==>
      exists i, j :: 0 <= i < |rows| && 0 <= j < |rows[i].values|
                     && rows[i].rowNumber == HeaderRow(rows).value && !IsEmpty(rows[i].values[j])
  {
    hide TransitionScores, FirstBest;
    var c, f := Candidates(rows), Filter(HAS_CONTENT, rows);
    FilterMembers(IS_CANDIDATE, rows);
    FilterMembers(HAS_CONTENT, rows);
    if r: RowData :| (r in c || r in f) && HeaderRow(rows) == Some(r.rowNumber) {
      assert r.nonEmptyCount > 0 && r in rows;
      var i :| 0 <= i < |rows| && rows[i] == r;
      CountWitness(NON_EMPTY, rows[i].values);
    }
    if i, j :| 0 <= i < |rows| && 0 <= j < |rows[i].values| && !IsEmpty(rows[i].values[j]) {
      CountPositive(NON_EMPTY, rows[i].values, j);
      assert HAS_CONTENT(rows[i]) && rows[i] in rows;
      assert rows[i] in f;
    }
  }
}
