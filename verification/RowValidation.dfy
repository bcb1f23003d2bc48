/** Spreadsheet cells and the row validator shared by the CSV and spreadsheet readers. */
module RowValidation {
  import opened Options
  import opened Sequences
  import opened Strings

  /** A number matters here only by its type and by how String() prints it. */
  type Numeral = s: string | !Blank(s) witness "0"

  datatype Cell = Empty | Text(text: string) | Number(shown: Numeral)

  predicate IsEmpty(c: Cell) { c.Empty? || (c.Text? && Blank(c.text)) }

  function AsString(c: Cell): string {
    match c
    case Empty => ""
    case Text(text) => text
    case Number(shown) => shown
  }

  /** The reader's test for an empty cell and the validator's test for a blank value agree. */
  lemma EmptyIsBlank(c: Cell)
    ensures IsEmpty(c) <==> Trim(AsString(c)) == ""
  {
    assert Trim("") == "";
  }

  datatype RawRow = RawRow(rowIndex: nat, headers: seq<string>, values: seq<Cell>)

  datatype Reason =
    | ColumnCountMismatch(expected: nat, got: nat)
    | MissingRequiredHeaders(names: seq<string>)
    | EmptyRow

  datatype RowError = RowError(rowIndex: nat, reason: Reason)

  function Missing(required: seq<string>, headers: seq<string>): seq<string> {
    Filter((name: string) => name !in headers, required)
  }

  predicate AllBlank(values: seq<Cell>) {
    forall i :: 0 <= i < |values| ==> Blank(AsString(values[i]))
  }

  /** The reasons for rejecting a row, in the order they are reported. */
  function Errors(headerCount: nat, required: seq<string>, row: RawRow): seq<RowError> {
    (if headerCount > 0 && |row.values| != headerCount
     then [RowError(row.rowIndex, ColumnCountMismatch(headerCount, |row.values|))] else [])
    + (if Missing(required, row.headers) != []
       then [RowError(row.rowIndex, MissingRequiredHeaders(Missing(required, row.headers)))] else [])
    + (if AllBlank(row.values) then [RowError(row.rowIndex, EmptyRow)] else [])
  }

  /** What parseRow stores for column `i`: only the null value and the empty string become null. */
  function Clean(values: seq<Cell>, i: nat): Option<string> {
    if i >= |values| || AsString(values[i]) == "" then None else Some(Trim(AsString(values[i])))
  }

  type Record = map<string, Option<string>>

  function Parsed(headers: seq<string>, values: seq<Cell>, n: nat): Record
    requires n <= |headers|
  {
    if n == 0 then map[] else Parsed(headers, values, n - 1)[headers[n - 1] := Clean(values, n - 1)]
  }

  class RowValidationHelper {
    var requiredHeaders: seq<string>
    var headerCount: nat

    constructor ()
      ensures requiredHeaders == [] && headerCount == 0
    {
      requiredHeaders, headerCount := [], 0;
    }

    method SetRequiredHeaders(required: seq<string>)
      modifies `requiredHeaders
      ensures requiredHeaders == required
    {
      requiredHeaders := required;
    }

    method SetHeaderCount(count: nat)
      modifies `headerCount
      ensures headerCount == count
    {
      headerCount := count;
    }

    method ValidateRow(row: RawRow) returns (errors: seq<RowError>)
      ensures errors == Errors(headerCount, requiredHeaders, row)
    {
      errors := [];
      if headerCount > 0 && |row.values| != headerCount {
        errors := errors + [RowError(row.rowIndex, ColumnCountMismatch(headerCount, |row.values|))];
      }
      if |requiredHeaders| > 0 {
        var missingHeaders := Missing(requiredHeaders, row.headers);
        if |missingHeaders| > 0 {
          errors := errors + [RowError(row.rowIndex, MissingRequiredHeaders(missingHeaders))];
        }
      }
      if AllBlank(row.values) {
        errors := errors + [RowError(row.rowIndex, EmptyRow)];
      }
    }

    method ParseRow(row: RawRow) returns (data: Record)
      ensures data == Parsed(row.headers, row.values, |row.headers|)
    {
      data := map[];
      for i := 0 to |row.headers|
        invariant data == Parsed(row.headers, row.values, i)
      {
        data := data[row.headers[i] := Clean(row.values, i)];
      }
    }
  }

  ghost predicate Distinct(headers: seq<string>) {
    forall i, j :: 0 <= i < j < |headers| ==> headers[i] != headers[j]
  }

  lemma DistinctPush(headers: seq<string>, name: string)
    ensures Distinct(headers + [name]) <==> Distinct(headers) && name !in headers
  {
    var all := headers + [name];
    if name in headers {
      var k :| 0 <= k < |headers| && headers[k] == name;
      assert all[k] == all[|headers|];
    } else if !Distinct(headers) {
      var i, j :| 0 <= i < j < |headers| && headers[i] == headers[j];
      assert all[i] == all[j];
    }
  }

  lemma DistinctNone(headers: seq<string>)
    requires headers == []
    ensures Distinct(headers)
  {
  }

  lemma KeysPush(before: Record, name: string, value: Option<string>, names: seq<string>)
    requires forall key :: key in before <==> key in names
    requires |before| <= |names| && (|before| == |names| <==> Distinct(names))
    ensures var after := before[name := value];
      && (forall key :: key in after <==> key in names + [name])
      && |after| <= |names| + 1
      && (|after| == |names| + 1 <==> Distinct(names + [name]))
  {
    hide Distinct;
    assert before[name := value].Keys == before.Keys + {name};
    DistinctPush(names, name);
  }

  lemma ParsedPush(headers: seq<string>, values: seq<Cell>, n: nat)
    requires 0 < n <= |headers|
    ensures Parsed(headers, values, n) == Parsed(headers, values, n - 1)[headers[n - 1] := Clean(values, n - 1)]
    ensures headers[..n] == headers[..n - 1] + [headers[n - 1]]
  {
    hide Clean;
  }

  lemma ParsedNone(headers: seq<string>, values: seq<Cell>)
    ensures Parsed(headers, values, 0) == map[] && headers[..0] == []
  {
  }

  lemma {:induction false} ParsedKeys(headers: seq<string>, values: seq<Cell>, n: nat)
    requires n <= |headers|
    ensures forall name :: name in Parsed(headers, values, n) <==> name in headers[..n]
    ensures |Parsed(headers, values, n)| <= n
    ensures |Parsed(headers, values, n)| == n <==> Distinct(headers[..n])
  {
    hide Distinct, Parsed, Clean;
    if n > 0 {
      ParsedKeys(headers, values, n - 1);
      ParsedPush(headers, values, n);
      KeysPush(Parsed(headers, values, n - 1), headers[n - 1], Clean(values, n - 1), headers[..n - 1]);
    } else {
      ParsedNone(headers, values);
      DistinctNone(headers[..n]);
    }
  }

  lemma {:induction false} ParsedColumn(headers: seq<string>, values: seq<Cell>, n: nat, i: nat)
    requires i < n <= |headers| && forall j :: i < j < n ==> headers[j] != headers[i]
    ensures headers[i] in Parsed(headers, values, n) && Parsed(headers, values, n)[headers[i]] == Clean(values, i)
    decreases n
  {
    if i < n - 1 {
      ParsedColumn(headers, values, n - 1, i);
    }
  }

  lemma NumeralsAreNotEmpty(shown: Numeral)
    ensures shown != ""
  {
  }

  /** The last column of a name decides what the record holds under it: null without a value or
      for the null value and the empty text, and else the text or numeral, trimmed. */
  lemma LastColumnWins(headers: seq<string>, values: seq<Cell>, i: nat)
    requires i < |headers| && forall j :: i < j < |headers| ==> headers[j] != headers[i]
    ensures var data := Parsed(headers, values, |headers|);
      && headers[i] in data
      && (i >= |values| ==> data[headers[i]] == None)
      && (i < |values| ==>
            match values[i]
            case Empty => data[headers[i]] == None
            case Text(text) => data[headers[i]] == if |text| == 0 then None else Some(Trim(text))
            case Number(shown) => data[headers[i]] == Some(Trim(shown)))
  {
    hide Trim;
    ParsedColumn(headers, values, |headers|, i);
    if i < |values| && values[i].Number? {
      NumeralsAreNotEmpty(values[i].shown);
    }
  }

  /** A parsed row has one entry per column exactly when the headers are pairwise distinct, and
      then every column can be read back under its header: the trimmed text of its value, or null
      exactly when there is no value or its text is empty. */
  lemma ParsedRowIsComplete(headers: seq<string>, values: seq<Cell>)
    ensures |Parsed(headers, values, |headers|)| == |headers| <==> Distinct(headers)
    ensures Distinct(headers) ==>
      forall i :: 0 <= i < |headers| ==>
        var data := Parsed(headers, values, |headers|);
        && headers[i] in data
        && (data[headers[i]].None? <==> i >= |values| || AsString(values[i]) == "")
        && (data[headers[i]].Some? ==> data[headers[i]] == Some(Trim(AsString(values[i]))))
  {
    hide Parsed, Trim;
    ParsedKeys(headers, values, |headers|);
    assert headers[..|headers|] == headers;
    if Distinct(headers) {
      forall i | 0 <= i < |headers|
        ensures var data := Parsed(headers, values, |headers|);
          && headers[i] in data
          && (data[headers[i]].None? <==> i >= |values| || AsString(values[i]) == "")
          && (data[headers[i]].Some? ==> data[headers[i]] == Some(Trim(AsString(values[i]))))
      {
        ParsedColumn(headers, values, |headers|, i);
      }
    }
  }

  lemma MissingMembers(required: seq<string>, headers: seq<string>)
    ensures forall name :: name in Missing(required, headers) <==> name in required && name !in headers
  {
    FilterMembers((name: string) => name !in headers, required);
  }

  /** A row is accepted exactly when its width is the expected one, unless none is, every required
      header is among its headers, and one of its values is not blank. Each of the three reasons is
      given exactly when it applies, with the row's index and its details. */
  lemma RejectedIff(headerCount: nat, required: seq<string>, row: RawRow)
    ensures var errors := Errors(headerCount, required, row);
      && (errors == [] <==>
            && (headerCount == 0 || |row.values| == headerCount)
            && (forall name :: name in required ==> name in row.headers)
            && exists i :: 0 <= i < |row.values| && !Blank(AsString(row.values[i])))
      && (forall e :: e in errors ==> e.rowIndex == row.rowIndex)
      && (forall expected, got :: RowError(row.rowIndex, ColumnCountMismatch(expected, got)) in errors <==>
            expected == headerCount > 0 && got == |row.values| && got != expected)
      && (forall names :: RowError(row.rowIndex, MissingRequiredHeaders(names)) in errors ==>
            forall name :: name in names <==> name in required && name !in row.headers)
      && ((exists names :: RowError(row.rowIndex, MissingRequiredHeaders(names)) in errors) <==>
            exists name :: name in required && name !in row.headers)
      && (RowError(row.rowIndex, EmptyRow) in errors <==>
            forall i :: 0 <= i < |row.values| ==> Blank(AsString(row.values[i])))
  {
    hide Blank, Filter;
    var missing := Missing(required, row.headers);
    MissingMembers(required, row.headers);
    if missing != [] {
      assert RowError(row.rowIndex, MissingRequiredHeaders(missing)) in Errors(headerCount, required, row);
      assert missing[0] in missing;
    }
  }

  function Place(reason: Reason): nat {
    match reason
    case ColumnCountMismatch(_, _) => 0
    case MissingRequiredHeaders(_) => 1
    case EmptyRow => 2
  }

  /** Each reason is given at most once, the width first and emptiness last. */
  lemma ReasonsInOrder(headerCount: nat, required: seq<string>, row: RawRow)
    ensures var errors := Errors(headerCount, required, row);
      forall i, j :: 0 <= i < j < |errors| ==> Place(errors[i].reason) < Place(errors[j].reason)
  {
    hide Blank, Filter;
  }

  /** A row with as many values as headers and at least one non-empty cell is never rejected
      when no header is required. */
  lemma FullRowIsAccepted(row: RawRow)
    requires |row.values| == |row.headers|
    requires exists i :: 0 <= i < |row.values| && !IsEmpty(row.values[i])
    ensures Errors(|row.headers|, [], row) == []
  {
    var i :| 0 <= i < |row.values| && !IsEmpty(row.values[i]);
    assert !Blank(AsString(row.values[i]));
    assert Missing([], row.headers) == [];
  }
}
