/** The combined tariff table as an immutable value, the column detection the
    calculator performs once after the CSV files are concatenated, and the
    exact-match row lookup. */
module Tariff {
  import opened Wrappers
  import opened Text
  import opened Errors

  /** One cell of the combined table. `NonStr` stands for every value that is
      not a Python `str`: the NaN pandas puts in empty cells and in columns a
      file lacks, and numbers pandas parsed from numeric-looking text. */
  datatype Cell = Str(text: string) | NonStr

  /** A row maps column names to cells; a column absent from the map reads as NaN. */
  type Row = map<string, Cell>

  /** The concatenated table: its column names in order, and its rows in order. */
  datatype Table = Table(columns: seq<string>, rows: seq<Row>)

  function CellOf(row: Row, column: string): Cell {
    if column in row then row[column] else NonStr
  }

  /** Which column holds the HTS code and which holds the duty-rate text. */
  datatype Schema = Schema(codeColumn: string, dutyColumn: string)

  const CodeColumnMessage := "CSV must contain 'HTS_Code' or 'HTS Number' column."
  const DutyColumnMessage := "CSV must contain 'Duty' or a 'Rate' column."

  /** The column names that contain "Rate" (case-sensitive), in column order. */
  function RateColumns(columns: seq<string>): (rs: seq<string>)
    ensures forall c :: c in rs <==> c in columns && Contains(c, "Rate")
  {
    if |columns| == 0 then []
    else if Contains(columns[0], "Rate") then [columns[0]] + RateColumns(columns[1..])
    else RateColumns(columns[1..])
  }

  /** Taking the head of the filtered list picks the first "Rate" column in column order. */
  lemma {:induction false} RateColumnsHead(columns: seq<string>)
    requires |RateColumns(columns)| > 0
    ensures exists k: nat :: FirstRateColumn(columns, k) && columns[k] == RateColumns(columns)[0]
  {
    if Contains(columns[0], "Rate") {
      assert FirstRateColumn(columns, 0);
    } else {
      var tail := columns[1..];
      RateColumnsHead(tail);
      var k: nat :| FirstRateColumn(tail, k) && tail[k] == RateColumns(tail)[0];
      forall j | 0 <= j < k + 1 ensures !Contains(columns[j], "Rate") {
        if j > 0 { assert columns[j] == tail[j - 1]; }
      }
      assert FirstRateColumn(columns, k + 1);
    }
  }

  /** Column `k` is the first, in column order, whose name contains "Rate". */
  ghost predicate FirstRateColumn(columns: seq<string>, k: nat) {
    && k < |columns| && Contains(columns[k], "Rate")
    && forall j :: 0 <= j < k ==> !Contains(columns[j], "Rate")
  }

  /** Neither code-column name is "Duty" or contains "Rate". */
  lemma CodeNamesAreNotDutyNames()
    ensures !Contains("HTS_Code", "Rate") && !Contains("HTS Number", "Rate")
  {
    NotContainedWithoutHead("HTS_Code", "Rate");
    NotContainedWithoutHead("HTS Number", "Rate");
  }

  /** Column detection: the code column is "HTS_Code" if present, else
      "HTS Number"; the duty column is "Duty" if present, else the first
      column in order whose name contains "Rate"; the code column is looked
      for first, so its error wins when both are missing. */
  function DetectColumns(columns: seq<string>): (r: Result<Schema, PyError>)
    ensures r.Failure? <==>
      || ("HTS_Code" !in columns && "HTS Number" !in columns)
      || ("Duty" !in columns && forall c :: c in columns ==> !Contains(c, "Rate"))
    ensures r.Failure? ==> r.error == ValueError(
      if "HTS_Code" !in columns && "HTS Number" !in columns then CodeColumnMessage else DutyColumnMessage)
    ensures r.Success? ==> r.value.codeColumn in columns && r.value.dutyColumn in columns
    ensures r.Success? ==> r.value.codeColumn != r.value.dutyColumn
    ensures r.Success? && "HTS_Code" in columns ==> r.value.codeColumn == "HTS_Code"
    ensures r.Success? && "HTS_Code" !in columns ==> r.value.codeColumn == "HTS Number"
    ensures r.Success? && "Duty" in columns ==> r.value.dutyColumn == "Duty"
    ensures r.Success? && "Duty" !in columns ==>
      exists k: nat :: FirstRateColumn(columns, k) && columns[k] == r.value.dutyColumn
  {
    var code :=
      if "HTS_Code" in columns then Some("HTS_Code")
      else if "HTS Number" in columns then Some("HTS Number")
      else None;
    if code.None? then Failure(ValueError(CodeColumnMessage))
    else
      CodeNamesAreNotDutyNames();
      if "Duty" in columns then Success(Schema(code.value, "Duty"))
      else
        var rates := RateColumns(columns);
        if |rates| > 0 then
          assert rates[0] in rates;
          RateColumnsHead(columns);
          Success(Schema(code.value, rates[0]))
        else Failure(ValueError(DutyColumnMessage))
  }

  /** The first row whose code cell is exactly the string `code`, searching
      from row `from`: pandas' `df[df[col] == code].iloc[0]`. */
  function FirstMatch(rows: seq<Row>, column: string, code: string, from: nat): (k: Option<nat>)
    ensures k.Some? ==> from <= k.value < |rows| && CellOf(rows[k.value], column) == Str(code)
    ensures k.Some? ==> forall j :: from <= j < k.value ==> CellOf(rows[j], column) != Str(code)
    ensures k.None? ==> forall j :: from <= j < |rows| ==> CellOf(rows[j], column) != Str(code)
    decreases |rows| - from
  {
    if |rows| <= from then None
    else if CellOf(rows[from], column) == Str(code) then Some(from)
    else FirstMatch(rows, column, code, from + 1)
  }
}
