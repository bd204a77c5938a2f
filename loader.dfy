/** load_data: normalises the parsed sheet into loan records whose amounts are
    all numbers, defaulting the missing ones and deriving the two totals. */
module Loader {
  import opened Records
  import opened Text

  /** A column is present when some header, once stripped of surrounding
      whitespace, is its name. */
  predicate HasColumn(sheet: Sheet, c: NumericColumn) {
    exists k :: 0 <= k < |sheet.headers| && Trim(sheet.headers[k]) == Header(c)
  }

  /** Every column name the script looks up is already stripped. */
  lemma HeaderIsStripped(c: NumericColumn)
    ensures Trim(Header(c)) == Header(c)
  {
    match c
    case PrincipalAmount => TrimUnpadded("Principal Amount");
    case PrincipalOutstanding => TrimUnpadded("Principal Outstanding Derived");
    case PenaltiesOverdue => TrimUnpadded("Penalties Overdue Derived");
    case TotalExpectedRepayment => TrimUnpadded("Total Expected Repayment Derived");
    case TotalRepayment => TrimUnpadded("Total Repayment Derived");
  }

  /** Headers are stripped before the lookup, so a column whose header carries
      surrounding whitespace is still found. */
  lemma PaddedHeaderIsFound(sheet: Sheet, c: NumericColumn, p: string, q: string)
    requires AllSpace(p) && AllSpace(q) && p + Header(c) + q in sheet.headers
    ensures HasColumn(sheet, c)
  {
    TrimIgnoresPadding(p, Header(c), q);
    HeaderIsStripped(c);
    var k :| 0 <= k < |sheet.headers| && sheet.headers[k] == p + Header(c) + q;
  }

  /** fillna(0) on one coerced cell. */
  function FillNa(v: Option<real>): real {
    match v
    case Some(x) => x
    case None => 0.0
  }

  /** The value of a numeric column in one row as the source column would hold it:
      a missing column reads as all zeros. */
  function Coerced(sheet: Sheet, row: RawRow, c: NumericColumn): real {
    if HasColumn(sheet, c) then FillNa(Cell(row, c)) else 0.0
  }

  /** One row after load_data. */
  function NormaliseRow(sheet: Sheet, row: RawRow): Loan {
    var principal := Coerced(sheet, row, PrincipalAmount);
    var outstanding := Coerced(sheet, row, PrincipalOutstanding);
    var penalties := Coerced(sheet, row, PenaltiesOverdue);
    Loan(
      row.branch, row.maturity, principal, outstanding, penalties,
      if HasColumn(sheet, TotalExpectedRepayment) then FillNa(row.expected) else principal + penalties,
      if HasColumn(sheet, TotalRepayment) then FillNa(row.repaid) else principal - outstanding)
  }

  /** The whole sheet after load_data: one loan per row, in row order. */
  function Normalise(sheet: Sheet): (loans: seq<Loan>)
    ensures |loans| == |sheet.rows|
  {
    seq(|sheet.rows|, i requires 0 <= i < |sheet.rows| => NormaliseRow(sheet, sheet.rows[i]))
  }

  /** A numeric column that is missing, or a cell that did not parse, reads as
      exactly 0; a parsed cell of a present column keeps its value. */
  lemma MissingOrUnparsableIsZero(sheet: Sheet, row: RawRow, c: NumericColumn)
    ensures c in {PrincipalAmount, PrincipalOutstanding, PenaltiesOverdue} && !HasColumn(sheet, c)
            ==> Amount(NormaliseRow(sheet, row), c) == 0.0
    ensures HasColumn(sheet, c) && Cell(row, c).None? ==> Amount(NormaliseRow(sheet, row), c) == 0.0
    ensures HasColumn(sheet, c) && Cell(row, c).Some? ==> Amount(NormaliseRow(sheet, row), c) == Cell(row, c).value
  {
  }

  /** Without their own columns the two totals are derived from the amounts of the same row. */
  lemma DerivedTotals(sheet: Sheet, row: RawRow)
    ensures var x := NormaliseRow(sheet, row);
            !HasColumn(sheet, TotalExpectedRepayment) ==> x.expected == x.principal + x.penalties
    ensures var x := NormaliseRow(sheet, row);
            !HasColumn(sheet, TotalRepayment) ==> x.repaid == x.principal - x.outstanding
  {
  }

  /** Normalisation keeps the branch and maturity date of every row, and never drops a row. */
  lemma NormaliseKeepsRows(sheet: Sheet, i: nat)
    requires i < |sheet.rows|
    ensures |Normalise(sheet)| == |sheet.rows|
    ensures Normalise(sheet)[i].branch == sheet.rows[i].branch
    ensures Normalise(sheet)[i].maturity == sheet.rows[i].maturity
  {
  }

  // Whole-column operations on the data frame held by LoadData.

  /** The raw cells of column c. */
  function RawColumn(rows: seq<RawRow>, c: NumericColumn): seq<Option<real>> {
    seq(|rows|, i requires 0 <= i < |rows| => Cell(rows[i], c))
  }

  /** `df[c] = 0`: a column of zeros. */
  function Zeros(n: nat): seq<Option<real>> {
    seq(n, _ => Some(0.0))
  }

  /** `pd.to_numeric(..., errors="coerce").fillna(0)` on a column already coerced. */
  function FillNaColumn(col: seq<Option<real>>): seq<real> {
    seq(|col|, i requires 0 <= i < |col| => FillNa(col[i]))
  }

  function AddColumns(a: seq<real>, b: seq<real>): seq<real>
    requires |a| == |b|
  {
    seq(|a|, i requires 0 <= i < |a| => a[i] + b[i])
  }

  function SubtractColumns(a: seq<real>, b: seq<real>): seq<real>
    requires |a| == |b|
  {
    seq(|a|, i requires 0 <= i < |a| => a[i] - b[i])
  }

  /** Builds the loan records from the columns of the frame. */
  function Assemble(rows: seq<RawRow>, principal: seq<real>, outstanding: seq<real>, penalties: seq<real>,
                    expected: seq<real>, repaid: seq<real>): seq<Loan>
    requires |principal| == |outstanding| == |penalties| == |expected| == |repaid| == |rows|
  {
    seq(|rows|, i requires 0 <= i < |rows| =>
      Loan(rows[i].branch, rows[i].maturity, principal[i], outstanding[i], penalties[i], expected[i], repaid[i]))
  }

  /** The specification of one numeric column of the normalised frame. */
  function LoanColumn(sheet: Sheet, c: NumericColumn): (col: seq<real>)
    ensures |col| == |sheet.rows|
  {
    seq(|sheet.rows|, i requires 0 <= i < |sheet.rows| => Amount(NormaliseRow(sheet, sheet.rows[i]), c))
  }

  lemma BaseColumnStep(sheet: Sheet, c: NumericColumn)
    requires c in {PrincipalAmount, PrincipalOutstanding, PenaltiesOverdue}
    ensures FillNaColumn(if HasColumn(sheet, c) then RawColumn(sheet.rows, c) else Zeros(|sheet.rows|))
            == LoanColumn(sheet, c)
  {
  }

  lemma ExpectedColumnStep(sheet: Sheet)
    ensures (if HasColumn(sheet, TotalExpectedRepayment)
             then FillNaColumn(RawColumn(sheet.rows, TotalExpectedRepayment))
             else AddColumns(LoanColumn(sheet, PrincipalAmount), LoanColumn(sheet, PenaltiesOverdue)))
            == LoanColumn(sheet, TotalExpectedRepayment)
  {
    var spec := LoanColumn(sheet, TotalExpectedRepayment);
    if HasColumn(sheet, TotalExpectedRepayment) {
      var col := FillNaColumn(RawColumn(sheet.rows, TotalExpectedRepayment));
      forall i | 0 <= i < |col| ensures col[i] == spec[i] { }
    } else {
      var col := AddColumns(LoanColumn(sheet, PrincipalAmount), LoanColumn(sheet, PenaltiesOverdue));
      forall i | 0 <= i < |col| ensures col[i] == spec[i] { }
    }
  }

  lemma RepaidColumnStep(sheet: Sheet)
    ensures (if HasColumn(sheet, TotalRepayment)
             then FillNaColumn(RawColumn(sheet.rows, TotalRepayment))
             else SubtractColumns(LoanColumn(sheet, PrincipalAmount), LoanColumn(sheet, PrincipalOutstanding)))
            == LoanColumn(sheet, TotalRepayment)
  {
    var spec := LoanColumn(sheet, TotalRepayment);
    if HasColumn(sheet, TotalRepayment) {
      var col := FillNaColumn(RawColumn(sheet.rows, TotalRepayment));
      forall i | 0 <= i < |col| ensures col[i] == spec[i] { }
    } else {
      var col := SubtractColumns(LoanColumn(sheet, PrincipalAmount), LoanColumn(sheet, PrincipalOutstanding));
      forall i | 0 <= i < |col| ensures col[i] == spec[i] { }
    }
  }

  lemma AssembleColumns(sheet: Sheet)
    ensures Assemble(sheet.rows, LoanColumn(sheet, PrincipalAmount), LoanColumn(sheet, PrincipalOutstanding),
                     LoanColumn(sheet, PenaltiesOverdue), LoanColumn(sheet, TotalExpectedRepayment),
                     LoanColumn(sheet, TotalRepayment))
            == Normalise(sheet)
  {
  }

  /** load_data as the script runs it: the data frame is a map from column to
      column values, updated column by column. */
  method LoadData(sheet: Sheet) returns (loans: seq<Loan>)
    ensures loans == Normalise(sheet)
  {
    var rows := sheet.rows;
    var frame: map<NumericColumn, seq<real>> := map[];
    var base := [PrincipalAmount, PrincipalOutstanding, PenaltiesOverdue];
    for k := 0 to |base|
      invariant forall j :: 0 <= j < k ==> base[j] in frame && frame[base[j]] == LoanColumn(sheet, base[j])
    {
      var c := base[k];
      var raw := if HasColumn(sheet, c) then RawColumn(rows, c) else Zeros(|rows|);
      frame := frame[c := FillNaColumn(raw)];
      BaseColumnStep(sheet, c);
    }
    assert base[0] in frame && base[1] in frame && base[2] in frame;
    var principal, outstanding, penalties := frame[PrincipalAmount], frame[PrincipalOutstanding], frame[PenaltiesOverdue];
    if !HasColumn(sheet, TotalExpectedRepayment) {
      frame := frame[TotalExpectedRepayment := AddColumns(principal, penalties)];
    } else {
      frame := frame[TotalExpectedRepayment := FillNaColumn(RawColumn(rows, TotalExpectedRepayment))];
    }
    ExpectedColumnStep(sheet);
    if !HasColumn(sheet, TotalRepayment) {
      frame := frame[TotalRepayment := SubtractColumns(principal, outstanding)];
    } else {
      frame := frame[TotalRepayment := FillNaColumn(RawColumn(rows, TotalRepayment))];
    }
    RepaidColumnStep(sheet);
    AssembleColumns(sheet);
    loans := Assemble(rows, principal, outstanding, penalties, frame[TotalExpectedRepayment], frame[TotalRepayment]);
  }
}
