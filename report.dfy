/** The report table: the grouped totals gain the "Collected by 21", "Arrears
    collected" and "Commission (3%)" columns one after another, then its five
    amount columns are overwritten by their currency text. */
module Report {
  import opened Records
  import Loader
  import Selection
  import opened Aggregation
  import Arrears
  import Currency

  /** The five amount columns of the report, in the order they are formatted. */
  datatype ReportColumn =
    | ExpectedColumn     // "Expected (maturing 1–21 Jan)"
    | RepaidColumn       // "Total Repayment Derived"
    | CollectedColumn    // "Collected by 21"
    | ArrearsColumn      // "Arrears collected"
    | CommissionColumn   // "Commission (3%)"

  const FormattedColumns: seq<ReportColumn> :=
    [ExpectedColumn, RepaidColumn, CollectedColumn, ArrearsColumn, CommissionColumn]

  /** A column holds numbers until it is formatted, then text. */
  datatype Cells = Numbers(values: seq<real>) | Texts(texts: seq<string>) {
    function Length(): nat {
      if Numbers? then |values| else |texts|
    }
  }

  function BranchNames(gs: seq<Group>): (names: seq<string>)
    ensures |names| == |gs|
  {
    seq(|gs|, i requires 0 <= i < |gs| => gs[i].branch)
  }

  function ExpectedTotals(gs: seq<Group>): (col: seq<real>)
    ensures |col| == |gs|
  {
    seq(|gs|, i requires 0 <= i < |gs| => gs[i].totals.expected)
  }

  function RepaidTotals(gs: seq<Group>): (col: seq<real>)
    ensures |col| == |gs|
  {
    seq(|gs|, i requires 0 <= i < |gs| => gs[i].totals.repaid)
  }

  /** `names.str.strip().map(collected_by_21_map).fillna(0)`. */
  function CollectedColumnOf(names: seq<string>): (col: seq<real>)
    ensures |col| == |names|
  {
    seq(|names|, i requires 0 <= i < |names| => Arrears.CollectedBy21(names[i]))
  }

  /** `(repaid - collected).clip(lower=0)`. */
  function ArrearsColumnOf(repaid: seq<real>, collected: seq<real>): (col: seq<real>)
    requires |repaid| == |collected|
    ensures |col| == |repaid|
  {
    seq(|repaid|, i requires 0 <= i < |repaid| => Arrears.ArrearsCollected(repaid[i], collected[i]))
  }

  /** `arrears * 0.03`. */
  function CommissionColumnOf(arrears: seq<real>): (col: seq<real>)
    ensures |col| == |arrears|
  {
    seq(|arrears|, i requires 0 <= i < |arrears| => Arrears.Commission(arrears[i]))
  }

  /** `column.map(lambda x: f"Ksh {x:,.0f}")`. */
  function FormatColumn(values: seq<real>): (texts: seq<string>)
    ensures |texts| == |values|
  {
    seq(|values|, i requires 0 <= i < |values| => Currency.FormatKsh(values[i]))
  }

  /** One amount of a report row. */
  function AmountOf(row: Arrears.BranchRow, c: ReportColumn): real {
    match c
    case ExpectedColumn => row.expected
    case RepaidColumn => row.repaid
    case CollectedColumn => row.collected
    case ArrearsColumn => row.arrears
    case CommissionColumn => row.commission
  }

  function AmountColumn(rows: seq<Arrears.BranchRow>, c: ReportColumn): (col: seq<real>)
    ensures |col| == |rows|
  {
    seq(|rows|, i requires 0 <= i < |rows| => AmountOf(rows[i], c))
  }

  /** The displayed report: every amount column of the rows, as currency text. */
  function Rendered(rows: seq<Arrears.BranchRow>): map<ReportColumn, Cells> {
    map c | c in FormattedColumns :: Texts(FormatColumn(AmountColumn(rows, c)))
  }

  /** The report the script displays for a sheet: its rows before formatting. */
  function ReportFor(sheet: Sheet): seq<Arrears.BranchRow> {
    Arrears.ReportRows(GroupByBranch(Selection.Selected(Loader.Normalise(sheet))))
  }

  lemma EveryColumnFormatted(c: ReportColumn)
    ensures c in FormattedColumns
  {
  }

  /** `expected_by_branch`: one row per branch, columns added and overwritten in place. */
  class BranchTable {
    var branch: seq<string>
    var columns: map<ReportColumn, Cells>

    ghost predicate Valid()
      reads this
    {
      forall c :: c in columns ==> columns[c].Length() == |branch|
    }

    predicate IsNumeric(c: ReportColumn)
      reads this
    {
      c in columns && columns[c].Numbers?
    }

    /** Every amount column is present and still numeric. */
    predicate AllNumeric()
      reads this
    {
      forall c: ReportColumn :: c in columns && columns[c].Numbers?
    }

    /** The group-by result with its expected total renamed. */
    constructor FromGroups(gs: seq<Group>)
      ensures Valid()
      ensures branch == BranchNames(gs)
      ensures columns == map[ExpectedColumn := Numbers(ExpectedTotals(gs)), RepaidColumn := Numbers(RepaidTotals(gs))]
    {
      branch := BranchNames(gs);
      columns := map[ExpectedColumn := Numbers(ExpectedTotals(gs)), RepaidColumn := Numbers(RepaidTotals(gs))];
    }

    method AddCollectedBy21()
      requires Valid()
      modifies this
      ensures Valid() && branch == old(branch)
      ensures columns == old(columns)[CollectedColumn := Numbers(CollectedColumnOf(branch))]
    {
      columns := columns[CollectedColumn := Numbers(CollectedColumnOf(branch))];
    }

    method AddArrears()
      requires Valid() && IsNumeric(RepaidColumn) && IsNumeric(CollectedColumn)
      modifies this
      ensures Valid() && branch == old(branch)
      ensures columns == old(columns)[ArrearsColumn := Numbers(ArrearsColumnOf(
                old(columns)[RepaidColumn].values, old(columns)[CollectedColumn].values))]
    {
      var arrears := ArrearsColumnOf(columns[RepaidColumn].values, columns[CollectedColumn].values);
      columns := columns[ArrearsColumn := Numbers(arrears)];
    }

    method AddCommission()
      requires Valid() && IsNumeric(ArrearsColumn)
      modifies this
      ensures Valid() && branch == old(branch)
      ensures columns == old(columns)[CommissionColumn := Numbers(CommissionColumnOf(old(columns)[ArrearsColumn].values))]
    {
      columns := columns[CommissionColumn := Numbers(CommissionColumnOf(columns[ArrearsColumn].values))];
    }

    /** Overwrites each amount column, in turn, by its currency text. */
    method FormatCurrency()
      requires Valid() && AllNumeric()
      modifies this
      ensures Valid() && branch == old(branch)
      ensures columns == map c | c in FormattedColumns :: Texts(FormatColumn(old(columns)[c].values))
    {
      for k := 0 to |FormattedColumns|
        invariant Valid() && branch == old(branch)
        invariant columns.Keys == old(columns).Keys
        invariant forall j :: 0 <= j < k ==>
                    columns[FormattedColumns[j]] == Texts(FormatColumn(old(columns)[FormattedColumns[j]].values))
        invariant forall j :: k <= j < |FormattedColumns| ==> columns[FormattedColumns[j]] == old(columns)[FormattedColumns[j]]
      {
        var c := FormattedColumns[k];
        columns := columns[c := Texts(FormatColumn(columns[c].values))];
      }
      forall c | c in FormattedColumns
        ensures columns[c] == Texts(FormatColumn(old(columns)[c].values))
      {
      }
      forall c | c in columns ensures c in FormattedColumns {
        EveryColumnFormatted(c);
      }
    }
  }

  /** The script from the loaded sheet to the displayed table. */
  method RunReport(sheet: Sheet) returns (table: BranchTable)
    ensures fresh(table) && table.Valid()
    ensures table.branch == BranchNames(GroupByBranch(Selection.Selected(Loader.Normalise(sheet))))
    ensures table.columns == Rendered(ReportFor(sheet))
  {
    var loans := Loader.LoadData(sheet);
    var inWindow := Selection.Filter(loans, Selection.MaturesInWindow);
    var kept := Selection.Filter(inWindow, Selection.IsKeptBranch);
    var gs := GroupByBranch(kept);
    table := new BranchTable.FromGroups(gs);
    table.AddCollectedBy21();
    table.AddArrears();
    table.AddCommission();
    ghost var numbers := table.columns;
    ReportColumns(gs, numbers);
    assert table.AllNumeric();
    table.FormatCurrency();
    assert kept == Selection.Selected(Loader.Normalise(sheet));
  }

  lemma GroupColumnsMatch(gs: seq<Group>)
    ensures ExpectedTotals(gs) == AmountColumn(Arrears.ReportRows(gs), ExpectedColumn)
    ensures RepaidTotals(gs) == AmountColumn(Arrears.ReportRows(gs), RepaidColumn)
  {
  }

  lemma CollectedAt(gs: seq<Group>, i: nat)
    requires i < |gs|
    ensures CollectedColumnOf(BranchNames(gs))[i] == Arrears.ReportRows(gs)[i].collected
  {
    var b := gs[i].branch;
    assert BranchNames(gs)[i] == b;
    assert CollectedColumnOf(BranchNames(gs))[i] == Arrears.CollectedBy21(b);
    assert Arrears.ReportRows(gs)[i].collected == Arrears.CollectedBy21(b);
  }

  lemma CollectedColumnMatches(gs: seq<Group>)
    ensures CollectedColumnOf(BranchNames(gs)) == AmountColumn(Arrears.ReportRows(gs), CollectedColumn)
  {
    var rows := Arrears.ReportRows(gs);
    var names := BranchNames(gs);
    var col := CollectedColumnOf(names);
    var amounts := AmountColumn(rows, CollectedColumn);
    assert |col| == |amounts|;
    forall i | 0 <= i < |gs| ensures col[i] == amounts[i] {
      CollectedAt(gs, i);
    }
  }

  lemma ArrearsColumnMatches(gs: seq<Group>)
    ensures ArrearsColumnOf(RepaidTotals(gs), CollectedColumnOf(BranchNames(gs)))
            == AmountColumn(Arrears.ReportRows(gs), ArrearsColumn)
  {
    var rows := Arrears.ReportRows(gs);
    var col := ArrearsColumnOf(RepaidTotals(gs), CollectedColumnOf(BranchNames(gs)));
    forall i | 0 <= i < |gs| ensures col[i] == rows[i].arrears { }
  }

  lemma CommissionColumnMatches(gs: seq<Group>)
    ensures CommissionColumnOf(ArrearsColumnOf(RepaidTotals(gs), CollectedColumnOf(BranchNames(gs))))
            == AmountColumn(Arrears.ReportRows(gs), CommissionColumn)
  {
    ArrearsColumnMatches(gs);
    var rows := Arrears.ReportRows(gs);
    var col := CommissionColumnOf(AmountColumn(rows, ArrearsColumn));
    forall i | 0 <= i < |gs| ensures col[i] == rows[i].commission { }
  }

  /** The numeric columns built step by step, once formatted, are the rendered report rows. */
  lemma ReportColumns(gs: seq<Group>, numbers: map<ReportColumn, Cells>)
    requires
      var collected := CollectedColumnOf(BranchNames(gs));
      var arrears := ArrearsColumnOf(RepaidTotals(gs), collected);
      numbers == map[ExpectedColumn := Numbers(ExpectedTotals(gs)), RepaidColumn := Numbers(RepaidTotals(gs))]
                   [CollectedColumn := Numbers(collected)]
                   [ArrearsColumn := Numbers(arrears)]
                   [CommissionColumn := Numbers(CommissionColumnOf(arrears))]
    ensures forall c: ReportColumn :: c in numbers && numbers[c].Numbers?
    ensures (map c | c in FormattedColumns :: Texts(FormatColumn(numbers[c].values)))
            == Rendered(Arrears.ReportRows(gs))
  {
    forall c: ReportColumn ensures c in numbers && numbers[c].Numbers? {
      EveryColumnFormatted(c);
    }
    GroupColumnsMatch(gs);
    CollectedColumnMatches(gs);
    ArrearsColumnMatches(gs);
    CommissionColumnMatches(gs);
    var rows := Arrears.ReportRows(gs);
    forall c | c in FormattedColumns ensures numbers[c].values == AmountColumn(rows, c) {
    }
  }

  /** Arrears of 500,000 earn a commission shown as "Ksh 15,000". */
  lemma CommissionCellExample()
    ensures Currency.FormatKsh(Arrears.Commission(500_000.0)) == "Ksh 15,000"
  {
    Arrears.CommissionExample();
    Currency.RoundWhole(15_000);
    assert Currency.Digits(1) == "1";
    assert Currency.Digits(15) == "15";
    assert Currency.Digits(150) == "150";
    assert Currency.Digits(1_500) == "1500";
    assert Currency.Digits(15_000) == "15000";
    assert Currency.InsertCommas("15000") == "15,000";
  }
}
