/** The records the arrears report works on: the loan sheet as the parsers leave it,
    and one loan after load_data has normalised it. */
module Records {

  datatype Option<+T> = None | Some(value: T)

  /** A calendar day. Maturity dates are compared at day granularity. */
  datatype Date = Date(year: int, month: int, day: int)

  /** Chronological order on days: by year, then month, then day. */
  predicate DateLe(a: Date, b: Date) {
    || a.year < b.year
    || (a.year == b.year && a.month < b.month)
    || (a.year == b.year && a.month == b.month && a.day <= b.day)
  }

  /** The five numeric columns the report reads. */
  datatype NumericColumn =
    | PrincipalAmount
    | PrincipalOutstanding
    | PenaltiesOverdue
    | TotalExpectedRepayment
    | TotalRepayment

  /** The header under which each numeric column is looked up. */
  function Header(c: NumericColumn): string {
    match c
    case PrincipalAmount => "Principal Amount"
    case PrincipalOutstanding => "Principal Outstanding Derived"
    case PenaltiesOverdue => "Penalties Overdue Derived"
    case TotalExpectedRepayment => "Total Expected Repayment Derived"
    case TotalRepayment => "Total Repayment Derived"
  }

  /** One sheet row as the foreign parsers leave it: the maturity date after a
      coercing day-first date parse (None for an unparsable cell), and each
      numeric cell after a coercing number parse (None for NaN). */
  datatype RawRow = RawRow(
    branch: string,
    maturity: Option<Date>,
    principal: Option<real>,
    outstanding: Option<real>,
    penalties: Option<real>,
    expected: Option<real>,
    repaid: Option<real>)

  function Cell(row: RawRow, c: NumericColumn): Option<real> {
    match c
    case PrincipalAmount => row.principal
    case PrincipalOutstanding => row.outstanding
    case PenaltiesOverdue => row.penalties
    case TotalExpectedRepayment => row.expected
    case TotalRepayment => row.repaid
  }

  /** The sheet: its header row as written (before trimming) and its data rows.
      The cells of a column whose header is absent are never read. */
  datatype Sheet = Sheet(headers: seq<string>, rows: seq<RawRow>)

  /** A loan record after normalisation: every amount is a number. */
  datatype Loan = Loan(
    branch: string,
    maturity: Option<Date>,
    principal: real,
    outstanding: real,
    penalties: real,
    expected: real,
    repaid: real)

  function Amount(x: Loan, c: NumericColumn): real {
    match c
    case PrincipalAmount => x.principal
    case PrincipalOutstanding => x.outstanding
    case PenaltiesOverdue => x.penalties
    case TotalExpectedRepayment => x.expected
    case TotalRepayment => x.repaid
  }
}
