/** The per-branch report figures: the amount already collected by the 21st,
    the arrears collected above it, and the commission on those arrears. */
module Arrears {
  import opened Text
  import opened Aggregation

  /** Amounts already collected by the 21st, by stripped branch name. */
  const CollectedBy21Table: map<string, int> := map[
    "Kitengala Branch" := 128_600,
    "Kawangware Branch" := 1_148_531,
    "Adams Branch" := 2_401_437,
    "Pipeline Branch" := 2_525_739,
    "Utawala Branch" := 1_705_601,
    "Kasarani Branch" := 1_681_908,
    "Kiambu Branch" := 1_279_769
  ]

  /** Every amount in the table is positive. */
  lemma TableAmountsPositive(key: string)
    requires key in CollectedBy21Table
    ensures CollectedBy21Table[key] > 0
  {
  }

  /** The commission rate, 3%. */
  const CommissionRate: real := 0.03

  /** "Collected by 21": the table entry for the stripped branch name, 0 when it has none. */
  function CollectedBy21(branch: string): (r: real)
    ensures r >= 0.0
    ensures Trim(branch) !in CollectedBy21Table <==> r == 0.0
    ensures Trim(branch) in CollectedBy21Table ==> r == CollectedBy21Table[Trim(branch)] as real
  {
    var key := Trim(branch);
    if key in CollectedBy21Table then TableAmountsPositive(key); CollectedBy21Table[key] as real else 0.0
  }

  /** "Arrears collected": the repayment above what was already collected, clipped below at 0. */
  function ArrearsCollected(repaid: real, collected: real): (r: real)
    ensures r >= 0.0 && r >= repaid - collected
    ensures r == 0.0 || r == repaid - collected
  {
    if repaid - collected > 0.0 then repaid - collected else 0.0
  }

  /** "Commission (3%)". */
  function Commission(arrears: real): (r: real)
    ensures 0.0 <= arrears ==> 0.0 <= r <= arrears
    ensures r * 100.0 == arrears * 3.0
  {
    arrears * CommissionRate
  }

  /** One row of the report before formatting. */
  datatype BranchRow = BranchRow(
    branch: string,
    expected: real,
    repaid: real,
    collected: real,
    arrears: real,
    commission: real)

  /** The report row of one group. */
  function ReportRow(g: Group): (row: BranchRow)
    ensures row.branch == g.branch && row.expected == g.totals.expected && row.repaid == g.totals.repaid
    ensures row.collected == CollectedBy21(g.branch)
    ensures row.collected >= 0.0 && row.arrears >= 0.0 && row.arrears >= row.repaid - row.collected
    ensures row.arrears == 0.0 || row.arrears == row.repaid - row.collected
    ensures row.commission * 100.0 == row.arrears * 3.0 && 0.0 <= row.commission <= row.arrears
  {
    var collected := CollectedBy21(g.branch);
    var arrears := ArrearsCollected(g.totals.repaid, collected);
    BranchRow(g.branch, g.totals.expected, g.totals.repaid, collected, arrears, Commission(arrears))
  }

  function ReportRows(gs: seq<Group>): (rows: seq<BranchRow>)
    ensures |rows| == |gs|
  {
    seq(|gs|, i requires 0 <= i < |gs| => ReportRow(gs[i]))
  }

  /** Surrounding whitespace in the branch name does not change the lookup. */
  lemma CollectedIgnoresPadding(p: string, branch: string, q: string)
    requires AllSpace(p) && AllSpace(q)
    ensures CollectedBy21(p + branch + q) == CollectedBy21(branch)
  {
    TrimIgnoresPadding(p, branch, q);
  }

  /** The arrears never go negative; a branch missing from the table keeps its
      whole non-negative repayment as arrears. */
  lemma UnlistedBranchArrears(g: Group)
    requires Trim(g.branch) !in CollectedBy21Table && g.totals.repaid >= 0.0
    ensures ReportRow(g).collected == 0.0
    ensures ReportRow(g).arrears == g.totals.repaid
  {
  }

  /** A branch that has already collected at least its repayment shows no arrears and no commission. */
  lemma CollectedAtLeastRepaid(g: Group)
    requires CollectedBy21(g.branch) >= g.totals.repaid
    ensures ReportRow(g).arrears == 0.0 && ReportRow(g).commission == 0.0
  {
  }

  /** Commission grows with the arrears. */
  lemma CommissionMonotone(a: real, b: real)
    requires a <= b
    ensures Commission(a) <= Commission(b)
  {
  }

  /** Kawangware, with 1,000,000 repaid against 1,148,531 already collected, shows no arrears. */
  lemma KawangwareExample()
    ensures ReportRow(Group("Kawangware Branch", Totals(0.0, 1_000_000.0))).arrears == 0.0
  {
    var name := "Kawangware Branch";
    TrimUnpadded(name);
    assert CollectedBy21Table[name] == 1_148_531;
  }

  /** Arrears of 500,000 earn a commission of 15,000. */
  lemma CommissionExample()
    ensures Commission(500_000.0) == 15_000.0
  {
  }

  function ArrearsTotal(rows: seq<BranchRow>): real {
    if rows == [] then 0.0 else rows[0].arrears + ArrearsTotal(rows[1..])
  }

  function CommissionTotal(rows: seq<BranchRow>): real {
    if rows == [] then 0.0 else rows[0].commission + CommissionTotal(rows[1..])
  }

  /** Summed over the report, the commissions are 3% of the summed arrears,
      and neither is negative. */
  lemma {:induction false} CommissionOfTotal(gs: seq<Group>)
    ensures CommissionTotal(ReportRows(gs)) * 100.0 == ArrearsTotal(ReportRows(gs)) * 3.0
    ensures ArrearsTotal(ReportRows(gs)) >= 0.0
  {
    if gs != [] {
      CommissionOfTotal(gs[1..]);
      assert ReportRows(gs)[1..] == ReportRows(gs[1..]);
    }
  }
}
