/** The group-by on Branch Name that sums the two totals of the selected loans. */
module Aggregation {
  import opened Records

  /** The two summed columns. */
  datatype Totals = Totals(expected: real, repaid: real)

  const Zero := Totals(0.0, 0.0)

  function Add(a: Totals, b: Totals): Totals {
    Totals(a.expected + b.expected, a.repaid + b.repaid)
  }

  /** What one loan adds to its branch. */
  function Contribution(x: Loan): Totals {
    Totals(x.expected, x.repaid)
  }

  /** One output row of the group-by: a branch and its sums. */
  datatype Group = Group(branch: string, totals: Totals)

  /** Sum of the totals of all loans. */
  function Sum(ls: seq<Loan>): Totals {
    if ls == [] then Zero else Add(Sum(ls[..|ls| - 1]), Contribution(ls[|ls| - 1]))
  }

  /** Sum of the totals of the loans of one branch: the reference the group-by is measured against. */
  function SumFor(ls: seq<Loan>, b: string): Totals {
    if ls == [] then Zero
    else Add(SumFor(ls[..|ls| - 1], b), if ls[|ls| - 1].branch == b then Contribution(ls[|ls| - 1]) else Zero)
  }

  /** Adds one loan to the groups built so far: to its branch's group, or as a new group. */
  function Accumulate(gs: seq<Group>, x: Loan): (r: seq<Group>)
    ensures |r| == |gs| || |r| == |gs| + 1
  {
    if gs == [] then [Group(x.branch, Contribution(x))]
    else if gs[0].branch == x.branch then [Group(x.branch, Add(gs[0].totals, Contribution(x)))] + gs[1..]
    else [gs[0]] + Accumulate(gs[1..], x)
  }

  /** `df.groupby("Branch Name")[...].sum()`. pandas sorts the group keys; this
      model lists them in order of first appearance instead. */
  function GroupByBranch(ls: seq<Loan>): (gs: seq<Group>)
    ensures |gs| <= |ls|
  {
    if ls == [] then [] else Accumulate(GroupByBranch(ls[..|ls| - 1]), ls[|ls| - 1])
  }

  ghost predicate DistinctBranches(gs: seq<Group>) {
    forall i, j :: 0 <= i < j < |gs| ==> gs[i].branch != gs[j].branch
  }

  function Branches(gs: seq<Group>): set<string> {
    set g | g in gs :: g.branch
  }

  function LoanBranches(ls: seq<Loan>): set<string> {
    set x | x in ls :: x.branch
  }

  /** Sum of the totals of the groups keyed b (one group once keys are distinct). */
  function GroupTotalsFor(gs: seq<Group>, b: string): Totals {
    if gs == [] then Zero
    else Add(if gs[0].branch == b then gs[0].totals else Zero, GroupTotalsFor(gs[1..], b))
  }

  /** Sum of the totals over all groups. */
  function GroupsTotal(gs: seq<Group>): Totals {
    if gs == [] then Zero else Add(gs[0].totals, GroupsTotal(gs[1..]))
  }

  lemma {:induction false} AccumulateBranchTotals(gs: seq<Group>, x: Loan, b: string)
    ensures GroupTotalsFor(Accumulate(gs, x), b)
            == Add(GroupTotalsFor(gs, b), if x.branch == b then Contribution(x) else Zero)
  {
    var extra := if x.branch == b then Contribution(x) else Zero;
    if gs == [] {
      assert GroupTotalsFor([Group(x.branch, Contribution(x))], b) == Add(extra, GroupTotalsFor([], b));
    } else {
      var r := Accumulate(gs, x);
      var head := if gs[0].branch == b then gs[0].totals else Zero;
      assert GroupTotalsFor(gs, b) == Add(head, GroupTotalsFor(gs[1..], b));
      if gs[0].branch == x.branch {
        assert r[1..] == gs[1..];
        assert GroupTotalsFor(r, b) == Add(if r[0].branch == b then r[0].totals else Zero, GroupTotalsFor(gs[1..], b));
      } else {
        AccumulateBranchTotals(gs[1..], x, b);
        assert r[0] == gs[0] && r[1..] == Accumulate(gs[1..], x);
        assert GroupTotalsFor(r, b) == Add(head, GroupTotalsFor(Accumulate(gs[1..], x), b));
      }
    }
  }

  lemma {:induction false} AccumulateGrandTotal(gs: seq<Group>, x: Loan)
    ensures GroupsTotal(Accumulate(gs, x)) == Add(GroupsTotal(gs), Contribution(x))
  {
    if gs == [] {
    } else if gs[0].branch == x.branch {
      var r := Accumulate(gs, x);
      assert r[1..] == gs[1..];
    } else {
      AccumulateGrandTotal(gs[1..], x);
      var r := Accumulate(gs, x);
      assert r[0] == gs[0] && r[1..] == Accumulate(gs[1..], x);
    }
  }

  /** Adding to an existing group changes no key. */
  lemma AccumulateKeysExisting(gs: seq<Group>, x: Loan)
    requires DistinctBranches(gs) && gs != [] && gs[0].branch == x.branch
    ensures DistinctBranches(Accumulate(gs, x))
    ensures Branches(Accumulate(gs, x)) == Branches(gs) + {x.branch}
  {
    var r := Accumulate(gs, x);
    assert r[1..] == gs[1..];
    assert forall k :: 0 <= k < |r| ==> r[k].branch == gs[k].branch;
    BranchesCons(gs);
    BranchesCons(r);
  }

  lemma BranchesCons(gs: seq<Group>)
    requires gs != []
    ensures Branches(gs) == {gs[0].branch} + Branches(gs[1..])
  {
    assert gs == [gs[0]] + gs[1..];
  }

  /** The groups after the first keep distinct keys. */
  lemma DistinctRest(gs: seq<Group>)
    requires DistinctBranches(gs) && gs != []
    ensures DistinctBranches(gs[1..])
  {
    forall a, c | 0 <= a < c < |gs| - 1 ensures gs[1..][a].branch != gs[1..][c].branch {
      assert gs[1..][a] == gs[a + 1] && gs[1..][c] == gs[c + 1];
    }
  }

  /** The groups after the first keep distinct keys, none of them the first one's. */
  lemma DistinctTail(gs: seq<Group>)
    requires DistinctBranches(gs) && gs != []
    ensures DistinctBranches(gs[1..])
    ensures gs[0].branch !in Branches(gs[1..])
  {
    DistinctRest(gs);
    forall g | g in gs[1..] ensures g.branch != gs[0].branch {
      var k :| 0 <= k < |gs[1..]| && gs[1..][k] == g;
      assert gs[k + 1] == g;
    }
  }

  lemma {:induction false} AccumulateKeys(gs: seq<Group>, x: Loan)
    requires DistinctBranches(gs)
    ensures DistinctBranches(Accumulate(gs, x))
    ensures Branches(Accumulate(gs, x)) == Branches(gs) + {x.branch}
  {
    if gs != [] {
      if gs[0].branch == x.branch {
        AccumulateKeysExisting(gs, x);
      } else {
        var rest := Accumulate(gs[1..], x);
        var r := Accumulate(gs, x);
        DistinctTail(gs);
        AccumulateKeys(gs[1..], x);
        assert r[0] == gs[0] && r[1..] == rest;
        BranchesCons(gs);
        BranchesCons(r);
        forall i, j | 0 <= i < j < |r| ensures r[i].branch != r[j].branch {
          if i == 0 {
            assert r[j] == rest[j - 1];
            assert r[j] in rest;
          } else {
            assert r[i] == rest[i - 1] && r[j] == rest[j - 1];
          }
        }
      }
    }
  }

  /** The group-by yields one row per distinct branch of the loans, and each row
      holds exactly the sums over that branch's loans. */
  lemma {:induction false} GroupByBranchSums(ls: seq<Loan>)
    ensures DistinctBranches(GroupByBranch(ls))
    ensures Branches(GroupByBranch(ls)) == LoanBranches(ls)
    ensures forall b :: GroupTotalsFor(GroupByBranch(ls), b) == SumFor(ls, b)
    ensures GroupsTotal(GroupByBranch(ls)) == Sum(ls)
  {
    if ls != [] {
      var init, x := ls[..|ls| - 1], ls[|ls| - 1];
      GroupByBranchSums(init);
      AccumulateKeys(GroupByBranch(init), x);
      assert ls == init + [x];
      assert LoanBranches(ls) == LoanBranches(init) + {x.branch};
      forall b ensures GroupTotalsFor(GroupByBranch(ls), b) == SumFor(ls, b) {
        AccumulateBranchTotals(GroupByBranch(init), x, b);
      }
      AccumulateGrandTotal(GroupByBranch(init), x);
    }
  }

  /** With distinct keys, the first group's totals are all that is summed under its branch. */
  lemma FirstGroupTotals(gs: seq<Group>)
    requires DistinctBranches(gs) && gs != []
    ensures GroupTotalsFor(gs, gs[0].branch) == gs[0].totals
  {
    var rest := gs[1..];
    forall k | 0 <= k < |rest| ensures rest[k].branch != gs[0].branch {
      assert rest[k] == gs[k + 1];
    }
    NoGroupTotals(rest, gs[0].branch);
  }

  /** With distinct keys, a group's totals are all that is summed under its branch. */
  lemma {:induction false} DistinctGroupTotals(gs: seq<Group>, i: nat)
    requires DistinctBranches(gs) && i < |gs|
    ensures GroupTotalsFor(gs, gs[i].branch) == gs[i].totals
  {
    if i == 0 {
      FirstGroupTotals(gs);
    } else {
      var rest, b := gs[1..], gs[i].branch;
      assert rest[i - 1] == gs[i];
      assert gs[0].branch != b;
      DistinctRest(gs);
      DistinctGroupTotals(rest, i - 1);
      assert GroupTotalsFor(gs, b) == Add(Zero, GroupTotalsFor(rest, b));
    }
  }

  lemma {:induction false} NoGroupTotals(gs: seq<Group>, b: string)
    requires forall k :: 0 <= k < |gs| ==> gs[k].branch != b
    ensures GroupTotalsFor(gs, b) == Zero
  {
    if gs != [] {
      NoGroupTotals(gs[1..], b);
    }
  }

  /** Each output row of the group-by holds the sums over its branch's loans,
      and the rows together hold the sums over all loans. */
  lemma GroupByBranchSpec(ls: seq<Loan>)
    ensures DistinctBranches(GroupByBranch(ls))
    ensures Branches(GroupByBranch(ls)) == LoanBranches(ls)
    ensures forall i :: 0 <= i < |GroupByBranch(ls)| ==>
              GroupByBranch(ls)[i].totals == SumFor(ls, GroupByBranch(ls)[i].branch)
    ensures GroupsTotal(GroupByBranch(ls)) == Sum(ls)
  {
    GroupByBranchSums(ls);
    var gs := GroupByBranch(ls);
    forall i | 0 <= i < |gs| ensures gs[i].totals == SumFor(ls, gs[i].branch) {
      DistinctGroupTotals(gs, i);
    }
  }
}
