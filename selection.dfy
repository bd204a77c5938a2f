/** The two row filters: the maturity window and the excluded branch. */
module Selection {
  import opened Records
  import opened Text

  const WindowStart := Date(2026, 1, 1)
  const WindowEnd := Date(2026, 1, 21)

  /** The excluded branch, as its stripped and lower-cased name. */
  const ExcludedBranch := "advans branch"

  /** Maturity within the closed window; an unparsed date compares false on both ends. */
  predicate InWindow(d: Option<Date>) {
    d.Some? && DateLe(WindowStart, d.value) && DateLe(d.value, WindowEnd)
  }

  /** The window holds exactly the days 1 to 21 of January 2026, both ends included. */
  lemma InWindowExactly(d: Option<Date>)
    ensures InWindow(d) <==> d.Some? && d.value.year == 2026 && d.value.month == 1 && 1 <= d.value.day <= 21
  {
  }

  predicate IsExcluded(branch: string) {
    LowerAscii(Trim(branch)) == ExcludedBranch
  }

  predicate MaturesInWindow(x: Loan) {
    InWindow(x.maturity)
  }

  predicate IsKeptBranch(x: Loan) {
    !IsExcluded(x.branch)
  }

  /** A loan that survives both filters. */
  predicate Keep(x: Loan) {
    MaturesInWindow(x) && IsKeptBranch(x)
  }

  /** Boolean-mask selection `df[mask]`: the rows satisfying keep, in their order. */
  function Filter(ls: seq<Loan>, keep: Loan -> bool): (r: seq<Loan>)
    ensures |r| <= |ls|
    ensures forall k :: 0 <= k < |r| ==> keep(r[k])
  {
    if ls == [] then [] else (if keep(ls[0]) then [ls[0]] else []) + Filter(ls[1..], keep)
  }

  /** a is what is left of b after deleting some of its elements. */
  ghost predicate IsSubsequence(a: seq<Loan>, b: seq<Loan>)
    decreases |b|
  {
    if b == [] then a == []
    else (a != [] && a[0] == b[0] && IsSubsequence(a[1..], b[1..])) || IsSubsequence(a, b[1..])
  }

  /** Filter keeps its input's order. */
  lemma {:induction false} FilterIsSubsequence(ls: seq<Loan>, keep: Loan -> bool)
    ensures IsSubsequence(Filter(ls, keep), ls)
  {
    if ls != [] {
      FilterIsSubsequence(ls[1..], keep);
      var r := Filter(ls, keep);
      if keep(ls[0]) {
        assert r[0] == ls[0] && r[1..] == Filter(ls[1..], keep);
      } else {
        assert r == Filter(ls[1..], keep);
      }
    }
  }

  /** Filter keeps exactly the occurrences that satisfy keep. */
  lemma {:induction false} FilterCount(ls: seq<Loan>, keep: Loan -> bool, x: Loan)
    ensures multiset(Filter(ls, keep))[x] == if keep(x) then multiset(ls)[x] else 0
  {
    if ls != [] {
      FilterCount(ls[1..], keep, x);
      assert ls == [ls[0]] + ls[1..];
      assert multiset(ls) == multiset([ls[0]]) + multiset(ls[1..]);
      var h := if keep(ls[0]) then [ls[0]] else [];
      assert multiset(Filter(ls, keep)) == multiset(h) + multiset(Filter(ls[1..], keep));
    }
  }

  lemma FilterSpec(ls: seq<Loan>, keep: Loan -> bool)
    ensures IsSubsequence(Filter(ls, keep), ls)
    ensures forall x :: multiset(Filter(ls, keep))[x] == if keep(x) then multiset(ls)[x] else 0
  {
    FilterIsSubsequence(ls, keep);
    forall x ensures multiset(Filter(ls, keep))[x] == if keep(x) then multiset(ls)[x] else 0 {
      FilterCount(ls, keep, x);
    }
  }

  /** Filtering twice is filtering once by both conditions. */
  lemma {:induction false} FilterTwice(ls: seq<Loan>, p: Loan -> bool, q: Loan -> bool, both: Loan -> bool)
    requires forall x :: both(x) == (p(x) && q(x))
    ensures Filter(Filter(ls, p), q) == Filter(ls, both)
  {
    if ls != [] {
      FilterTwice(ls[1..], p, q, both);
      assert both(ls[0]) == (p(ls[0]) && q(ls[0]));
      var fp := Filter(ls, p);
      if p(ls[0]) {
        assert fp != [] && fp[0] == ls[0] && fp[1..] == Filter(ls[1..], p);
      } else {
        assert fp == Filter(ls[1..], p);
      }
    }
  }

  /** The rows the report aggregates: the window filter, then the branch exclusion. */
  function Selected(ls: seq<Loan>): seq<Loan> {
    Filter(Filter(ls, MaturesInWindow), IsKeptBranch)
  }

  lemma SelectedIsOneFilter(ls: seq<Loan>)
    ensures Selected(ls) == Filter(ls, Keep)
  {
    FilterTwice(ls, MaturesInWindow, IsKeptBranch, Keep);
  }

  /** The selected rows are a subsequence of the loans, holding every loan that
      matures in the window and is not from the excluded branch, as often as it
      occurs, and no other loan. */
  lemma SelectedSpec(ls: seq<Loan>)
    ensures IsSubsequence(Selected(ls), ls)
    ensures forall x :: multiset(Selected(ls))[x] == if Keep(x) then multiset(ls)[x] else 0
  {
    SelectedIsOneFilter(ls);
    FilterSpec(ls, Keep);
  }

  /** A loan is selected exactly when it matures in the window and its branch is not excluded. */
  lemma SelectedMembers(ls: seq<Loan>, x: Loan)
    ensures x in Selected(ls) <==> x in ls && InWindow(x.maturity) && !IsExcluded(x.branch)
  {
    SelectedIsOneFilter(ls);
    FilterCount(ls, Keep, x);
    assert x in Selected(ls) <==> multiset(Selected(ls))[x] > 0;
    assert x in ls <==> multiset(ls)[x] > 0;
  }

  /** Exclusion ignores surrounding whitespace and the case of the name. */
  lemma ExclusionIgnoresPadding(p: string, name: string, q: string)
    requires AllSpace(p) && AllSpace(q)
    ensures IsExcluded(p + name + q) <==> IsExcluded(name)
  {
    TrimIgnoresPadding(p, name, q);
  }

  /** Exclusion does not depend on the case of the name. */
  lemma ExclusionIgnoresCase(name: string)
    ensures IsExcluded(name) <==> IsExcluded(LowerAscii(name))
  {
    TrimLower(name);
    LowerIdempotent(Trim(name));
  }

  /** The name is stripped and lower-cased before the comparison. */
  lemma UpperCaseIsExcluded()
    ensures IsExcluded("ADVANS BRANCH")
  {
    var name := "ADVANS BRANCH";
    TrimUnpadded(name);
    assert LowerAscii(name) == ExcludedBranch;
  }

  lemma PaddedUpperCaseIsExcluded()
    ensures IsExcluded(" ADVANS BRANCH ")
  {
    UpperCaseIsExcluded();
    assert " ADVANS BRANCH " == " " + "ADVANS BRANCH" + " ";
    ExclusionIgnoresPadding(" ", "ADVANS BRANCH", " ");
  }

  lemma OtherBranchIsKept()
    ensures !IsExcluded("Kiambu Branch")
  {
    var name := "Kiambu Branch";
    TrimUnpadded(name);
    var low := LowerAscii(Trim(name));
    assert low[0] == LowerChar('K') == 'k';
    assert low[0] != ExcludedBranch[0];
  }

  /** The boundary days of the window are inside it; the days next to them are not. */
  lemma WindowBoundaries()
    ensures InWindow(Some(Date(2026, 1, 1))) && InWindow(Some(Date(2026, 1, 21)))
    ensures !InWindow(Some(Date(2025, 12, 31))) && !InWindow(Some(Date(2026, 1, 22)))
    ensures !InWindow(None)
  {
  }
}
