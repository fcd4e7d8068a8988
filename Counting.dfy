/*
 * The counting shapes every validator rule is built from: the number of rows
 * a filter keeps, the number of rows an inner join keeps, the number of
 * distinct values of a column, and the "previous row of the same loan"
 * window that `sort(["loan_id", "snapshot_date"])` followed by
 * `shift(1).over("loan_id")` gives.
 */
module Counting {
  import opened Tables

  /** `len(frame.filter(p))`. */
  function Count<T>(s: seq<T>, p: T -> bool): (n: nat)
    ensures n <= |s|
    ensures n == 0 <==> forall i :: 0 <= i < |s| ==> !p(s[i])
    ensures n == |s| <==> forall i :: 0 <= i < |s| ==> p(s[i])
  {
    if s == [] then 0
    else
      var rest := Count(s[1..], p);
      assert forall i :: 1 <= i < |s| ==> s[1..][i - 1] == s[i];
      (if p(s[0]) then 1 else 0) + rest
  }

  lemma {:induction false} CountAppend<T>(a: seq<T>, b: seq<T>, p: T -> bool)
    ensures Count(a + b, p) == Count(a, p) + Count(b, p)
  {
    if a == [] {
      assert a + b == b;
    } else {
      assert (a + b)[1..] == a[1..] + b;
      CountAppend(a[1..], b, p);
    }
  }

  /** A filter that keeps at least the rows another keeps counts at least as many. */
  lemma {:induction false} CountMonotone<T>(s: seq<T>, p: T -> bool, q: T -> bool)
    requires forall i :: 0 <= i < |s| ==> p(s[i]) ==> q(s[i])
    ensures Count(s, p) <= Count(s, q)
  {
    if s != [] {
      assert forall i :: 1 <= i < |s| ==> s[1..][i - 1] == s[i];
      CountMonotone(s[1..], p, q);
    }
  }

  /**
   * `len(left.join(right, how="inner").filter(...))`: one output row per
   * matching (left row, right row) pair; `p` holds the key equality and the
   * filter.
   */
  function PairCount<L, R>(left: seq<L>, right: seq<R>, p: (L, R) -> bool): (n: nat)
    ensures n == 0 <==>
      forall i, j :: 0 <= i < |left| && 0 <= j < |right| ==> !p(left[i], right[j])
  {
    if left == [] then 0
    else
      var here := Count(right, r => p(left[0], r));
      var rest := PairCount(left[1..], right, p);
      assert forall i :: 1 <= i < |left| ==> left[1..][i - 1] == left[i];
      here + rest
  }

  /** The set of values a column takes (`n_unique` is its size). */
  function Distinct<T>(s: seq<T>): set<T> {
    set x | x in s
  }

  /** No two positions hold the same value. */
  predicate NoDuplicates<T(==)>(s: seq<T>) {
    forall i, j :: 0 <= i < j < |s| ==> s[i] != s[j]
  }

  /** `len(s) - s.n_unique()` is never negative and is 0 exactly when `s` has no duplicates. */
  lemma {:induction false} DistinctSize<T>(s: seq<T>)
    ensures |Distinct(s)| <= |s|
    ensures |Distinct(s)| == |s| <==> NoDuplicates(s)
  {
    if s == [] {
    } else {
      var t := s[1..];
      DistinctSize(t);
      assert Distinct(s) == Distinct(t) + {s[0]} by {
        forall x ensures x in Distinct(s) <==> x in Distinct(t) + {s[0]} {
          if x in s && x != s[0] {
            var k :| 0 <= k < |s| && s[k] == x;
            assert t[k - 1] == x;
          }
        }
      }
      if s[0] in t {
        assert Distinct(s) == Distinct(t);
        var k :| 0 <= k < |t| && t[k] == s[0];
        assert s[k + 1] == s[0];
        assert !NoDuplicates(s);
      } else {
        assert s[0] !in Distinct(t);
        assert |Distinct(s)| == |Distinct(t)| + 1;
        if NoDuplicates(s) {
          assert NoDuplicates(t) by {
            forall i, j | 0 <= i < j < |t| ensures t[i] != t[j] {
              assert s[i + 1] == t[i] && s[j + 1] == t[j];
            }
          }
        } else {
          var i, j :| 0 <= i < j < |s| && s[i] == s[j];
          if i > 0 {
            assert t[i - 1] == t[j - 1];
            assert !NoDuplicates(t);
          }
        }
      }
    }
  }

  /**
   * Row `j` comes before row `i` of the same loan once the table is sorted
   * by (loan_id, snapshot_date). polars' default sort leaves the order of
   * rows with equal keys open; the model keeps their input order.
   */
  predicate SortedBefore(rows: seq<LoanRow>, j: int, i: int) {
    0 <= j < |rows| && 0 <= i < |rows| && j != i
    && rows[j].loanId == rows[i].loanId
    && (Before(rows[j].snapshotDate, rows[i].snapshotDate)
        || (rows[j].snapshotDate == rows[i].snapshotDate && j < i))
  }

  /** Row `j` is what `shift(1).over("loan_id")` puts beside row `i`. */
  predicate PreviousInLoan(rows: seq<LoanRow>, j: int, i: int) {
    SortedBefore(rows, j, i)
    && !(exists k | 0 <= k < |rows| :: SortedBefore(rows, j, k) && SortedBefore(rows, k, i))
  }

  /** Row `i` has a previous row `j` in its loan with `bad(row j, row i)`. */
  predicate FlaggedAgainstPrevious(rows: seq<LoanRow>, i: int, bad: (LoanRow, LoanRow) -> bool) {
    0 <= i < |rows|
    && exists j | 0 <= j < |rows| :: PreviousInLoan(rows, j, i) && bad(rows[j], rows[i])
  }

  /** Rows kept by a filter on (row, previous row of the same loan); a row with no previous row is never kept. */
  function WindowCount(rows: seq<LoanRow>, bad: (LoanRow, LoanRow) -> bool): (n: nat)
    ensures n <= |rows|
    ensures n == 0 <==>
      forall j, i :: PreviousInLoan(rows, j, i) ==> !bad(rows[j], rows[i])
  {
    var n := Count(seq(|rows|, k => k), k => FlaggedAgainstPrevious(rows, k, bad));
    assert n == 0 ==> forall j, i :: PreviousInLoan(rows, j, i) ==> !bad(rows[j], rows[i]) by {
      if n == 0 {
        forall j, i | PreviousInLoan(rows, j, i) ensures !bad(rows[j], rows[i]) {
          assert seq(|rows|, k => k)[i] == i;
        }
      }
    }
    n
  }

  /** Distinct loan_ids among the rows that a window filter keeps. */
  function WindowLoans(rows: seq<LoanRow>, bad: (LoanRow, LoanRow) -> bool): (n: nat)
    ensures n == 0 <==>
      forall j, i :: PreviousInLoan(rows, j, i) ==> !bad(rows[j], rows[i])
  {
    var ids := set i | 0 <= i < |rows| && FlaggedAgainstPrevious(rows, i, bad) :: rows[i].loanId;
    assert (exists j, i :: PreviousInLoan(rows, j, i) && bad(rows[j], rows[i])) ==> ids != {} by {
      if exists j, i :: PreviousInLoan(rows, j, i) && bad(rows[j], rows[i]) {
        var j, i :| PreviousInLoan(rows, j, i) && bad(rows[j], rows[i]);
        assert FlaggedAgainstPrevious(rows, i, bad);
        assert rows[i].loanId in ids;
      }
    }
    |ids|
  }

  /** A loan's first row (in sorted order) is never flagged, whatever the filter. */
  lemma FirstRowNeverFlagged(rows: seq<LoanRow>, i: int, bad: (LoanRow, LoanRow) -> bool)
    requires 0 <= i < |rows|
    requires forall j :: !SortedBefore(rows, j, i)
    ensures !FlaggedAgainstPrevious(rows, i, bad)
  {
  }

  /**
   * If no earlier row of a loan is ever in the relation `bad` with a later
   * one, the window filter keeps nothing: what holds for all earlier rows
   * holds for the immediately previous one.
   */
  lemma WindowClean(rows: seq<LoanRow>, bad: (LoanRow, LoanRow) -> bool)
    requires forall j, i :: SortedBefore(rows, j, i) ==> !bad(rows[j], rows[i])
    ensures WindowCount(rows, bad) == 0 && WindowLoans(rows, bad) == 0
  {
  }

  /** `frame.filter(p)`: the rows `p` keeps, in their order. */
  function Filter<T(!new)>(s: seq<T>, p: T -> bool): (r: seq<T>)
    ensures |r| == Count(s, p)
    ensures forall x :: x in r <==> x in s && p(x)
  {
    if s == [] then []
    else
      assert forall x :: x in s <==> x == s[0] || x in s[1..];
      (if p(s[0]) then [s[0]] else []) + Filter(s[1..], p)
  }

  /**
   * `select(...).unique()`: every value once. The model keeps the last
   * occurrence of each value; row order plays no part in the joins and
   * counts that follow a `unique()`.
   */
  function Unique<T(==,!new)>(s: seq<T>): (r: seq<T>)
    ensures NoDuplicates(r)
    ensures forall x :: x in r <==> x in s
  {
    if s == [] then []
    else
      assert forall x :: x in s <==> x == s[0] || x in s[1..];
      var rest := Unique(s[1..]);
      if s[0] in rest then rest
      else
        assert forall i :: 1 <= i < |[s[0]] + rest| ==> ([s[0]] + rest)[i] == rest[i - 1];
        [s[0]] + rest
  }

  /** Every earlier row of a loan stands in relation `rel` to every later row of the same loan. */
  predicate Chained(rows: seq<LoanRow>, rel: (LoanRow, LoanRow) -> bool) {
    forall j, i :: 0 <= j < i < |rows| && rows[j].loanId == rows[i].loanId ==> rel(rows[j], rows[i])
  }

  lemma ChainedTail(rows: seq<LoanRow>, rel: (LoanRow, LoanRow) -> bool)
    requires rows != [] && Chained(rows, rel)
    ensures Chained(rows[1..], rel)
  {
    var tail := rows[1..];
    forall j, i | 0 <= j < i < |tail| && tail[j].loanId == tail[i].loanId
      ensures rel(tail[j], tail[i])
    {
      assert rows[j + 1] == tail[j] && rows[i + 1] == tail[i];
    }
  }

  lemma ChainedCons(x: LoanRow, tail: seq<LoanRow>, rel: (LoanRow, LoanRow) -> bool)
    requires Chained(tail, rel)
    requires forall y :: y in tail && y.loanId == x.loanId ==> rel(x, y)
    ensures Chained([x] + tail, rel)
  {
    var f := [x] + tail;
    forall j, i | 0 <= j < i < |f| && f[j].loanId == f[i].loanId
      ensures rel(f[j], f[i])
    {
      assert f[i] == tail[i - 1];
      if j > 0 {
        assert f[j] == tail[j - 1];
      }
    }
  }

  /** Filtering keeps the relative order of the rows it keeps, so a chain stays a chain. */
  lemma {:induction false} FilterKeepsChained(rows: seq<LoanRow>, p: LoanRow -> bool, rel: (LoanRow, LoanRow) -> bool)
    requires Chained(rows, rel)
    ensures Chained(Filter(rows, p), rel)
  {
    if rows != [] {
      var tail := rows[1..];
      ChainedTail(rows, rel);
      FilterKeepsChained(tail, p, rel);
      if p(rows[0]) {
        forall y | y in Filter(tail, p) && y.loanId == rows[0].loanId
          ensures rel(rows[0], y)
        {
          var k :| 0 <= k < |tail| && tail[k] == y;
          assert rows[k + 1] == y;
        }
        ChainedCons(rows[0], Filter(tail, p), rel);
      }
    }
  }

  lemma BeforeIsStrict(a: Date, b: Date)
    ensures !(Before(a, b) && Before(b, a))
    ensures !(Before(a, b) && a == b)
  {
  }

  /**
   * When every earlier snapshot of a loan is dated strictly before every
   * later one and is never in relation `bad` with it, the window filter
   * keeps nothing: the sort then puts the rows of each loan in their input
   * order.
   */
  lemma ChainedWindowClean(rows: seq<LoanRow>, bad: (LoanRow, LoanRow) -> bool)
    requires Chained(rows, (a: LoanRow, b: LoanRow) => Before(a.snapshotDate, b.snapshotDate) && !bad(a, b))
    ensures WindowCount(rows, bad) == 0 && WindowLoans(rows, bad) == 0
  {
    forall j, i | SortedBefore(rows, j, i) ensures !bad(rows[j], rows[i]) {
      BeforeIsStrict(rows[i].snapshotDate, rows[j].snapshotDate);
    }
    WindowClean(rows, bad);
  }
}
