/*
 * The result log of the two zero-tolerance validators under qa_review
 * (`CompleteSanityValidator` and `SanityCheckValidator`): `log_result`
 * judges a count against its tolerance, appends one row and raises
 * `critical_failures` on FAIL. Each `sanity_0xx` method either returns
 * early because a table it reads was not loaded, or computes its count and
 * logs it once; a run is that sequence of methods in order. The script's
 * exit status is 1 exactly when some row failed.
 */
module QaLog {
  import opened Tables
  import opened Counting

  datatype Status = Pass | Fail

  /** One row of `results`; every row has severity CRITICAL. */
  datatype LogEntry = LogEntry(checkId: nat, status: Status, violations: nat, tolerance: nat)

  /** The row `log_result` appends: PASS when the count does not exceed the tolerance. */
  function Judged(id: nat, violations: nat, tolerance: nat): (e: LogEntry)
    ensures e.checkId == id && e.violations == violations && e.tolerance == tolerance
    ensures e.status == Pass <==> violations <= tolerance
    ensures e.status == Fail <==> violations > tolerance
  {
    LogEntry(id, if violations <= tolerance then Pass else Fail, violations, tolerance)
  }

  predicate Failed(e: LogEntry) {
    e.status == Fail
  }

  /** The FAIL rows, counted from the last row back: what `critical_failures` tallies. */
  function Failures(rs: seq<LogEntry>): (n: nat)
    ensures n <= |rs|
  {
    if rs == [] then 0
    else Failures(rs[..|rs| - 1]) + (if Failed(rs[|rs| - 1]) then 1 else 0)
  }

  lemma FailuresSnoc(rs: seq<LogEntry>, e: LogEntry)
    ensures Failures(rs + [e]) == Failures(rs) + (if Failed(e) then 1 else 0)
  {
    assert (rs + [e])[..|rs|] == rs;
  }

  /**
   * The counter agrees with the report: `critical_failures` equals the
   * number of rows that `df.filter(Status == "FAIL")` keeps.
   */
  lemma {:induction false} FailuresAreFailRows(rs: seq<LogEntry>)
    ensures Failures(rs) == Count(rs, Failed)
  {
    if rs != [] {
      var init := rs[..|rs| - 1];
      var last := rs[|rs| - 1];
      FailuresAreFailRows(init);
      assert rs == init + [last];
      CountAppend(init, [last], Failed);
      assert Count([last], Failed) == (if Failed(last) then 1 else 0);
    }
  }

  /** `sys.exit(1 if len(failures) > 0 else 0)`. */
  function ExitCode(rs: seq<LogEntry>): (code: int)
    ensures code == 0 || code == 1
  {
    if Count(rs, Failed) > 0 then 1 else 0
  }

  /**
   * How the `__main__` block ends: a run that logged nothing builds a frame
   * without a "Status" column and the first filter on it raises; otherwise
   * the script exits with `ExitCode`.
   */
  datatype MainOutcome = NoStatusColumn | Exited(code: int)

  function MainOutcomeOf(rs: seq<LogEntry>): (m: MainOutcome)
    ensures m == NoStatusColumn <==> rs == []
  {
    if rs == [] then NoStatusColumn else Exited(ExitCode(rs))
  }

  /** The script exits 0 exactly when no failure was counted, that is, when every row passed. */
  lemma ExitCodeMeansAllPassed(rs: seq<LogEntry>)
    ensures ExitCode(rs) == 0 <==> Failures(rs) == 0
    ensures ExitCode(rs) == 0 <==> forall i :: 0 <= i < |rs| ==> rs[i].status == Pass
  {
    FailuresAreFailRows(rs);
  }

  /** The result list and counter of one validator object. */
  class SanityValidator {
    var results: seq<LogEntry>
    var criticalFailures: nat

    /** The counter counts the FAIL rows. */
    ghost predicate Valid()
      reads this
    {
      criticalFailures == Failures(results)
    }

    constructor ()
      ensures Valid() && results == []
    {
      results := [];
      criticalFailures := 0;
    }

    /** `log_result`: one row judged against the tolerance; the counter rises exactly on FAIL. */
    method LogResult(id: nat, violations: nat, tolerance: nat)
      requires Valid()
      modifies this
      ensures Valid()
      ensures results == old(results) + [Judged(id, violations, tolerance)]
      ensures criticalFailures == old(criticalFailures) + (if violations <= tolerance then 0 else 1)
    {
      var entry := Judged(id, violations, tolerance);
      FailuresSnoc(results, entry);
      if violations > tolerance {
        criticalFailures := criticalFailures + 1;
      }
      results := results + [entry];
    }
  }

  /** What one `sanity_0xx` method hands to `log_result`: its count and tolerance. */
  datatype Finding = Finding(violations: nat, tolerance: nat)

  /**
   * The rows a run of the checks `ids` appends, when check `k` logs
   * `report(k)` (`None`: the method returned before logging).
   */
  function Logged(ids: seq<nat>, report: nat -> Option<Finding>): (rs: seq<LogEntry>)
    ensures |rs| <= |ids|
  {
    if ids == [] then []
    else
      var init := Logged(ids[..|ids| - 1], report);
      var k := ids[|ids| - 1];
      match report(k)
      case None => init
      case Some(f) => init + [Judged(k, f.violations, f.tolerance)]
  }

  lemma LoggedSnoc(ids: seq<nat>, n: nat, report: nat -> Option<Finding>)
    requires n < |ids|
    ensures Logged(ids[..n + 1], report) ==
      Logged(ids[..n], report)
      + (if report(ids[n]).Some? then [Judged(ids[n], report(ids[n]).value.violations, report(ids[n]).value.tolerance)] else [])
  {
    assert ids[..n + 1][..n] == ids[..n];
  }

  /**
   * The checks `ids` in order, each logging its finding or returning
   * early; the rows and the counter that `run_all` leaves behind.
   */
  method RunChecks(ids: seq<nat>, report: nat -> Option<Finding>) returns (results: seq<LogEntry>, criticalFailures: nat)
    ensures results == Logged(ids, report)
    ensures criticalFailures == Failures(results)
  {
    var validator := new SanityValidator();
    for n := 0 to |ids|
      invariant validator.Valid()
      invariant validator.results == Logged(ids[..n], report)
    {
      LoggedSnoc(ids, n, report);
      var finding := report(ids[n]);
      if finding.Some? {
        validator.LogResult(ids[n], finding.value.violations, finding.value.tolerance);
      }
    }
    assert ids[..|ids|] == ids;
    results, criticalFailures := validator.results, validator.criticalFailures;
  }

  // ------------------------------------------------------------ lemmas

  /** A row is logged for a check exactly when the check is run and its report is present. */
  lemma {:induction false} LoggedRows(ids: seq<nat>, report: nat -> Option<Finding>, e: LogEntry)
    ensures e in Logged(ids, report) <==>
      e.checkId in ids && report(e.checkId).Some?
      && e == Judged(e.checkId, report(e.checkId).value.violations, report(e.checkId).value.tolerance)
  {
    if ids != [] {
      var init := ids[..|ids| - 1];
      LoggedRows(init, report, e);
      assert ids == init + [ids[|ids| - 1]];
    }
  }

  /**
   * The script exits 0 exactly when every check of the run that logged a
   * row counted no more violations than its tolerance.
   */
  lemma ExitCodeIffAllWithin(ids: seq<nat>, report: nat -> Option<Finding>)
    ensures ExitCode(Logged(ids, report)) == 0 <==>
      forall k :: k in ids && report(k).Some? ==> report(k).value.violations <= report(k).value.tolerance
  {
    var rs := Logged(ids, report);
    ExitCodeMeansAllPassed(rs);
    if ExitCode(rs) == 0 {
      forall k | k in ids && report(k).Some?
        ensures report(k).value.violations <= report(k).value.tolerance
      {
        var e := Judged(k, report(k).value.violations, report(k).value.tolerance);
        LoggedRows(ids, report, e);
        var i :| 0 <= i < |rs| && rs[i] == e;
      }
    } else {
      var i :| 0 <= i < |rs| && rs[i].status != Pass;
      LoggedRows(ids, report, rs[i]);
    }
  }

  /** A run that includes a check whose report is always present never ends with an empty report. */
  lemma LoggedNotEmpty(ids: seq<nat>, report: nat -> Option<Finding>, k: nat)
    requires k in ids && report(k).Some?
    ensures |Logged(ids, report)| > 0
  {
    var f := report(k).value;
    LoggedRows(ids, report, Judged(k, f.violations, f.tolerance));
  }

  lemma FilterAppend<T(!new)>(a: seq<T>, b: seq<T>, p: T -> bool)
    ensures Filter(a + b, p) == Filter(a, p) + Filter(b, p)
  {
    if a != [] {
      assert (a + b)[1..] == a[1..] + b;
      FilterAppend(a[1..], b, p);
    } else {
      assert a + b == b;
    }
  }

  function RowIn(keep: nat -> bool): LogEntry -> bool {
    (e: LogEntry) => keep(e.checkId)
  }

  /** The checks of `ids` that are kept by `keep`, in their order. */
  function Only(ids: seq<nat>, keep: nat -> bool): seq<nat> {
    Filter(ids, keep)
  }

  /** The rows of `rs` whose check is kept by `keep`, in their order. */
  function OnlyRows(rs: seq<LogEntry>, keep: nat -> bool): seq<LogEntry> {
    Filter(rs, RowIn(keep))
  }

  /**
   * A run whose reports are masked to the checks `keep` logs exactly the
   * rows of the unmasked run whose check is kept by `keep`, in the same order.
   */
  lemma {:induction false} LoggedMasked(ids: seq<nat>, report: nat -> Option<Finding>, masked: nat -> Option<Finding>, keep: nat -> bool)
    requires forall k :: masked(k) == if keep(k) then report(k) else None
    ensures Logged(ids, masked) == OnlyRows(Logged(ids, report), keep)
  {
    var inKeep := RowIn(keep);
    if ids != [] {
      var init := ids[..|ids| - 1];
      var k := ids[|ids| - 1];
      LoggedMasked(init, report, masked, keep);
      var before := Logged(init, report);
      if report(k).Some? {
        var e := Judged(k, report(k).value.violations, report(k).value.tolerance);
        FilterAppend(before, [e], inKeep);
        assert Filter([e], inKeep) == if keep(k) then [e] else [];
      } else {
        assert Logged(ids, report) == before;
      }
    }
  }

  /** Running only the checks of `ids` kept by `keep` is the same as running all of them with the others masked. */
  lemma {:induction false} LoggedSubsequence(ids: seq<nat>, report: nat -> Option<Finding>, masked: nat -> Option<Finding>, keep: nat -> bool)
    requires forall k :: masked(k) == if keep(k) then report(k) else None
    ensures Logged(Only(ids, keep), report) == Logged(ids, masked)
  {
    if ids != [] {
      var init := ids[..|ids| - 1];
      var k := ids[|ids| - 1];
      LoggedSubsequence(init, report, masked, keep);
      assert ids == init + [k];
      FilterAppend(init, [k], keep);
      var sub := Only(ids, keep);
      var before := Only(init, keep);
      if keep(k) {
        assert Filter([k], keep) == [k];
        assert sub == before + [k];
        assert sub[..|sub| - 1] == before && sub[|sub| - 1] == k;
        assert masked(k) == report(k);
        assert Logged(sub, report) == Logged(before, report)
          + (if report(k).Some? then [Judged(k, report(k).value.violations, report(k).value.tolerance)] else []);
      } else {
        assert Filter([k], keep) == [];
        assert sub == before;
        assert masked(k) == None;
        assert Logged(ids, masked) == Logged(init, masked);
      }
    }
  }

  predicate Increasing(ids: seq<nat>) {
    forall i, j :: 0 <= i < j < |ids| ==> ids[i] < ids[j]
  }

  /** Each check number is below the next one. */
  predicate StepsUp(ids: seq<nat>) {
    forall i :: 0 <= i < |ids| - 1 ==> ids[i] < ids[i + 1]
  }

  lemma StepsUpAppend(a: seq<nat>, b: seq<nat>)
    requires StepsUp(a) && StepsUp(b)
    requires a != [] && b != [] && a[|a| - 1] < b[0]
    ensures StepsUp(a + b)
  {
    var c := a + b;
    forall i | 0 <= i < |c| - 1 ensures c[i] < c[i + 1] {
      if i < |a| - 1 {
        assert c[i] == a[i] && c[i + 1] == a[i + 1];
      } else if i == |a| - 1 {
        assert c[i] == a[|a| - 1] && c[i + 1] == b[0];
      } else {
        assert c[i] == b[i - |a|] && c[i + 1] == b[i - |a| + 1];
      }
    }
  }

  lemma {:induction false} StepsUpIncreasing(ids: seq<nat>)
    requires StepsUp(ids)
    ensures Increasing(ids)
  {
    if ids != [] {
      var tail := ids[1..];
      assert StepsUp(tail) by {
        forall i | 0 <= i < |tail| - 1 ensures tail[i] < tail[i + 1] {
          assert tail[i] == ids[i + 1] && tail[i + 1] == ids[i + 2];
        }
      }
      StepsUpIncreasing(tail);
      forall i, j | 0 <= i < j < |ids| ensures ids[i] < ids[j] {
        assert ids[j] == tail[j - 1];
        if i > 0 {
          assert ids[i] == tail[i - 1];
        } else if j > 1 {
          assert ids[0] < ids[1] == tail[0] < tail[j - 1];
        }
      }
    }
  }

  lemma IncreasingCons(x: nat, rest: seq<nat>)
    requires Increasing(rest)
    requires forall y :: y in rest ==> x < y
    ensures Increasing([x] + rest)
  {
    var f := [x] + rest;
    forall i, j | 0 <= i < j < |f| ensures f[i] < f[j] {
      assert f[j] == rest[j - 1] && rest[j - 1] in rest;
      if i > 0 {
        assert f[i] == rest[i - 1];
      }
    }
  }

  /** Keeping some checks of an increasing list leaves an increasing list. */
  lemma {:induction false} OnlyIncreasing(ids: seq<nat>, keep: nat -> bool)
    requires Increasing(ids)
    ensures Increasing(Only(ids, keep))
  {
    if ids != [] {
      var tail := ids[1..];
      OnlyIncreasing(tail, keep);
      var rest := Only(tail, keep);
      forall y | y in rest ensures ids[0] < y {
        var j :| 0 <= j < |tail| && tail[j] == y;
        assert ids[j + 1] == y;
      }
      if keep(ids[0]) {
        IncreasingCons(ids[0], rest);
      }
    }
  }

  /** Two increasing lists of check numbers with the same elements are the same list. */
  lemma {:induction false} IncreasingUnique(a: seq<nat>, b: seq<nat>)
    requires Increasing(a) && Increasing(b)
    requires forall k :: k in a <==> k in b
    ensures a == b
  {
    assert |b| > 0 ==> b[0] in b;
    if a != [] {
      assert a[0] in a;
      assert b != [];
      assert b[0] in b;
      var i :| 0 <= i < |b| && b[i] == a[0];
      var j :| 0 <= j < |a| && a[j] == b[0];
      assert a[0] <= a[j] == b[0] <= b[i] == a[0];
      var ta, tb := a[1..], b[1..];
      forall k ensures k in ta <==> k in tb {
        if k in ta {
          var x :| 0 <= x < |ta| && ta[x] == k;
          assert a[x + 1] == k && a[0] < k;
          assert k in b;
          var y :| 0 <= y < |b| && b[y] == k;
          assert y > 0 && tb[y - 1] == k;
        }
        if k in tb {
          var y :| 0 <= y < |tb| && tb[y] == k;
          assert b[y + 1] == k && b[0] < k;
          assert k in a;
          var x :| 0 <= x < |a| && a[x] == k;
          assert x > 0 && ta[x - 1] == k;
        }
      }
      IncreasingUnique(ta, tb);
      assert a == [a[0]] + ta && b == [b[0]] + tb;
    }
  }
}
