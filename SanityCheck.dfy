/*
 * `SanityCheckValidator`: twenty-nine of the complete validator's methods,
 * the same guards and counts, in the same ascending order, each logged
 * with tolerance 0. Its `log_result` is the complete validator's.
 */
module SanityCheck {
  import opened Tables
  import opened Counting
  import opened QaLog
  import CompleteSanity

  /** The checks `run_all` calls. */
  predicate Included(k: nat) {
    k == 1 || k == 2 || k == 3 || k == 4 || k == 7 || k == 9 || k == 10 || k == 12 || k == 13 ||
    k == 16 || k == 17 || k == 19 || k == 22 || k == 23 || k == 24 || k == 25 || k == 26 ||
    k == 29 || k == 30 || k == 31 || k == 34 || k == 36 || k == 37 || k == 39 || k == 43 ||
    k == 47 || k == 51 || k == 54 || k == 60
  }

  /** The eight sections of `run_all`: lifecycle, state machine, temporal, financial, payment waterfall, credit bureau, fraud and identity, cross-table state. */
  function Sections(): seq<seq<nat>> {
    [[1, 2, 3, 4, 7], [9, 10, 12, 13, 16], [17, 19, 22, 23], [24, 25, 26, 29, 30],
     [31, 34, 36, 37], [39, 43], [47, 51], [54, 60]]
  }

  /** The order `run_all` calls the methods in: the sections one after another. */
  function RunOrder(): (ids: seq<nat>)
    ensures forall k :: k in ids <==> Included(k)
  {
    var s := Sections();
    var ids := s[0] + s[1] + s[2] + s[3] + s[4] + s[5] + s[6] + s[7];
    assert forall k :: k in ids <==> k in s[0] || k in s[1] || k in s[2] || k in s[3] || k in s[4] || k in s[5] || k in s[6] || k in s[7];
    ids
  }

  lemma RunOrderStepsUp()
    ensures StepsUp(RunOrder())
  {
    var s := Sections();
    forall n | 0 <= n < 8 ensures StepsUp(s[n]) {
    }
    StepsUpAppend(s[0], s[1]);
    StepsUpAppend(s[0] + s[1], s[2]);
    StepsUpAppend(s[0] + s[1] + s[2], s[3]);
    StepsUpAppend(s[0] + s[1] + s[2] + s[3], s[4]);
    StepsUpAppend(s[0] + s[1] + s[2] + s[3] + s[4], s[5]);
    StepsUpAppend(s[0] + s[1] + s[2] + s[3] + s[4] + s[5], s[6]);
    StepsUpAppend(s[0] + s[1] + s[2] + s[3] + s[4] + s[5] + s[6], s[7]);
  }

  /** What method `k` logs: the complete validator's count, judged against 0. */
  function Report(k: nat, ds: Dataset): (f: Option<Finding>)
    ensures f.Some? ==> Included(k) && f.value.tolerance == 0
  {
    if Included(k) && CompleteSanity.Guard(k) <= Loaded(ds) then Some(Finding(CompleteSanity.Violations(k, ds), 0))
    else None
  }

  function Reports(ds: Dataset): nat -> Option<Finding> {
    (k: nat) => Report(k, ds)
  }

  /** `run_all`: `load_data`, then the twenty-nine methods in order. */
  method RunAll(ds: Dataset) returns (results: seq<LogEntry>, criticalFailures: nat)
    ensures results == Logged(RunOrder(), Reports(ds))
    ensures criticalFailures == Failures(results)
  {
    results, criticalFailures := RunChecks(RunOrder(), Reports(ds));
  }

  // ------------------------------------------------------------ lemmas

  /** None of these checks has a scaled tolerance in the complete validator. */
  lemma IncludedUnscaled(k: nat)
    requires Included(k)
    ensures CompleteSanity.IsRule(k) && !CompleteSanity.Scaled(k)
  {
  }

  /** Each method logs what the complete validator's method of the same number logs. */
  lemma ReportIsMaskedComplete(ds: Dataset, k: nat)
    ensures Report(k, ds) == if Included(k) then CompleteSanity.Report(k, ds) else None
  {
    if Included(k) {
      IncludedUnscaled(k);
      CompleteSanity.UnscaledToleratesNothing(ds, k);
    }
  }

  /** The run order is the complete validator's run order restricted to these checks. */
  lemma RunOrderIsSubsequence()
    ensures RunOrder() == Only(CompleteSanity.RunOrder(), Included)
  {
    var all := CompleteSanity.RunOrder();
    assert Increasing(all);
    OnlyIncreasing(all, Included);
    RunOrderStepsUp();
    StepsUpIncreasing(RunOrder());
    forall k ensures k in RunOrder() <==> k in Only(all, Included) {
      if Included(k) {
        IncludedUnscaled(k);
      }
    }
    IncreasingUnique(RunOrder(), Only(all, Included));
  }

  /** The reports are the complete validator's, masked to these checks. */
  lemma MaskedReports(ds: Dataset)
    ensures forall k :: Reports(ds)(k) == if Included(k) then CompleteSanity.Reports(ds)(k) else None
  {
    forall k ensures Reports(ds)(k) == if Included(k) then CompleteSanity.Reports(ds)(k) else None {
      ReportIsMaskedComplete(ds, k);
    }
  }

  /** A check outside these logs nothing. */
  lemma ReportsOnlyIncluded(ds: Dataset)
    ensures forall k :: Reports(ds)(k) == if Included(k) then Reports(ds)(k) else None
  {
  }

  /**
   * The report is the complete validator's report with only these
   * twenty-nine rows, in the same order and with the same counts, statuses
   * and tolerances.
   */
  lemma SameRowsAsComplete(ds: Dataset)
    ensures Logged(RunOrder(), Reports(ds)) == OnlyRows(Logged(CompleteSanity.RunOrder(), CompleteSanity.Reports(ds)), Included)
  {
    var all := CompleteSanity.RunOrder();
    RunOrderIsSubsequence();
    ReportsOnlyIncluded(ds);
    LoggedSubsequence(all, Reports(ds), Reports(ds), Included);
    MaskedReports(ds);
    LoggedMasked(all, CompleteSanity.Reports(ds), Reports(ds), Included);
  }

  /** Zero tolerance: a row passes exactly when its count is 0. */
  lemma RowPassesIffClean(ds: Dataset, e: LogEntry)
    requires e in Logged(RunOrder(), Reports(ds))
    ensures e.status == Pass <==> e.violations == 0
  {
    LoggedRows(RunOrder(), Reports(ds), e);
  }

  /** Every check reads applications, loan_tape, payments or credit_reports. */
  lemma GuardMeetsMainTables(k: nat)
    requires Included(k)
    ensures CompleteSanity.IsRule(k)
    ensures CompleteSanity.Guard(k) * MainTables != {}
  {
    var g := CompleteSanity.Guard(k);
    if Applications in g {
      assert Applications in g * MainTables;
    } else if LoanTape in g {
      assert LoanTape in g * MainTables;
    } else if Payments in g {
      assert Payments in g * MainTables;
    } else {
      assert CreditReports in g;
      assert CreditReports in g * MainTables;
    }
  }

  /** The tables of which every check reads at least one. */
  const MainTables: set<Table> := {Applications, LoanTape, Payments, CreditReports}

  /** A check of these that reads main table `t` and nothing else. */
  function SoleReader(t: Table): (k: nat)
    requires t in MainTables
    ensures CompleteSanity.IsRule(k) && Included(k) && CompleteSanity.Guard(k) == {t}
  {
    match t
    case Applications => 60
    case LoanTape => 12
    case Payments => 25
    case CreditReports => 39
  }

  /** Any one of the main tables found is enough for a row. */
  lemma LogsWhenLoaded(ds: Dataset, t: Table)
    requires t in MainTables && t in Loaded(ds)
    ensures Logged(RunOrder(), Reports(ds)) != []
  {
    var k := SoleReader(t);
    assert Reports(ds)(k).Some?;
    LoggedNotEmpty(RunOrder(), Reports(ds), k);
  }

  /** A logged row means one of the main tables was found. */
  lemma RowNeedsMainTable(ds: Dataset, e: LogEntry)
    requires e in Logged(RunOrder(), Reports(ds))
    ensures Loaded(ds) * MainTables != {}
  {
    LoggedRows(RunOrder(), Reports(ds), e);
    var k := e.checkId;
    GuardMeetsMainTables(k);
    var t :| t in CompleteSanity.Guard(k) * MainTables;
    assert t in Loaded(ds) * MainTables;
  }

  /**
   * The summary has no "Status" column to filter, and raises, exactly when
   * none of applications, loan_tape, payments and credit_reports was
   * found: each of them alone lets at least one check log.
   */
  lemma MainFailsIffMainTablesMissing(ds: Dataset)
    ensures MainOutcomeOf(Logged(RunOrder(), Reports(ds))) == NoStatusColumn <==> Loaded(ds) * MainTables == {}
  {
    var rs := Logged(RunOrder(), Reports(ds));
    if Loaded(ds) * MainTables == {} {
      if rs != [] {
        RowNeedsMainTable(ds, rs[0]);
      }
    } else {
      var t :| t in Loaded(ds) * MainTables;
      LogsWhenLoaded(ds, t);
    }
  }

  /** The script exits 0 exactly when every check whose tables were loaded counted nothing. */
  lemma ExitCodeIffClean(ds: Dataset)
    ensures ExitCode(Logged(RunOrder(), Reports(ds))) == 0 <==>
      forall k :: Included(k) && Report(k, ds).Some? ==> Report(k, ds).value.violations == 0
  {
    ExitCodeIffAllWithin(RunOrder(), Reports(ds));
  }
}
