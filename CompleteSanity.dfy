/*
 * `CompleteSanityValidator`: fifty-nine `sanity_0xx` methods (there is no
 * SANITY-053). Each one returns at once when a table it reads is missing
 * from `data`, and otherwise computes its count, derives its tolerance and
 * calls `log_result`. SANITY-021 has no guard: it sums the future-dated rows
 * of whichever of applications, loan_tape and payments were loaded.
 */
module CompleteSanity {
  import opened Tables
  import opened Text
  import opened Counting
  import opened Rules
  import opened QaLog

  /** The check numbers that have a method. */
  predicate IsRule(k: int) {
    1 <= k <= 60 && k != 53
  }

  /** The checks whose tolerance scales with a table; every other check tolerates nothing. */
  predicate Scaled(k: int) {
    k == 14 || k == 15 || k == 33 || k == 35 || k == 38 || k == 42 || k == 44 || k == 48 || k == 52 || k == 58 || k == 59
  }

  /** The tables whose absence makes method `k` return before logging. */
  function Guard(k: int): (ts: set<Table>)
    requires IsRule(k)
  {
    if k == 1 || k == 5 || k == 7 || k == 8 || k == 19 then {LoanTape, Applications}
    else if k == 2 || k == 6 || k == 17 || k == 40 then {Applications, CreditReports}
    else if k == 3 || k == 18 || k == 47 || k == 48 || k == 49 || k == 50 then {Applications, Fraud}
    else if k == 4 || k == 9 || k == 10 || k == 11 || k == 15 || k == 20 || k == 23 || k == 27 || k == 32 || k == 59 then {Payments, LoanTape}
    else if k == 25 || k == 29 || k == 31 || k == 33 || k == 34 || k == 35 || k == 36 || k == 37 || k == 38 then {Payments}
    else if k == 39 || k == 41 || k == 42 || k == 43 then {CreditReports}
    else if k == 44 || k == 45 then {Tradelines}
    else if k == 46 then {Tradelines, CreditReports}
    else if k == 22 || k == 51 || k == 52 || k == 60 then {Applications}
    else if k == 21 then {}
    else {LoanTape}
  }

  /** The count method `k` logs once its guard lets it through. */
  function Violations(k: int, ds: Dataset): nat
    requires IsRule(k)
  {
    var apps := RowsOf(ds.applications);
    var lt := RowsOf(ds.loanTape);
    var ps := RowsOf(ds.payments);
    var reports := RowsOf(ds.creditReports);
    var tradelines := RowsOf(ds.tradelines);
    var fraud := RowsOf(ds.fraud);
    var approved := Filter(apps, Approved);
    // lifecycle
    if k == 1 then FundedNotApproved(lt, apps)
    else if k == 2 then Orphans(approved, reports, (a: Application) => a.applicationId, (c: CreditReport) => c.applicationId)
    else if k == 3 then Orphans(approved, fraud, (a: Application) => a.applicationId, (f: FraudCheck) => f.applicationId)
    else if k == 4 then Orphans(ps, lt, (p: Payment) => p.loanId, (r: LoanRow) => r.loanId)
    else if k == 5 then Orphans(lt, apps, (r: LoanRow) => r.applicationId, (a: Application) => a.applicationId)
    else if k == 6 then Orphans(reports, apps, (c: CreditReport) => c.applicationId, (a: Application) => a.applicationId)
    else if k == 7 then LoanAppPairs(lt, apps, (r: LoanRow, a: Application) => a.decisionStatus == "DECLINED")
    else if k == 8 then
      LoanAppPairs(lt, apps, (r: LoanRow, a: Application) => a.decisionStatus in {"PENDING", "UNDER_REVIEW", "INCOMPLETE"})
    // state machine
    else if k == 9 then Count(ps, (p: Payment) => ReceivedAfterPayoff(p, lt))
    else if k == 10 then Count(ps, (p: Payment) => ReceivedAfterChargeoff(p, lt))
    else if k == 11 then DelinquentFullyPaid(lt, ps)
    else if k == 12 then Count(lt, CurrentWithDpd)
    else if k == 13 then Count(lt, PaidOffWithBalance)
    else if k == 14 then Count(lt, ChargedOffWithBalance)
    else if k == 15 then
      PaymentDatePairs(ps, LoanDatePairs(lt, (r: LoanRow) => r.firstPaymentDueDate),
        (p: Payment, d: Date) => ReceivedBefore(p, d) && p.paymentType != "PREPAYMENT")
    else if k == 16 then Count(lt, (r: LoanRow) => r.loanStatus !in LoanStatusesQa)
    // temporal
    else if k == 17 then ReportAppPairs(reports, apps, (c: CreditReport, a: Application) => Before(c.reportDate, a.applicationDate))
    else if k == 18 then AppFraudPairs(apps, fraud, (a: Application, f: FraudCheck) => Before(f.checkDate, a.applicationDate))
    else if k == 19 then LoanAppPairs(lt, apps, (r: LoanRow, a: Application) => Before(r.originationDate, a.applicationDate))
    else if k == 20 then PaidBeforeOrigination(lt, ps)
    else if k == 21 then
      // a table that was not loaded has no rows and adds nothing
      Count(apps, (a: Application) => Before(SimulationEnd, a.applicationDate))
      + Count(lt, (r: LoanRow) => Before(SimulationEnd, r.snapshotDate))
      + Count(ps, (p: Payment) => ReceivedAfter(p, SimulationEnd))
    else if k == 22 then Count(apps, BornOnOrAfterApplication)
    else if k == 23 then PaymentDatePairs(ps, LoanDatePairs(lt, (r: LoanRow) => r.originationDate), ReceivedBefore)
    // financial
    else if k == 24 then Count(lt, NegativePrincipal)
    else if k == 25 then Count(ps, NegativePayment)
    else if k == 26 then Count(lt, AboveOriginal)
    else if k == 27 then PaidOverThreeTimes(lt, ps)
    else if k == 28 then Count(lt, InterestOnlyZeroRate)
    else if k == 29 then Count(ps, ComponentsUnbalanced)
    else if k == 30 then Count(lt, FeeAtLeastAmount)
    // payment waterfall
    else if k == 31 then Count(ps, PostedWithoutDate)
    else if k == 32 then ZeroScheduleActive(ps, lt)
    else if k == 33 then Count(ps, UnflaggedOverpayment)
    else if k == 34 then Count(ps, MissedWithAmount)
    else if k == 35 then Count(ps, LateWithoutFee)
    else if k == 36 then Count(ps, NsfNotReturned)
    else if k == 37 then Count(ps, ReturnedWithoutDate)
    else if k == 38 then Count(ps, (p: Payment) => AutopayFailure(p) && p.returnReasonCode.None?)
    // credit bureau
    else if k == 39 then Count(reports, FicoOutside)
    else if k == 40 then ReportAppPairs(reports, apps, (c: CreditReport, a: Application) => Before(c.fileSinceDate, a.dateOfBirth))
    else if k == 41 then Count(reports, BankruptcyNotInPublicRecords)
    else if k == 42 then Count(reports, (c: CreditReport) => c.utilization > 2.0)
    else if k == 43 then Count(reports, OpenCountAboveAll)
    else if k == 44 then Count(tradelines, TradelineOverLimit)
    else if k == 45 then Count(tradelines, ClosedWithPayment)
    else if k == 46 then
      PairCount(tradelines, reports, (t: Tradeline, c: CreditReport) =>
        t.creditReportId == c.creditReportId && Before(c.reportDate, t.openDate))
    // fraud and identity
    else if k == 47 then AppFraudPairs(apps, fraud, (a: Application, f: FraudCheck) => f.ssnDeceased && Approved(a))
    else if k == 48 then AppFraudPairs(apps, fraud, (a: Application, f: FraudCheck) => f.ssnIssuedStartYear < a.dateOfBirth.year)
    else if k == 49 then AppFraudPairs(apps, fraud, (a: Application, f: FraudCheck) => f.identityResult == "FAIL" && Approved(a))
    else if k == 50 then AppFraudPairs(apps, fraud, (a: Application, f: FraudCheck) => f.fraudRiskTier == "CRITICAL" && Approved(a))
    else if k == 51 then Count(apps, AgeOutside)
    else if k == 52 then Count(apps, MalformedEmail)
    // cross-table state
    else if k == 54 then WindowLoans(lt, LeftPaidOff)
    else if k == 55 then WindowLoans(lt, LeftChargedOff)
    else if k == 56 then BalanceIncreases(lt)
    else if k == 57 then WindowCount(lt, DpdFellWithoutCure)
    else if k == 58 then WindowCount(lt, MobSkipped)
    else if k == 59 then PaymentsBeyondMob(lt, ps)
    else DuplicateApplicationIds(apps)
  }

  /**
   * The tolerance method `k` passes to `log_result`. `int(n * 0.05)` and the
   * like are the integer quotients: each constant's double lies just above
   * the decimal it is written as, so the product never rounds below the
   * whole number.
   */
  function Tolerance(k: int, ds: Dataset): nat {
    var apps := RowsOf(ds.applications);
    var lt := RowsOf(ds.loanTape);
    var ps := RowsOf(ds.payments);
    if !Scaled(k) then 0
    else if k == 14 then |lt| / 20
    else if k == 15 || k == 33 then |ps| / 100
    else if k == 35 then |ps| / 5
    else if k == 38 then
      var failures := Count(ps, AutopayFailure);
      if failures < 10 then 1 else failures / 10
    else if k == 42 then |RowsOf(ds.creditReports)| / 1000
    else if k == 44 then |RowsOf(ds.tradelines)| / 20
    else if k == 48 then |apps| / 100
    else if k == 52 then
      var emails := Count(apps, (a: Application) => a.email.Some?);
      if emails < 100 then 1 else emails / 100
    else if k == 58 then |lt| / 20
    else |LatestRows(lt)| / 100
  }

  /** What method `k` logs, or `None` when it returns early (or has no method). */
  function Report(k: nat, ds: Dataset): (f: Option<Finding>)
    ensures f.Some? ==> IsRule(k) && f.value.violations == Violations(k, ds)
  {
    if IsRule(k) && Guard(k) <= Loaded(ds) then Some(Finding(Violations(k, ds), Tolerance(k, ds)))
    else None
  }

  /** Every method's report over one dataset. */
  function Reports(ds: Dataset): nat -> Option<Finding> {
    (k: nat) => Report(k, ds)
  }

  /** The order `run_all` calls the methods in: 001 to 052, then 054 to 060. */
  function RunOrder(): (ids: seq<nat>)
    ensures |ids| == 59
    ensures forall k :: k in ids <==> IsRule(k)
  {
    var ids := seq(59, i requires 0 <= i < 59 => if i < 52 then i + 1 else i + 2);
    assert forall k :: IsRule(k) ==> k in ids by {
      forall k | IsRule(k) ensures k in ids {
        assert ids[if k < 53 then k - 1 else k - 2] == k;
      }
    }
    ids
  }

  /** `run_all`: `load_data`, then every method in order; the rows and the failure counter. */
  method RunAll(ds: Dataset) returns (results: seq<LogEntry>, criticalFailures: nat)
    ensures results == Logged(RunOrder(), Reports(ds))
    ensures criticalFailures == Failures(results)
  {
    results, criticalFailures := RunChecks(RunOrder(), Reports(ds));
  }

  // ------------------------------------------------------------ lemmas

  /**
   * The run holds a row for check `k` exactly when `k` has a method and
   * every table its guard names was loaded; the row carries that check's
   * count.
   */
  lemma RowIffGuardLoaded(ds: Dataset, k: nat)
    ensures (exists e :: e in Logged(RunOrder(), Reports(ds)) && e.checkId == k) <==>
      IsRule(k) && Guard(k) <= Loaded(ds)
    ensures forall e :: e in Logged(RunOrder(), Reports(ds)) && e.checkId == k ==>
      e.violations == Violations(k, ds) && e.tolerance == Tolerance(k, ds)
  {
        forall e: LogEntry | e.checkId == k
      ensures e in Logged(RunOrder(), Reports(ds)) <==>
        k in RunOrder() && Reports(ds)(k).Some? && e == Judged(k, Reports(ds)(k).value.violations, Reports(ds)(k).value.tolerance)
    {
      LoggedRows(RunOrder(), Reports(ds), e);
    }
    if IsRule(k) && Guard(k) <= Loaded(ds) {
      var e := Judged(k, Violations(k, ds), Tolerance(k, ds));
      assert e in Logged(RunOrder(), Reports(ds));
    }
  }

  /**
   * SANITY-021 has no guard, so every run logs at least one row and the
   * pass and fail percentages of the summary never divide by zero.
   */
  lemma RunNeverEmpty(ds: Dataset)
    ensures |Logged(RunOrder(), Reports(ds))| > 0
  {
    assert Report(21, ds).Some?;
    LoggedNotEmpty(RunOrder(), Reports(ds), 21);
  }

  /**
   * The script exits 0 exactly when every check whose tables were loaded
   * counted no more violations than its tolerance.
   */
  lemma ExitCodeIffWithinTolerance(ds: Dataset)
    ensures ExitCode(Logged(RunOrder(), Reports(ds))) == 0 <==>
      forall k :: IsRule(k) && Guard(k) <= Loaded(ds) ==> Violations(k, ds) <= Tolerance(k, ds)
  {
    ExitCodeIffAllWithin(RunOrder(), Reports(ds));
  }

  /** A check outside the eleven scaled ones logs tolerance 0. */
  lemma UnscaledToleratesNothing(ds: Dataset, k: nat)
    requires !Scaled(k)
    ensures Report(k, ds).Some? ==> Report(k, ds).value.tolerance == 0
  {
  }

  /** Outside the eleven scaled checks a logged row passes exactly when its count is 0. */
  lemma UnscaledRowPassesIffClean(ds: Dataset, e: LogEntry)
    requires e in Logged(RunOrder(), Reports(ds))
    requires !Scaled(e.checkId)
    ensures e.status == Pass <==> e.violations == 0
  {
    LoggedRows(RunOrder(), Reports(ds), e);
    UnscaledToleratesNothing(ds, e.checkId);
  }

  /**
   * SANITY-038 and SANITY-052 take `max(1, ...)`: one violation never
   * fails them, however few rows there are. The proportional tolerances of
   * the other scaled checks are 0 on an empty table.
   */
  lemma ToleranceFloors(ds: Dataset)
    ensures Tolerance(38, ds) >= 1 && Tolerance(52, ds) >= 1
    ensures RowsOf(ds.payments) == [] ==> Tolerance(15, ds) == 0 && Tolerance(33, ds) == 0 && Tolerance(35, ds) == 0
    ensures RowsOf(ds.loanTape) == [] ==> Tolerance(14, ds) == 0 && Tolerance(58, ds) == 0
  {
  }
}
