/*
 * `run_all_sanity_checks` of the 1M validator: sixty rules, each a lambda
 * over the loaded tables that the `check` wrapper runs. A lambda that reads
 * a table `load_data` did not find raises `KeyError`; `check` catches it and
 * records the rule as skipped. Otherwise the count it returns decides PASS
 * (0) or FAIL. The summary divides by `passed + failed`, which raises
 * `ZeroDivisionError` when every rule was skipped; the function returns
 * `failed == 0`.
 *
 * SANITY-018 and SANITY-019 compare a date column of a parquet table with
 * the string literal "2026-01-09". Whether polars casts the literal to a
 * date or refuses the comparison (`InvalidOperationError`, which `check`
 * records as a skip like any other exception) depends on the polars
 * version; the model takes that choice as a parameter.
 */
module Sanity1M {
  import opened Tables
  import opened Text
  import opened Counting
  import opened Rules

  const RuleCount: nat := 60

  /** The five tables of which every rule reads at least one. */
  const MainTables: set<Table> := {Applications, LoanTape, Payments, CreditReports, Fraud}

  /** The tables the lambda of rule `k` indexes in `data`. */
  function Needs(k: int): (ts: set<Table>)
    requires 1 <= k <= RuleCount
    ensures Applications in ts || LoanTape in ts || Payments in ts || CreditReports in ts || Fraud in ts
  {
    if k in {1, 5, 7, 8, 22} then {LoanTape, Applications}
    else if k in {2, 6, 58} then {Applications, CreditReports}
    else if k in {3, 46, 49, 50, 52, 59} then {Applications, Fraud}
    else if k in {4, 9, 10, 11, 20, 21, 27, 30, 57} then {Payments, LoanTape}
    else if k in {17, 19, 25, 29, 34, 35, 36, 37, 38} then {Payments}
    else if 39 <= k <= 45 then {CreditReports}
    else if k in {47, 48} then {Fraud}
    else if k == 51 then {Tradelines, CreditReports}
    else if k == 53 then {BankTransactions, Applications}
    else if k == 60 then {Applications}
    else {LoanTape}
  }

  /** The count the lambda of rule `k` returns when every table it reads is loaded. */
  function Violations(k: int, ds: Dataset): nat
    requires 1 <= k <= RuleCount
  {
    var apps := RowsOf(ds.applications);
    var lt := RowsOf(ds.loanTape);
    var ps := RowsOf(ds.payments);
    var reports := RowsOf(ds.creditReports);
    var fraud := RowsOf(ds.fraud);
    var approved := Filter(apps, Approved);
    // lifecycle
    if k == 1 then FundedNotApproved(lt, apps)
    else if k == 2 then Orphans(approved, reports, (a: Application) => a.applicationId, (c: CreditReport) => c.applicationId)
    else if k == 3 then Orphans(approved, fraud, (a: Application) => a.applicationId, (f: FraudCheck) => f.applicationId)
    else if k == 4 then Orphans(ps, lt, (p: Payment) => p.loanId, (r: LoanRow) => r.loanId)
    else if k == 5 then Orphans(lt, apps, (r: LoanRow) => r.applicationId, (a: Application) => a.applicationId)
    else if k == 6 then Orphans(reports, apps, (c: CreditReport) => c.applicationId, (a: Application) => a.applicationId)
    else if k == 7 then LoanAppPairs(lt, apps, (r: LoanRow, a: Application) => a.decisionStatus == "DECLINED")
    else if k == 8 then LoanAppPairs(lt, apps, (r: LoanRow, a: Application) => a.decisionStatus in {"PENDING", "UNDER_REVIEW"})
    // state machine
    else if k == 9 then Count(ps, (p: Payment) => ReceivedAfterPayoff(p, lt))
    else if k == 10 then Count(ps, (p: Payment) => ReceivedAfterChargeoff(p, lt))
    else if k == 11 then DelinquentWithoutMissed(lt, ps)
    else if k == 12 then Count(lt, CurrentWithDpd)
    else if k == 13 then Count(lt, PaidOffWithBalance)
    else if k == 14 then Count(lt, EarlyChargeoff)
    else if k == 15 then Count(lt, OutsideDpdBucket)
    else if k == 16 then Count(lt, (r: LoanRow) => r.loanStatus !in LoanStatuses1M)
    else if k == 17 then Count(ps, (p: Payment) => p.status !in PaymentStatuses1M)
    else if k == 18 then Count(lt, (r: LoanRow) => Before(AsOf1M, r.snapshotDate))
    else if k == 19 then Count(ps, (p: Payment) => ReceivedAfter(p, AsOf1M))
    else if k == 20 then FundedAfterFirstDue(lt, ps)
    else if k == 21 then PaymentDatePairs(ps, LoanDatePairs(lt, (r: LoanRow) => r.fundingDate), ReceivedBefore)
    else if k == 22 then DecidedAfterFunding(lt, apps)
    else if k == 23 then WindowLoans(lt, SnapshotNotAfter)
    // financial
    else if k == 24 then Count(lt, NegativePrincipal)
    else if k == 25 then Count(ps, NegativePayment)
    else if k == 26 then Count(lt, AboveOriginal)
    else if k == 27 then PaidOverThreeTimes(lt, ps)
    else if k == 28 then Count(lt, RateOutside1M)
    else if k == 29 then Count(ps, ComponentsUnbalanced)
    else if k == 30 then PrincipalAboveBalance(ps, lt)
    else if k == 31 then Count(lt, TermOutside1M)
    else if k == 32 then Count(lt, (r: LoanRow) => r.originalAmount <= 0.0)
    else if k == 33 then Count(lt, ActiveWithoutSchedule)
    // payment waterfall
    else if k == 34 then Count(ps, MissedWithAmount)
    else if k == 35 then Count(ps, PartialOutOfRange)
    else if k == 36 then Count(ps, PaidNotFull)
    else if k == 37 then Count(ps, InterestAboveAccrued)
    else if k == 38 then Count(ps, PrincipalBeforeInterest)
    // credit bureau
    else if k == 39 then Count(reports, FicoOutside)
    else if k == 40 then Count(reports, OpenTradesNegative)
    else if k == 41 then Count(reports, (c: CreditReport) => c.inquiries6mo < 0)
    else if k == 42 then Count(reports, (c: CreditReport) => c.pastDueTrades > c.allTrades)
    else if k == 43 then Count(reports, OpenTradesAboveAll)
    else if k == 44 then Count(reports, UtilizationOutside1M)
    else if k == 45 then Count(reports, (c: CreditReport) => c.monthsSinceOldestTrade < 0)
    // fraud and verification
    else if k == 46 then AppFraudPairs(approved, fraud, (a: Application, f: FraudCheck) => f.fraudCheckStatus == "FAILED")
    else if k == 47 then Count(fraud, IdentityScoreOutside)
    else if k == 48 then Count(fraud, FraudRiskScoreOutside)
    else if k == 49 then AppFraudPairs(approved, fraud, (a: Application, f: FraudCheck) => f.incomeVerification.None?)
    else if k == 50 then AppFraudPairs(approved, fraud, (a: Application, f: FraudCheck) => f.employmentVerification.None?)
    // referential integrity
    else if k == 51 then
      Orphans(RowsOf(ds.tradelines), reports, (t: Tradeline) => t.applicationId, (c: CreditReport) => c.applicationId)
    else if k == 52 then Orphans(fraud, apps, (f: FraudCheck) => f.applicationId, (a: Application) => a.applicationId)
    else if k == 53 then
      Orphans(RowsOf(ds.bankTransactions), apps, (b: BankTransaction) => b.applicationId, (a: Application) => a.applicationId)
    // cross-table state
    else if k == 54 then WindowLoans(lt, LeftPaidOff)
    else if k == 55 then WindowLoans(lt, LeftChargedOff)
    else if k == 56 then BalanceIncreases(lt)
    else if k == 57 then LoanCountGap(lt, ps)
    else if k == 58 then SizeGap(|apps|, |reports|)
    else if k == 59 then SizeGap(|apps|, |fraud|)
    else DuplicateApplicationIds(apps)
  }

  /** The two rules whose filter compares a date column with a string literal. */
  const DateLiteralRules: set<int> := {18, 19}

  /**
   * How polars treats a date column compared with a string literal: it
   * refuses the comparison (polars 1.x), or it casts the literal to a date.
   */
  datatype DateLiteral = Refused | CastToDate

  /** Rule `k` can reach its count under `cmp` once its tables are loaded. */
  predicate Comparable(k: int, cmp: DateLiteral) {
    k !in DateLiteralRules || cmp == CastToDate
  }

  /** What `check` receives from a lambda: the exception it raises, or its count. */
  datatype Outcome = Raised | Counted(violations: nat)

  /**
   * A lambda raises `KeyError` when it reads a table that was not loaded,
   * and `InvalidOperationError` when its filter compares a date with a
   * string that polars refuses; otherwise it returns its count.
   */
  function RuleOutcome(k: int, ds: Dataset, cmp: DateLiteral): Outcome
    requires 1 <= k <= RuleCount
  {
    if Needs(k) <= Loaded(ds) && Comparable(k, cmp) then Counted(Violations(k, ds)) else Raised
  }

  datatype Status = Pass | Fail | Skip

  /** One row of `results`: the rule, its violations (-1 when skipped) and its status. */
  datatype CheckResult = CheckResult(checkId: nat, violations: int, status: Status)

  /** The row `check` appends for an outcome. */
  function Recorded(k: nat, o: Outcome): (r: CheckResult)
    ensures r.checkId == k
    ensures r.status == Skip <==> o.Raised?
    ensures r.status == Pass <==> o == Counted(0)
    ensures r.status == Fail <==> o.Counted? && o.violations > 0
    ensures r.violations == -1 <==> r.status == Skip
    ensures r.status != Skip ==> r.violations == o.violations
  {
    match o
    case Raised => CheckResult(k, -1, Skip)
    case Counted(n) => CheckResult(k, n, if n == 0 then Pass else Fail)
  }

  /** The number of rows with status `st`, counted from the last row back. */
  function Tally(rs: seq<CheckResult>, st: Status): (n: nat)
    ensures n <= |rs|
  {
    if rs == [] then 0
    else Tally(rs[..|rs| - 1], st) + (if rs[|rs| - 1].status == st then 1 else 0)
  }

  lemma TallySnoc(rs: seq<CheckResult>, x: CheckResult, st: Status)
    ensures Tally(rs + [x], st) == Tally(rs, st) + (if x.status == st then 1 else 0)
  {
    assert (rs + [x])[..|rs|] == rs;
  }

  /** No row has status `st` exactly when the tally of `st` is 0. */
  lemma {:induction false} TallyZero(rs: seq<CheckResult>, st: Status)
    ensures Tally(rs, st) == 0 <==> forall i :: 0 <= i < |rs| ==> rs[i].status != st
  {
    if rs != [] {
      var init := rs[..|rs| - 1];
      TallyZero(init, st);
      assert forall i :: 0 <= i < |init| ==> init[i] == rs[i];
    }
  }

  /** The tallies and the result list that `check` updates through `nonlocal`. */
  class CheckLedger {
    var passed: nat
    var failed: nat
    var skipped: nat
    var results: seq<CheckResult>

    /** Each tally counts the rows of its status. */
    ghost predicate Valid()
      reads this
    {
      passed == Tally(results, Pass)
      && failed == Tally(results, Fail)
      && skipped == Tally(results, Skip)
    }

    constructor ()
      ensures Valid() && results == []
    {
      passed, failed, skipped := 0, 0, 0;
      results := [];
    }

    /**
     * `check`: the lambda's outcome raises exactly one tally and appends
     * exactly one row; the count is returned, `None` for a skipped rule.
     */
    method Check(k: nat, o: Outcome) returns (v: Option<nat>)
      requires Valid()
      modifies this
      ensures Valid()
      ensures results == old(results) + [Recorded(k, o)]
      ensures passed + failed + skipped == old(passed + failed + skipped) + 1
      ensures v.None? <==> o.Raised?
      ensures v.Some? ==> v.value == o.violations
    {
      var entry := Recorded(k, o);
      TallySnoc(results, entry, Pass);
      TallySnoc(results, entry, Fail);
      TallySnoc(results, entry, Skip);
      if o.Raised? {
        skipped := skipped + 1;
        v := None;
      } else if o.violations == 0 {
        passed := passed + 1;
        v := Some(0);
      } else {
        failed := failed + 1;
        v := Some(o.violations);
      }
      results := results + [entry];
    }
  }

  /** The outcomes of the sixty lambdas, rule `k` at index `k - 1`. */
  function Outcomes(ds: Dataset, cmp: DateLiteral): (outs: seq<Outcome>)
    ensures |outs| == RuleCount
  {
    seq(RuleCount, i requires 0 <= i < RuleCount => RuleOutcome(i + 1, ds, cmp))
  }

  /** The rows `check` appends for a list of outcomes, numbered from 1. */
  function Results(outs: seq<Outcome>): (rs: seq<CheckResult>)
    ensures |rs| == |outs|
  {
    seq(|outs|, i requires 0 <= i < |outs| => Recorded(i + 1, outs[i]))
  }

  lemma ResultsSnoc(outs: seq<Outcome>, n: nat)
    requires n < |outs|
    ensures Results(outs[..n + 1]) == Results(outs[..n]) + [Recorded(n + 1, outs[n])]
  {
  }

  /** How the run ends: the summary's division fails, or the function returns `failed == 0`. */
  datatype RunResult = DivisionByZero | Succeeded(allPassed: bool)

  /** The summary over the rows of a run. */
  function SummaryOf(outs: seq<Outcome>): RunResult {
    var rs := Results(outs);
    var passed := Tally(rs, Pass);
    var failed := Tally(rs, Fail);
    if passed + failed == 0 then DivisionByZero else Succeeded(failed == 0)
  }

  /**
   * The sixty `check` calls in order, then the summary. The lambdas only
   * read the tables, so each outcome is the rule's `RuleOutcome`. The CSV
   * report is the returned rows.
   */
  method RunAllSanityChecks(ds: Dataset, cmp: DateLiteral) returns (r: RunResult, results: seq<CheckResult>)
    ensures results == Results(Outcomes(ds, cmp))
    ensures r == SummaryOf(Outcomes(ds, cmp))
  {
    var outs := Outcomes(ds, cmp);
    var ledger := new CheckLedger();
    for k := 1 to RuleCount + 1
      invariant ledger.Valid()
      invariant ledger.results == Results(outs[..k - 1])
    {
      var _ := ledger.Check(k, outs[k - 1]);
      ResultsSnoc(outs, k - 1);
    }
    assert outs[..RuleCount] == outs;
    results := ledger.results;
    if ledger.passed + ledger.failed == 0 {
      r := DivisionByZero;
    } else {
      r := Succeeded(ledger.failed == 0);
    }
  }

  // ------------------------------------------------------------ lemmas

  /** The summary divides by zero exactly when every rule was skipped. */
  lemma SummaryFailsIffAllSkipped(outs: seq<Outcome>)
    ensures SummaryOf(outs) == DivisionByZero <==> forall i :: 0 <= i < |outs| ==> outs[i].Raised?
  {
    var rs := Results(outs);
    TallyZero(rs, Pass);
    TallyZero(rs, Fail);
    if forall i :: 0 <= i < |outs| ==> outs[i].Raised? {
      assert forall i :: 0 <= i < |rs| ==> rs[i].status == Skip;
    } else {
      var i :| 0 <= i < |outs| && !outs[i].Raised?;
      assert rs[i].status != Skip;
    }
  }

  /**
   * The run returns True exactly when at least one rule ran and every rule
   * that ran counted no violation; a skipped rule never makes it fail.
   */
  lemma SummarySucceedsIff(outs: seq<Outcome>)
    ensures SummaryOf(outs) == Succeeded(true) <==>
      (exists i :: 0 <= i < |outs| && outs[i].Counted?)
      && forall i :: 0 <= i < |outs| && outs[i].Counted? ==> outs[i].violations == 0
  {
    var rs := Results(outs);
    TallyZero(rs, Pass);
    TallyZero(rs, Fail);
    if SummaryOf(outs) == Succeeded(true) {
      var i :| 0 <= i < |rs| && rs[i].status == Pass;
      assert outs[i].Counted?;
      forall j | 0 <= j < |outs| && outs[j].Counted? ensures outs[j].violations == 0 {
        assert rs[j].status != Fail;
      }
    } else if exists i :: 0 <= i < |outs| && outs[i].Counted? {
      var i :| 0 <= i < |outs| && outs[i].Counted?;
      assert rs[i].status != Skip;
      var j :| 0 <= j < |rs| && rs[j].status == Fail;
      assert outs[j].Counted? && outs[j].violations != 0;
    }
  }

  /**
   * Rule `k` is skipped exactly when it reads a table that was not loaded,
   * or when it is SANITY-018 or SANITY-019 and polars refuses their
   * date-to-string comparison; otherwise it records its count.
   */
  lemma SkippedIffMissingOrRefused(ds: Dataset, cmp: DateLiteral, k: int)
    requires 1 <= k <= RuleCount
    ensures Outcomes(ds, cmp)[k - 1].Raised? <==>
      !(Needs(k) <= Loaded(ds)) || (k in DateLiteralRules && cmp == Refused)
    ensures Outcomes(ds, cmp)[k - 1].Counted? ==> Outcomes(ds, cmp)[k - 1].violations == Violations(k, ds)
  {
  }

  /** Without the five main tables every rule reads a missing table. */
  lemma MainTablesMissingSkipsRule(ds: Dataset, cmp: DateLiteral, k: int)
    requires 1 <= k <= RuleCount
    requires Loaded(ds) * MainTables == {}
    ensures Outcomes(ds, cmp)[k - 1].Raised?
  {
    SkippedIffMissingOrRefused(ds, cmp, k);
    var ts := Needs(k);
    if Applications in ts { assert Applications !in Loaded(ds); }
    else if LoanTape in ts { assert LoanTape !in Loaded(ds); }
    else if Payments in ts { assert Payments !in Loaded(ds); }
    else if CreditReports in ts { assert CreditReports !in Loaded(ds); }
    else { assert Fraud !in Loaded(ds); }
  }

  /** Each main table is the only table of one rule: SANITY-060, 012, 017, 039 and 047. */
  lemma MainTableRunsRule(ds: Dataset, cmp: DateLiteral, t: Table) returns (k: int)
    requires t in Loaded(ds) * MainTables
    ensures 1 <= k <= RuleCount && Outcomes(ds, cmp)[k - 1].Counted?
  {
    k := if t == Applications then 60 else if t == LoanTape then 12
      else if t == Payments then 17 else if t == CreditReports then 39 else 47;
    SkippedIffMissingOrRefused(ds, cmp, k);
  }

  /**
   * The summary divides by zero exactly when none of applications,
   * loan_tape, payments, credit_reports and fraud_verification was found,
   * whichever way polars treats the date literal.
   */
  lemma SummaryFailsIffMainTablesMissing(ds: Dataset, cmp: DateLiteral)
    ensures SummaryOf(Outcomes(ds, cmp)) == DivisionByZero <==> Loaded(ds) * MainTables == {}
  {
    var outs := Outcomes(ds, cmp);
    SummaryFailsIffAllSkipped(outs);
    if Loaded(ds) * MainTables == {} {
      forall i | 0 <= i < |outs| ensures outs[i].Raised? {
        MainTablesMissingSkipsRule(ds, cmp, i + 1);
      }
    } else {
      var t :| t in Loaded(ds) * MainTables;
      var k := MainTableRunsRule(ds, cmp, t);
    }
  }

  /**
   * With all seven tables loaded, a rule is skipped exactly when it is
   * SANITY-018 or SANITY-019 and polars refuses their comparison; every
   * other rule records its count.
   */
  lemma FullDatasetSkipsOnlyDateRules(ds: Dataset, cmp: DateLiteral, k: int)
    requires ds.applications.Some? && ds.loanTape.Some? && ds.payments.Some?
    requires ds.creditReports.Some? && ds.tradelines.Some? && ds.fraud.Some? && ds.bankTransactions.Some?
    requires 1 <= k <= RuleCount
    ensures Outcomes(ds, cmp)[k - 1] == if Comparable(k, cmp) then Counted(Violations(k, ds)) else Raised
  {
    assert Needs(k) <= Loaded(ds);
  }

  /**
   * With all seven tables loaded the run returns whether every rule it
   * could compare counted 0: under a polars that refuses the date literal,
   * SANITY-018 and SANITY-019 never decide the verdict.
   */
  lemma FullDatasetVerdict(ds: Dataset, cmp: DateLiteral)
    requires ds.applications.Some? && ds.loanTape.Some? && ds.payments.Some?
    requires ds.creditReports.Some? && ds.tradelines.Some? && ds.fraud.Some? && ds.bankTransactions.Some?
    ensures SummaryOf(Outcomes(ds, cmp))
      == Succeeded(forall k :: 1 <= k <= RuleCount && Comparable(k, cmp) ==> Violations(k, ds) == 0)
  {
    var outs := Outcomes(ds, cmp);
    forall i | 0 <= i < |outs| ensures outs[i] == (if Comparable(i + 1, cmp) then Counted(Violations(i + 1, ds)) else Raised) {
      FullDatasetSkipsOnlyDateRules(ds, cmp, i + 1);
    }
    assert outs[11].Counted? by { FullDatasetSkipsOnlyDateRules(ds, cmp, 12); }
    SummarySucceedsIff(outs);
    SummaryFailsIffAllSkipped(outs);
    if forall k :: 1 <= k <= RuleCount && Comparable(k, cmp) ==> Violations(k, ds) == 0 {
      forall i | 0 <= i < |outs| && outs[i].Counted? ensures outs[i].violations == 0 {
        assert Comparable(i + 1, cmp);
      }
    } else {
      var k :| 1 <= k <= RuleCount && Comparable(k, cmp) && Violations(k, ds) != 0;
      assert outs[k - 1].Counted? && outs[k - 1].violations != 0;
    }
  }
}
