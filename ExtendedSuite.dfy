/*
 * `ExtendedDataValidator`: thirty-one `check_*` methods run in eight
 * sections by `run_all`. Each method returns at once when a table it reads
 * is missing from `data`; otherwise it computes a count and hands
 * `log_result` one row with a status (PASS, FAIL, WARN or SKIP), the count
 * and a severity. `log_result` only appends: this validator keeps no failure
 * counter, and `run_all` catches nothing, so a check that raises ends the
 * run. Three checks divide by a table's height and raise ZeroDivisionError
 * on an empty table.
 *
 * FIN-003 compares each loan's installment with the float `pow` annuity
 * formula; which loans it flags is an input of the model.
 */
module ExtendedSuite {
  import opened Tables
  import opened Text
  import opened Counting
  import opened Rules

  datatype Status = Pass | Fail | Warn | Skip

  datatype Severity = Low | Medium | High | Critical

  /** The checks `run_all` calls, named after their ids. */
  datatype Check =
    | Int003 | Int004 | Int005 | Int006 | Int008
    | Pol002 | Pol004 | Pol005 | Pol009 | Pol010
    | Tmp001 | Tmp002 | Tmp003 | Tmp010
    | Fin003 | Fin005 | Fin006 | Fin007
    | Log002 | Log005 | Log006 | Log008 | Log012
    | Dq005 | Dq008 | Dq011
    | Hyd001 | Hyd008 | Hyd010
    | Stat002 | Stat004

  /** What a check hands `log_result` besides its id (the name and the details text are not modelled). */
  datatype Verdict = Verdict(status: Status, violations: nat, severity: Severity)

  /** One row of `results`. */
  datatype Entry = Entry(check: Check, status: Status, violations: nat, severity: Severity)

  /** What one check method does: return before logging, log one row, or raise. */
  datatype Step = Silent | Logs(verdict: Verdict) | Raises

  // ------------------------------------------------------- kinds of check

  /** The checks that pass only on a zero count. */
  predicate ZeroTolerance(c: Check) {
    !Share(c) && !InRange(c)
  }

  /** The checks that pass while the count stays under a share of a row count. */
  predicate Share(c: Check) {
    c == Fin003 || c == Fin006 || c == Log008 || c == Hyd001
  }

  /** The checks that compare a percentage with a range and WARN outside it. */
  predicate InRange(c: Check) {
    c == Hyd008 || c == Hyd010 || c == Stat002 || c == Stat004
  }

  /** The severity a check logs its verdict with (a SKIP row is always MEDIUM). */
  function SeverityOf(c: Check): Severity {
    match c
    case Int003 => Critical
    case Int004 => Critical
    case Int005 => Critical
    case Int006 => High
    case Int008 => High
    case Pol002 => High
    case Pol004 => Medium
    case Pol005 => High
    case Pol009 => Critical
    case Pol010 => High
    case Tmp001 => Critical
    case Tmp002 => High
    case Tmp003 => High
    case Tmp010 => Medium
    case Fin003 => Medium
    case Fin005 => High
    case Fin006 => Medium
    case Fin007 => High
    case Log002 => High
    case Log005 => High
    case Log006 => High
    case Log008 => Medium
    case Log012 => Medium
    case Dq005 => High
    case Dq008 => Medium
    case Dq011 => Critical
    case Hyd001 => Medium
    case Hyd008 => Medium
    case Hyd010 => Medium
    case Stat002 => Low
    case Stat004 => Medium
  }

  /** The tables whose absence makes a check return before logging. */
  function Guard(c: Check): set<Table> {
    match c
    case Int003 => {CreditReports, Applications}
    case Int004 => {Payments, LoanTape}
    case Int005 => {Tradelines, CreditReports}
    case Int006 => {Fraud, Applications}
    case Int008 => {Applications, LoanTape}
    case Pol004 => {Applications, LoanTape}
    case Tmp001 => {Applications, LoanTape}
    case Log008 => {Applications, CreditReports}
    case Hyd001 => {CreditReports, LoanTape}
    case Pol002 => {Applications}
    case Pol009 => {Applications}
    case Dq005 => {Applications}
    case Dq008 => {Applications}
    case Stat002 => {Applications}
    case Fin005 => {Payments}
    case Hyd008 => {Payments}
    case Hyd010 => {Payments}
    case _ => {LoanTape}
  }

  // ------------------------------------------------------------- verdicts

  /** `"PASS" if count == 0 else "FAIL"`, logged with the count. */
  function Counted(c: Check, count: nat): (v: Verdict)
    ensures v.violations == count && v.severity == SeverityOf(c)
    ensures v.status == Pass <==> count == 0
    ensures v.status == Fail <==> count > 0
  {
    Verdict(if count == 0 then Pass else Fail, count, SeverityOf(c))
  }

  /**
   * `"PASS" if count < total * share else "FAIL"` with share 1/divisor
   * (0.01, 0.05 or 0.1). The double nearest each of these lies just above
   * it, so for row counts below 2^50 the float comparison agrees with
   * `count * divisor < total`.
   */
  function UnderShare(c: Check, count: nat, total: nat, divisor: nat): (v: Verdict)
    ensures v.violations == count && v.severity == SeverityOf(c)
    ensures v.status == Pass <==> count * divisor < total
    ensures v.status == Fail <==> count * divisor >= total
  {
    Verdict(if count * divisor < total then Pass else Fail, count, SeverityOf(c))
  }

  /**
   * `pct = hits / rows * 100` and `"PASS" if lo <= pct <= hi else "WARN"`,
   * logged with 0 violations on PASS and 1 on WARN. The percentage is
   * compared exactly.
   */
  function Within(c: Check, hits: nat, rows: nat, lo: nat, hi: nat): (v: Verdict)
    requires rows > 0
    ensures v.severity == SeverityOf(c)
    ensures v.status == Pass <==> lo * rows <= 100 * hits <= hi * rows
    ensures v.status == Pass ==> v.violations == 0
    ensures v.status != Pass ==> v.status == Warn && v.violations == 1
  {
    if lo * rows <= 100 * hits <= hi * rows then Verdict(Pass, 0, SeverityOf(c))
    else Verdict(Warn, 1, SeverityOf(c))
  }

  /** `log_result(id, name, "SKIP", details)`: the defaults, 0 violations and MEDIUM. */
  const Skipped := Verdict(Skip, 0, Medium)

  // ------------------------------------------------------- per-row rules

  /** POL-004: a PERSONAL loan outside [1000, 50000] or an AUTO loan outside [5000, 100000]. */
  predicate ProductLimitBreached(r: LoanRow, a: Application) {
    (a.productType == "PERSONAL" && (r.originalAmount < 1000.0 || r.originalAmount > 50000.0))
    || (a.productType == "AUTO" && (r.originalAmount < 5000.0 || r.originalAmount > 100000.0))
  }

  predicate CustomerMismatch(r: LoanRow, a: Application) {
    r.customerId != a.customerId
  }

  predicate OriginatedBeforeApplication(r: LoanRow, a: Application) {
    Before(r.originationDate, a.applicationDate)
  }

  /** LOG-008: the FICO at application and the bureau FICO 8 differ by more than 20 points. */
  predicate FicoGap(c: CreditReport, a: Application) {
    c.fico8 - a.ficoAtApplication > 20 || a.ficoAtApplication - c.fico8 > 20
  }

  predicate MonthsOnBookOver100(r: LoanRow) {
    r.monthsOnBook > 100
  }

  /** HYD-001: a DELINQUENT loan whose bureau report shows no 30-day delinquency. */
  predicate DelinquentWithCleanBureau(c: CreditReport, r: LoanRow) {
    Contains(r.loanStatus, "DELINQUENT") && c.delinquencies30Day == 0
  }

  predicate AutopayEnrolled(p: Payment) {
    p.autopay
  }

  predicate NsfOrReturned(p: Payment) {
    p.nsf || p.returned
  }

  predicate Mature(r: LoanRow) {
    r.monthsOnBook >= 12
  }

  predicate ChargeoffFlagged(r: LoanRow) {
    r.chargeoffFlag == 1
  }

  /** INT-008 compares `customer_id` with `customer_id_app`, which the join has only when both tables carry the column. */
  predicate CustomerIdsOnBothSides(ds: Dataset) {
    ds.applications.Some? && ds.loanTape.Some?
    && "customer_id" in ds.applications.value.columns && "customer_id" in ds.loanTape.value.columns
  }

  predicate DtiColumnPresent(ds: Dataset) {
    ds.applications.Some? && "debt_to_income_ratio" in ds.applications.value.columns
  }

  /** A loaded table with no rows: dividing by its height raises. */
  predicate LoadedEmpty<R>(t: Option<Frame<R>>) {
    t.Some? && |t.value.rows| == 0
  }

  // ---------------------------------------------------------- the checks

  /**
   * HYD-008 and HYD-010 divide by the height of payments, STAT-002 by that
   * of applications: on a loaded table with no rows Python raises
   * ZeroDivisionError.
   */
  predicate DividesByEmpty(c: Check, ds: Dataset) {
    ((c == Hyd008 || c == Hyd010) && LoadedEmpty(ds.payments)) || (c == Stat002 && LoadedEmpty(ds.applications))
  }

  /** The count a zero-tolerance check logs. */
  function ZeroCount(c: Check, ds: Dataset): nat
    requires ZeroTolerance(c)
  {
    var apps := RowsOf(ds.applications);
    var lt := RowsOf(ds.loanTape);
    var ps := RowsOf(ds.payments);
    var reports := RowsOf(ds.creditReports);
    if c == Int003 then Orphans(reports, apps, (r: CreditReport) => r.applicationId, (a: Application) => a.applicationId)
    else if c == Int004 then Orphans(ps, lt, (p: Payment) => p.loanId, (r: LoanRow) => r.loanId)
    else if c == Int005 then Orphans(RowsOf(ds.tradelines), reports, (t: Tradeline) => t.creditReportId, (r: CreditReport) => r.creditReportId)
    else if c == Int006 then |FraudCountNotOne(RowsOf(ds.fraud))|
    else if c == Int008 then LoanAppPairs(lt, apps, CustomerMismatch)
    else if c == Pol002 then Count(apps, DtiAboveCeiling)
    else if c == Pol004 then LoanAppPairs(lt, apps, ProductLimitBreached)
    else if c == Pol005 then Count(lt, AprOutsidePolicy)
    else if c == Pol009 then Count(apps, Underage)
    else if c == Pol010 then Count(lt, EarlyChargeoff)
    else if c == Tmp001 then LoanAppPairs(lt, apps, OriginatedBeforeApplication)
    else if c == Tmp002 then Count(lt, SignedAfterOrigination)
    else if c == Tmp003 then Count(lt, FirstDueNotAfterOrigination)
    else if c == Tmp010 then Count(lt, VintageMismatch)
    else if c == Fin005 then Count(ps, PaydownMismatch)
    else if c == Fin007 then Count(lt, FeeAboveSixPercent)
    else if c == Log002 then Count(lt, DelinquentFlagMismatch)
    else if c == Log005 then Count(lt, WorstBelowCurrent)
    else if c == Log006 then Count(lt, TimesDpdOutOfOrder)
    else if c == Log012 then Count(lt, MonthsOnBookOver100)
    else if c == Dq005 then Count(apps, SsnLast4Invalid)
    else if c == Dq008 then Count(apps, ZipInvalid)
    else Count(lt, NegativeBalance)
  }

  /** The count a share check logs, and the row count its share is taken of. */
  function ShareCounts(c: Check, ds: Dataset, installmentOff: LoanRow -> bool): (nat, nat)
    requires Share(c)
  {
    var apps := RowsOf(ds.applications);
    var lt := RowsOf(ds.loanTape);
    var reports := RowsOf(ds.creditReports);
    if c == Fin003 then (Count(lt, installmentOff), |lt|)
    else if c == Fin006 then (Count(lt, AprSpreadSuspicious), |lt|)
    else if c == Log008 then (ReportAppPairs(reports, apps, FicoGap), ReportAppPairs(reports, apps, (r: CreditReport, a: Application) => true))
    else (BureauLoanPairs(reports, lt, DelinquentWithCleanBureau), BureauLoanPairs(reports, lt, (r: CreditReport, l: LoanRow) => true))
  }

  /** The share as 1/divisor: 1% for FIN-003 and FIN-006, 5% for LOG-008, 10% for HYD-001. */
  function ShareDivisor(c: Check): nat {
    if c == Log008 then 20 else if c == Hyd001 then 10 else 100
  }

  /** STAT-004 takes its rate over the loans at least 12 months on book. */
  predicate MatureChargedOff(r: LoanRow) {
    Mature(r) && ChargeoffFlagged(r)
  }

  /** The rows a range check divides by: payments, applications, or the mature loans. */
  function RangeRows(c: Check, ds: Dataset): (n: nat)
    requires InRange(c)
    requires (c == Hyd008 || c == Hyd010) ==> |RowsOf(ds.payments)| > 0
    requires c == Stat002 ==> |RowsOf(ds.applications)| > 0
    requires c == Stat004 ==> Count(RowsOf(ds.loanTape), Mature) > 0
    ensures n > 0
  {
    if c == Hyd008 || c == Hyd010 then |RowsOf(ds.payments)|
    else if c == Stat002 then |RowsOf(ds.applications)|
    else Count(RowsOf(ds.loanTape), Mature)
  }

  /** The rows among those that a range check counts. */
  function RangeHits(c: Check, ds: Dataset): nat
    requires InRange(c)
  {
    if c == Hyd008 then Count(RowsOf(ds.payments), AutopayEnrolled)
    else if c == Hyd010 then Count(RowsOf(ds.payments), NsfOrReturned)
    else if c == Stat002 then Count(RowsOf(ds.applications), Approved)
    else Count(RowsOf(ds.loanTape), MatureChargedOff)
  }

  /** The range in percent: 60-80 for HYD-008 and STAT-002, 1-3 for HYD-010, 3-10 for STAT-004. */
  function RangeBounds(c: Check): (nat, nat) {
    if c == Hyd010 then (1, 3) else if c == Stat004 then (3, 10) else (60, 80)
  }

  /** A range check past its guard that does not raise divides by a table with rows. */
  lemma DivisorNotEmpty(c: Check, ds: Dataset)
    requires Guard(c) <= Loaded(ds) && !DividesByEmpty(c, ds)
    ensures (c == Hyd008 || c == Hyd010) ==> |RowsOf(ds.payments)| > 0
    ensures c == Stat002 ==> |RowsOf(ds.applications)| > 0
  {
    if c == Hyd008 || c == Hyd010 {
      assert Payments in Guard(c);
    } else if c == Stat002 {
      assert Applications in Guard(c);
    }
  }

  /** A zero-tolerance check: INT-008 logs nothing without `customer_id` on both sides, POL-002 skips without its column. */
  function ZeroVerdict(c: Check, ds: Dataset): (r: Option<Verdict>)
    requires ZeroTolerance(c)
    ensures r.None? <==> c == Int008 && !CustomerIdsOnBothSides(ds)
    ensures r.Some? && r.value.status == Skip <==> c == Pol002 && !DtiColumnPresent(ds)
    ensures r.Some? && r.value.status != Skip ==> r.value.severity == SeverityOf(c)
  {
    if c == Int008 && !CustomerIdsOnBothSides(ds) then None
    else if c == Pol002 && !DtiColumnPresent(ds) then Some(Skipped)
    else Some(Counted(c, ZeroCount(c, ds)))
  }

  /** A range check: STAT-004 skips when no loan is mature, the others judge their percentage. */
  function RangeVerdict(c: Check, ds: Dataset): (r: Verdict)
    requires InRange(c)
    requires (c == Hyd008 || c == Hyd010) ==> |RowsOf(ds.payments)| > 0
    requires c == Stat002 ==> |RowsOf(ds.applications)| > 0
    ensures r.status == Skip <==> c == Stat004 && Count(RowsOf(ds.loanTape), Mature) == 0
    ensures r.status != Skip ==> r.severity == SeverityOf(c)
  {
    if c == Stat004 && Count(RowsOf(ds.loanTape), Mature) == 0 then Skipped
    else
      var bounds := RangeBounds(c);
      Within(c, RangeHits(c, ds), RangeRows(c, ds), bounds.0, bounds.1)
  }

  /** The verdict check `c` logs once its guard lets it through; `None` when INT-008 finds no `customer_id` pair. */
  function Judge(c: Check, ds: Dataset, installmentOff: LoanRow -> bool): (r: Option<Verdict>)
    requires Guard(c) <= Loaded(ds) && !DividesByEmpty(c, ds)
    ensures r.None? <==> c == Int008 && !CustomerIdsOnBothSides(ds)
    ensures r.Some? && r.value.status == Skip <==>
      (c == Pol002 && !DtiColumnPresent(ds)) || (c == Stat004 && Count(RowsOf(ds.loanTape), Mature) == 0)
    ensures r.Some? && r.value.status != Skip ==> r.value.severity == SeverityOf(c)
  {
    if ZeroTolerance(c) then ZeroVerdict(c, ds)
    else if Share(c) then
      var counts := ShareCounts(c, ds, installmentOff);
      Some(UnderShare(c, counts.0, counts.1, ShareDivisor(c)))
    else
      DivisorNotEmpty(c, ds);
      Some(RangeVerdict(c, ds))
  }

  /** `credit_reports.join(loan_tape, on="application_id", how="inner").filter(p)`. */
  function BureauLoanPairs(reports: seq<CreditReport>, lt: seq<LoanRow>, p: (CreditReport, LoanRow) -> bool): nat {
    PairCount(reports, lt, (c: CreditReport, r: LoanRow) => c.applicationId == r.applicationId && p(c, r))
  }

  /** What method `check_*` for `c` does on the tables `ds`. */
  function Outcome(c: Check, ds: Dataset, installmentOff: LoanRow -> bool): Step {
    if !(Guard(c) <= Loaded(ds)) then Silent
    else if DividesByEmpty(c, ds) then Raises
    else match Judge(c, ds, installmentOff)
      case None => Silent
      case Some(v) => Logs(v)
  }

  function Steps(ds: Dataset, installmentOff: LoanRow -> bool): Check -> Step {
    (c: Check) => Outcome(c, ds, installmentOff)
  }

  // ------------------------------------------------------------- the run

  /** The rows a run appended, and the check that raised, if one did. */
  datatype Run = Run(rows: seq<Entry>, raisedAt: Option<Check>)

  /**
   * Running `checks` in order: a row for each check that logs, up to the
   * first check that raises, after which nothing more runs.
   */
  function RunOf(checks: seq<Check>, step: Check -> Step): (r: Run)
    ensures |r.rows| <= |checks|
    ensures r.raisedAt.Some? ==> r.raisedAt.value in checks && step(r.raisedAt.value).Raises?
  {
    if checks == [] then Run([], None)
    else
      var init := RunOf(checks[..|checks| - 1], step);
      var c := checks[|checks| - 1];
      if init.raisedAt.Some? then init
      else
        match step(c)
        case Silent => init
        case Logs(v) => Run(init.rows + [Row(c, v)], None)
        case Raises => Run(init.rows, Some(c))
  }

  /** The eight sections of `run_all`, in order. */
  function Sections(): seq<seq<Check>> {
    [[Int003, Int004, Int005, Int006, Int008],
     [Pol002, Pol004, Pol005, Pol009, Pol010],
     [Tmp001, Tmp002, Tmp003, Tmp010],
     [Fin003, Fin005, Fin006, Fin007],
     [Log002, Log005, Log006, Log008, Log012],
     [Dq005, Dq008, Dq011],
     [Hyd001, Hyd008, Hyd010],
     [Stat002, Stat004]]
  }

  /** The checks before the hydration section: none of them divides. */
  function Undivided(): seq<Check> {
    var s := Sections();
    s[0] + s[1] + s[2] + s[3] + s[4] + s[5]
  }

  /** The order `run_all` calls the checks in. */
  function RunOrder(): seq<Check> {
    var s := Sections();
    Undivided() + s[6] + s[7]
  }

  /** The section of `run_all` a check belongs to. */
  function SectionOf(c: Check): (k: nat)
    ensures k < |Sections()| && c in Sections()[k]
  {
    if c.Int003? || c.Int004? || c.Int005? || c.Int006? || c.Int008? then 0
    else if c.Pol002? || c.Pol004? || c.Pol005? || c.Pol009? || c.Pol010? then 1
    else if c.Tmp001? || c.Tmp002? || c.Tmp003? || c.Tmp010? then 2
    else if c.Fin003? || c.Fin005? || c.Fin006? || c.Fin007? then 3
    else if c.Log002? || c.Log005? || c.Log006? || c.Log008? || c.Log012? then 4
    else if c.Dq005? || c.Dq008? || c.Dq011? then 5
    else if c.Hyd001? || c.Hyd008? || c.Hyd010? then 6
    else 7
  }

  /** The row `log_result` appends for check `c`. */
  function Row(c: Check, v: Verdict): Entry {
    Entry(c, v.status, v.violations, v.severity)
  }

  class ExtendedValidator {
    var results: seq<Entry>

    constructor ()
      ensures results == []
    {
      results := [];
    }

    /** `log_result`: appends the row and nothing else. */
    method LogResult(c: Check, v: Verdict)
      modifies this
      ensures results == old(results) + [Row(c, v)]
    {
      results := results + [Row(c, v)];
    }

    /** One `check_*` method whose behaviour is `s`; `raised` when it raises. */
    method Perform(c: Check, s: Step) returns (raised: bool)
      modifies this
      ensures raised <==> s.Raises?
      ensures results == old(results) + (if s.Logs? then [Row(c, s.verdict)] else [])
    {
      raised := s.Raises?;
      if s.Logs? {
        LogResult(c, s.verdict);
      }
    }

    /** The check methods `checks` in order, stopping at the first that raises; `raisedAt` names it. */
    method RunChecks(checks: seq<Check>, step: Check -> Step) returns (raisedAt: Option<Check>)
      modifies this
      ensures results == old(results) + RunOf(checks, step).rows
      ensures raisedAt == RunOf(checks, step).raisedAt
    {
      raisedAt := None;
      var n := 0;
      while n < |checks|
        invariant 0 <= n <= |checks|
        invariant RunOf(checks[..n], step).raisedAt == None
        invariant results == old(results) + RunOf(checks[..n], step).rows
      {
        RunOfNext(checks, n, step);
        var raised := Perform(checks[n], step(checks[n]));
        if raised {
          RunOfAppend(checks[..n + 1], checks[n + 1..], step);
          assert checks[..n + 1] + checks[n + 1..] == checks;
          raisedAt := Some(checks[n]);
          return;
        }
        n := n + 1;
      }
      assert checks[..n] == checks;
    }

    /** `run_all` after `load_data`: the exception of a raising check leaves `run_all`. */
    method RunAll(ds: Dataset, installmentOff: LoanRow -> bool) returns (raisedAt: Option<Check>)
      modifies this
      ensures results == old(results) + RunOf(RunOrder(), Steps(ds, installmentOff)).rows
      ensures raisedAt == RunOf(RunOrder(), Steps(ds, installmentOff)).raisedAt
    {
      raisedAt := RunChecks(RunOrder(), Steps(ds, installmentOff));
    }
  }

  // ------------------------------------------------------------- lemmas

  /** A run of `a` then `b`: `b` runs only when `a` raised nothing. */
  lemma {:induction false} RunOfAppend(a: seq<Check>, b: seq<Check>, step: Check -> Step)
    ensures RunOf(a + b, step) ==
      if RunOf(a, step).raisedAt.Some? then RunOf(a, step)
      else Run(RunOf(a, step).rows + RunOf(b, step).rows, RunOf(b, step).raisedAt)
    decreases |b|
  {
    if b == [] {
      assert a + b == a;
    } else {
      var b' := b[..|b| - 1];
      assert (a + b)[..|a + b| - 1] == a + b';
      assert (a + b)[|a + b| - 1] == b[|b| - 1];
      RunOfAppend(a, b', step);
    }
  }

  /** A run raises exactly when one of its checks raises. */
  lemma {:induction false} RaisesIffSomeCheckRaises(checks: seq<Check>, step: Check -> Step)
    ensures RunOf(checks, step).raisedAt.None? <==> forall c :: c in checks ==> !step(c).Raises?
  {
    if checks != [] {
      var init := checks[..|checks| - 1];
      RaisesIffSomeCheckRaises(init, step);
      assert forall c :: c in checks <==> c in init || c == checks[|checks| - 1];
    }
  }

  /** When nothing raised, the rows are exactly the rows the checks logged. */
  lemma {:induction false} CompletedRows(checks: seq<Check>, step: Check -> Step, e: Entry)
    requires RunOf(checks, step).raisedAt.None?
    ensures e in RunOf(checks, step).rows <==> exists c :: c in checks && step(c).Logs? && e == Row(c, step(c).verdict)
  {
    if checks != [] {
      var init := checks[..|checks| - 1];
      var c := checks[|checks| - 1];
      CompletedRows(init, step, e);
      assert forall d :: d in checks <==> d in init || d == c;
    }
  }

  /** One more check on a run that has not raised. */
  lemma RunOfNext(checks: seq<Check>, n: nat, step: Check -> Step)
    requires n < |checks| && RunOf(checks[..n], step).raisedAt == None
    ensures var prev := RunOf(checks[..n], step).rows; var s := step(checks[n]);
      RunOf(checks[..n + 1], step)
      == Run(prev + (if s.Logs? then [Row(checks[n], s.verdict)] else []), if s.Raises? then Some(checks[n]) else None)
  {
    assert checks[..n + 1][..n] == checks[..n];
  }

  /** The run raises at `c` when every check before it ran without raising. */
  lemma FirstRaiser(pre: seq<Check>, c: Check, post: seq<Check>, step: Check -> Step)
    requires forall d :: d in pre ==> !step(d).Raises?
    requires step(c).Raises?
    ensures RunOf(pre + [c] + post, step).raisedAt == Some(c)
  {
    RaisesIffSomeCheckRaises(pre, step);
    assert (pre + [c])[..|pre|] == pre;
    RunOfAppend(pre + [c], post, step);
  }

  /** `run_all` calls every check. */
  lemma EveryCheckRuns(c: Check)
    ensures c in RunOrder()
  {
    var s := Sections();
    var k := SectionOf(c);
    assert forall d :: d in RunOrder() <==> d in s[0] || d in s[1] || d in s[2] || d in s[3] || d in s[4] || d in s[5] || d in s[6] || d in s[7];
  }

  /** A check raises exactly when it divides by the height of a loaded, empty table. */
  lemma RaisesOnEmptyDivisor(c: Check, ds: Dataset, installmentOff: LoanRow -> bool)
    ensures Outcome(c, ds, installmentOff).Raises? <==> DividesByEmpty(c, ds)
  {
    if DividesByEmpty(c, ds) {
      assert Guard(c) == (if c == Stat002 then {Applications} else {Payments});
    }
  }

  /** The checks that raise are the ones that divide by an empty table. */
  lemma StepsRaiseOnEmptyDivisor(ds: Dataset, installmentOff: LoanRow -> bool)
    ensures forall c :: Steps(ds, installmentOff)(c).Raises? <==> DividesByEmpty(c, ds)
  {
    forall c ensures Steps(ds, installmentOff)(c).Raises? <==> DividesByEmpty(c, ds) {
      RaisesOnEmptyDivisor(c, ds, installmentOff);
    }
  }

  /** None of the checks ahead of the hydration section divides. */
  lemma UndividedNeverDivides(ds: Dataset)
    ensures forall d :: d in Undivided() ==> !DividesByEmpty(d, ds)
  {
    assert Hyd008 !in Undivided() && Hyd010 !in Undivided() && Stat002 !in Undivided();
  }

  /** Where a run of `run_all`'s order stops, for steps that raise exactly on an empty divisor. */
  lemma {:induction false} RaisedAtFirstDivider(ds: Dataset, step: Check -> Step)
    requires forall c :: step(c).Raises? <==> DividesByEmpty(c, ds)
    ensures RunOf(RunOrder(), step).raisedAt ==
      if LoadedEmpty(ds.payments) then Some(Hyd008)
      else if LoadedEmpty(ds.applications) then Some(Stat002)
      else None
  {
    var u := Undivided();
    var h := Sections()[6];
    UndividedNeverDivides(ds);
    if LoadedEmpty(ds.payments) {
      assert forall d :: d in u + [Hyd001] <==> d in u || d == Hyd001;
      assert RunOrder() == (u + [Hyd001]) + [Hyd008] + ([Hyd010] + Sections()[7]);
      FirstRaiser(u + [Hyd001], Hyd008, [Hyd010] + Sections()[7], step);
    } else if LoadedEmpty(ds.applications) {
      assert forall d :: d in u + h <==> d in u || d == Hyd001 || d == Hyd008 || d == Hyd010;
      assert RunOrder() == (u + h) + [Stat002] + [Stat004];
      FirstRaiser(u + h, Stat002, [Stat004], step);
    } else {
      RaisesIffSomeCheckRaises(RunOrder(), step);
    }
  }

  /**
   * Which check raises: HYD-008 when payments was loaded with no rows (it
   * runs before HYD-010 and STAT-002), otherwise STAT-002 when applications
   * was; with neither, `run_all` returns its report.
   */
  lemma RunRaisesAt(ds: Dataset, installmentOff: LoanRow -> bool)
    ensures RunOf(RunOrder(), Steps(ds, installmentOff)).raisedAt ==
      if LoadedEmpty(ds.payments) then Some(Hyd008)
      else if LoadedEmpty(ds.applications) then Some(Stat002)
      else None
  {
    StepsRaiseOnEmptyDivisor(ds, installmentOff);
    RaisedAtFirstDivider(ds, Steps(ds, installmentOff));
  }

  // ------------------------------------------------------ what a row says

  /** FIN-006 passes exactly while fewer than 1% of the loan-tape rows have a suspicious APR spread. */
  lemma AprSpreadShare(ds: Dataset, installmentOff: LoanRow -> bool)
    requires ds.loanTape.Some?
    ensures var lt := ds.loanTape.value.rows; var s := Outcome(Fin006, ds, installmentOff);
      s.Logs? && s.verdict.violations == Count(lt, AprSpreadSuspicious)
      && (s.verdict.status == Pass <==> 100 * Count(lt, AprSpreadSuspicious) < |lt|)
  {
    assert Guard(Fin006) == {LoanTape};
    assert Guard(Fin006) <= Loaded(ds);
  }

  /** LOG-008 passes exactly while fewer than 5% of the joined report/application pairs differ by more than 20 points. */
  lemma FicoGapShare(ds: Dataset, installmentOff: LoanRow -> bool)
    requires ds.applications.Some? && ds.creditReports.Some?
    ensures var apps := ds.applications.value.rows; var reports := ds.creditReports.value.rows;
      var s := Outcome(Log008, ds, installmentOff);
      var joined := ReportAppPairs(reports, apps, (r: CreditReport, a: Application) => true);
      s.Logs? && (s.verdict.status == Pass <==> 20 * ReportAppPairs(reports, apps, FicoGap) < joined)
  {
    assert Guard(Log008) == {Applications, CreditReports};
    assert Guard(Log008) <= Loaded(ds);
  }

  /**
   * On a loaded loan tape with no rows, FIN-003 and FIN-006 log FAIL with
   * 0 violations: `0 < 0 * 0.01` is false.
   */
  lemma EmptyTapeFailsShareChecks(ds: Dataset, installmentOff: LoanRow -> bool)
    requires LoadedEmpty(ds.loanTape)
    ensures Outcome(Fin003, ds, installmentOff) == Logs(Verdict(Fail, 0, Medium))
    ensures Outcome(Fin006, ds, installmentOff) == Logs(Verdict(Fail, 0, Medium))
  {
    assert Guard(Fin003) == Guard(Fin006) == {LoanTape};
    assert Guard(Fin003) <= Loaded(ds);
  }

  /** POL-002 logs SKIP when the DTI column is absent, and otherwise counts APPROVED rows with DTI over 0.50. */
  lemma DtiCeilingVerdict(ds: Dataset, installmentOff: LoanRow -> bool)
    requires ds.applications.Some?
    ensures Outcome(Pol002, ds, installmentOff).Logs?
    ensures !DtiColumnPresent(ds) ==> Outcome(Pol002, ds, installmentOff).verdict == Skipped
    ensures DtiColumnPresent(ds) ==>
      Outcome(Pol002, ds, installmentOff).verdict == Counted(Pol002, Count(ds.applications.value.rows, DtiAboveCeiling))
  {
    assert Guard(Pol002) == {Applications};
    assert Guard(Pol002) <= Loaded(ds);
    assert Judge(Pol002, ds, installmentOff) == ZeroVerdict(Pol002, ds);
  }

  /** When every check is in `checks`, a completed run has one row per check that logs. */
  lemma CompletedRowsOfAll(checks: seq<Check>, step: Check -> Step, e: Entry)
    requires forall c :: c in checks
    requires RunOf(checks, step).raisedAt.None?
    ensures e in RunOf(checks, step).rows <==> exists c :: step(c).Logs? && e == Row(c, step(c).verdict)
  {
    CompletedRows(checks, step, e);
  }

  /**
   * On a run that does not raise, the rows are exactly one per check whose
   * guard lets it through and that logs, with that check's verdict.
   */
  lemma RunAllRows(ds: Dataset, installmentOff: LoanRow -> bool, e: Entry)
    requires !LoadedEmpty(ds.payments) && !LoadedEmpty(ds.applications)
    ensures var step := Steps(ds, installmentOff);
      e in RunOf(RunOrder(), step).rows <==> exists c :: step(c).Logs? && e == Row(c, step(c).verdict)
  {
    RunRaisesAt(ds, installmentOff);
    forall c {
      EveryCheckRuns(c);
    }
    CompletedRowsOfAll(RunOrder(), Steps(ds, installmentOff), e);
  }

  /**
   * INT-006 flags an application id exactly when it has two or more fraud
   * records: an application with none forms no group and is never counted.
   */
  lemma FraudGroupsFlagged(fraud: seq<FraudCheck>, id: string)
    ensures id in FraudCountNotOne(fraud) <==> FraudRecordsOf(fraud, id) >= 2
  {
    var matches := (f: FraudCheck) => f.applicationId == id;
    if FraudRecordsOf(fraud, id) >= 2 {
      var i :| 0 <= i < |fraud| && matches(fraud[i]);
      assert fraud[i].applicationId == id;
    }
  }

  /** DQ-011 counts every row SANITY-024 counts: a negative principal is a negative balance. */
  lemma NegativeBalanceCoversPrincipal(lt: seq<LoanRow>)
    ensures Count(lt, NegativePrincipal) <= Count(lt, NegativeBalance)
    ensures Count(lt, NegativePrincipal) > 0 ==> Count(lt, NegativeBalance) > 0
  {
    CountMonotone(lt, NegativePrincipal, NegativeBalance);
  }
}
