/*
 * The violation counts of the four validators, one definition per rule
 * concept. A rule that several validators state alike is defined once here;
 * where they differ (a longer status list, another column, another
 * aggregate) each variant has its own definition. Every count is written
 * the way the validators compute it: a filter, an inner join, an anti join,
 * `unique()` followed by a join, a group-by aggregate, or a window over the
 * previous row of the same loan. The lemmas at the end restate the
 * aggregate rules without their `min` / `max`.
 */
module Rules {
  import opened Tables
  import opened Text
  import opened Counting

  // ------------------------------------------------------------ shared

  /** `(x).abs()`. */
  function Abs(x: real): (a: real)
    ensures 0.0 <= a && (a == x || a == -x)
  {
    if x < 0.0 then -x else x
  }

  /** A comparison with a null `payment_received_date` is null, and `filter` drops the row. */
  predicate ReceivedAfter(p: Payment, d: Date) {
    p.receivedDate.Some? && Before(d, p.receivedDate.value)
  }

  predicate ReceivedBefore(p: Payment, d: Date) {
    p.receivedDate.Some? && Before(p.receivedDate.value, d)
  }

  /** The key values of a table: the right side of an anti join. */
  function KeySet<R>(rows: seq<R>, key: R -> string): set<string> {
    set i | 0 <= i < |rows| :: key(rows[i])
  }

  /** `len(left.join(right, on=key, how="anti"))`: the left rows whose key no right row has. */
  function Orphans<L, R>(left: seq<L>, right: seq<R>, kl: L -> string, kr: R -> string): (n: nat)
    ensures n <= |left|
    ensures n == 0 <==>
      forall i :: 0 <= i < |left| ==> exists j :: 0 <= j < |right| && kr(right[j]) == kl(left[i])
  {
    var keys := KeySet(right, kr);
    var n := Count(left, l => kl(l) !in keys);
    assert n == 0 ==> forall i :: 0 <= i < |left| ==> exists j :: 0 <= j < |right| && kr(right[j]) == kl(left[i]) by {
      if n == 0 {
        forall i | 0 <= i < |left|
          ensures exists j :: 0 <= j < |right| && kr(right[j]) == kl(left[i])
        {
          assert kl(left[i]) in keys;
        }
      }
    }
    n
  }

  /**
   * The non-null values of a date column over the rows `col` keeps (it
   * answers `None` for a row that is filtered out or whose cell is null):
   * what a `min` / `max` aggregate reads.
   */
  function DatesWhere<T>(s: seq<T>, col: T -> Option<Date>): (ds: seq<Date>)
    ensures forall d :: d in ds <==> exists i :: 0 <= i < |s| && col(s[i]) == Some(d)
  {
    if s == [] then []
    else
      var rest := DatesWhere(s[1..], col);
      assert forall i :: 1 <= i < |s| ==> s[1..][i - 1] == s[i];
      (if col(s[0]).Some? then [col(s[0]).value] else []) + rest
  }

  /** `max()` of a date column; `None` (null) when it has no value. */
  function Latest(ds: seq<Date>): (d: Option<Date>)
    ensures d.None? <==> ds == []
    ensures d.Some? ==> d.value in ds && forall x :: x in ds ==> !Before(d.value, x)
  {
    if ds == [] then None
    else
      var rest := Latest(ds[1..]);
      assert forall x :: x in ds ==> x == ds[0] || x in ds[1..];
      if rest.None? || Before(rest.value, ds[0]) then Some(ds[0]) else rest
  }

  /** `min()` of a date column; `None` (null) when it has no value. */
  function Earliest(ds: seq<Date>): (d: Option<Date>)
    ensures d.None? <==> ds == []
    ensures d.Some? ==> d.value in ds && forall x :: x in ds ==> !Before(x, d.value)
  {
    if ds == [] then None
    else
      var rest := Earliest(ds[1..]);
      assert forall x :: x in ds ==> x == ds[0] || x in ds[1..];
      if rest.None? || Before(ds[0], rest.value) then Some(ds[0]) else rest
  }

  /** The snapshot dates of one loan's rows with one status: one group of `filter(status).group_by("loan_id")`. */
  function StatusDates(lt: seq<LoanRow>, id: string, status: string): seq<Date> {
    DatesWhere(lt, (r: LoanRow) => if r.loanId == id && r.loanStatus == status then Some(r.snapshotDate) else None)
  }

  /** The rows of the latest snapshot: `filter(snapshot_date == snapshot_date.max())`. */
  function LatestRows(lt: seq<LoanRow>): seq<LoanRow> {
    var d := Latest(DatesWhere(lt, (r: LoanRow) => Some(r.snapshotDate)));
    Filter(lt, (r: LoanRow) => d.Some? && r.snapshotDate == d.value)
  }

  function LoanIdsOf(lt: seq<LoanRow>): set<string> {
    set i | 0 <= i < |lt| :: lt[i].loanId
  }

  function PaymentLoanIdsOf(ps: seq<Payment>): set<string> {
    set i | 0 <= i < |ps| :: ps[i].loanId
  }

  function ApplicationIdsOf(apps: seq<Application>): (ids: seq<string>)
    ensures |ids| == |apps|
  {
    seq(|apps|, i requires 0 <= i < |apps| => apps[i].applicationId)
  }

  /** `abs(len(a) - len(b))`. */
  function SizeGap(a: nat, b: nat): (n: nat)
    ensures n == 0 <==> a == b
  {
    if a < b then b - a else a - b
  }

  // ---------------------------------------------------- loan tape, one row

  predicate CurrentWithDpd(r: LoanRow) {
    r.loanStatus == "CURRENT" && r.daysPastDue > 0
  }

  predicate PaidOffWithBalance(r: LoanRow) {
    r.loanStatus == "PAID_OFF" && r.principalBalance > 0.01
  }

  /** SANITY-014 of the 1M validator and POL-010: a charge-off under 120 DPD. */
  predicate EarlyChargeoff(r: LoanRow) {
    r.loanStatus == "CHARGED_OFF" && r.daysPastDue < 120
  }

  /** SANITY-014 of the complete validator: a charge-off past month 4 that keeps a balance. */
  predicate ChargedOffWithBalance(r: LoanRow) {
    r.loanStatus == "CHARGED_OFF" && r.principalBalance > 0.01 && r.monthsOnBook > 4
  }

  /** SANITY-015 of the 1M validator: the DPD lies outside the bucket its status names (`is_between` is inclusive). */
  predicate OutsideDpdBucket(r: LoanRow) {
    (r.loanStatus == "DELINQUENT_30" && !(30 <= r.daysPastDue <= 59))
    || (r.loanStatus == "DELINQUENT_60" && !(60 <= r.daysPastDue <= 89))
    || (r.loanStatus == "DELINQUENT_90" && !(90 <= r.daysPastDue <= 119))
    || (r.loanStatus == "DELINQUENT_120" && r.daysPastDue < 120)
  }

  const LoanStatuses1M: set<string> :=
    {"CURRENT", "DELINQUENT_30", "DELINQUENT_60", "DELINQUENT_90",
     "DELINQUENT_120", "CHARGED_OFF", "PAID_OFF", "PREPAID"}

  const LoanStatusesQa: set<string> := LoanStatuses1M + {"CANCELLED", "IN_FORBEARANCE"}

  const ActiveStatuses1M: set<string> :=
    {"CURRENT", "DELINQUENT_30", "DELINQUENT_60", "DELINQUENT_90", "DELINQUENT_120"}

  const PaymentStatuses1M: set<string> := {"PAID", "PARTIAL", "MISSED", "PENDING"}

  /** The literal "2026-01-09" of SANITY-018/019 of the 1M validator, read as a date. */
  const AsOf1M: Date := Date(2026, 1, 9)

  /** `datetime(2023, 12, 31)` of SANITY-021 of the complete validator. */
  const SimulationEnd: Date := Date(2023, 12, 31)

  predicate NegativePrincipal(r: LoanRow) {
    r.principalBalance < 0.0
  }

  predicate AboveOriginal(r: LoanRow) {
    r.principalBalance > r.originalAmount * 1.01
  }

  predicate NegativeBalance(r: LoanRow) {
    r.principalBalance < 0.0 || r.interestBalance < 0.0 || r.feesBalance < 0.0
  }

  predicate RateOutside1M(r: LoanRow) {
    !(0.01 <= r.interestRate <= 0.40)
  }

  predicate TermOutside1M(r: LoanRow) {
    !(6 <= r.originalTerm <= 360)
  }

  predicate ActiveWithoutSchedule(r: LoanRow) {
    r.loanStatus in ActiveStatuses1M && r.scheduledPayment <= 0.0
  }

  predicate InterestOnlyZeroRate(r: LoanRow) {
    r.interestOnly && r.originalInterestRate == 0.0
  }

  predicate FeeAtLeastAmount(r: LoanRow) {
    r.originationFee >= r.originalAmount
  }

  predicate AprOutsidePolicy(r: LoanRow) {
    r.originalApr < 0.05 || r.originalApr > 0.36
  }

  predicate SignedAfterOrigination(r: LoanRow) {
    Before(r.originationDate, r.noteSignatureDate)
  }

  predicate FirstDueNotAfterOrigination(r: LoanRow) {
    !Before(r.originationDate, r.firstPaymentDueDate)
  }

  /** `origination_date.dt.strftime("%Y-%m")`: the year zero-padded to four digits, the month to two. */
  function YearMonthText(d: Date): string {
    Pad4(d.year) + "-" + Pad2(d.month)
  }

  predicate VintageMismatch(r: LoanRow) {
    r.vintageMonth != YearMonthText(r.originationDate)
  }

  predicate AprSpreadSuspicious(r: LoanRow) {
    r.originalApr < r.originalInterestRate || r.originalApr - r.originalInterestRate > 0.05
  }

  predicate FeeAboveSixPercent(r: LoanRow) {
    r.originationFee > r.originalAmount * 0.06
  }

  /** LOG-002: `delinquent_flag` disagrees with `days_past_due > 0`. */
  predicate DelinquentFlagMismatch(r: LoanRow) {
    (r.delinquentFlag && r.daysPastDue == 0) || (!r.delinquentFlag && r.daysPastDue > 0)
  }

  predicate WorstBelowCurrent(r: LoanRow) {
    r.worstDaysPastDue < r.daysPastDue
  }

  predicate TimesDpdOutOfOrder(r: LoanRow) {
    r.times60Dpd > r.times30Dpd || r.times90Dpd > r.times60Dpd
  }

  predicate NonTerminalText(r: LoanRow) {
    r.loanStatus != "CHARGED_OFF" && r.loanStatus != "PAID_OFF"
  }

  // ------------------------------------------------------ payments, one row

  predicate NegativePayment(p: Payment) {
    p.actualAmount < 0.0 || p.principalPaid < 0.0 || p.interestPaid < 0.0
  }

  predicate ComponentsUnbalanced(p: Payment) {
    Abs(p.principalPaid + p.interestPaid - p.actualAmount) > 0.02
  }

  predicate MissedWithAmount(p: Payment) {
    p.status == "MISSED" && p.actualAmount > 0.0
  }

  predicate PartialOutOfRange(p: Payment) {
    p.status == "PARTIAL" && !(p.actualAmount > 0.0 && p.actualAmount < p.scheduledAmount)
  }

  predicate PaidNotFull(p: Payment) {
    p.status == "PAID" && Abs(p.actualAmount - p.scheduledAmount) > 0.02
  }

  predicate InterestAboveAccrued(p: Payment) {
    p.interestPaid > p.interestAccrued + 0.01
  }

  predicate PrincipalBeforeInterest(p: Payment) {
    p.principalPaid > 0.0 && p.interestPaid < p.interestAccrued - 0.01
  }

  predicate PostedWithoutDate(p: Payment) {
    p.status == "POSTED" && p.receivedDate.None?
  }

  predicate UnflaggedOverpayment(p: Payment) {
    p.actualAmount > p.scheduledAmount * 1.05
    && p.paymentType != "PREPAYMENT" && p.paymentType != "PAYOFF"
    && !p.isExtraPayment
  }

  /** SANITY-035 of the complete validator: a null grace period counts as 15 days. */
  predicate LateWithoutFee(p: Payment) {
    var grace := if p.gracePeriodDays.Some? then p.gracePeriodDays.value else 15;
    p.daysLate > grace && p.status == "POSTED" && p.lateFeeAssessed == 0.0 && !p.lateFeeWaived
  }

  predicate NsfNotReturned(p: Payment) {
    p.nsf && !p.returned
  }

  predicate ReturnedWithoutDate(p: Payment) {
    p.returned && p.returnDate.None?
  }

  predicate AutopayFailure(p: Payment) {
    p.autopay && (p.status == "RETURNED" || p.status == "REVERSED")
  }

  predicate PaydownMismatch(p: Payment) {
    Abs(p.endingBalance - (p.beginningBalance - p.principalPaid)) > 0.10
  }

  // ------------------------------------- credit, tradelines, fraud, one row

  predicate FicoOutside(c: CreditReport) {
    !(300 <= c.fico8 <= 850)
  }

  predicate UtilizationOutside1M(c: CreditReport) {
    !(0.0 <= c.utilization <= 2.0)
  }

  predicate BankruptcyNotInPublicRecords(c: CreditReport) {
    c.bankruptcies > 0 && c.publicRecords == 0
  }

  predicate TradelineOverLimit(t: Tradeline) {
    t.currentBalance > t.creditLimit * 1.10 && t.accountStatus == "OPEN"
  }

  predicate ClosedWithPayment(t: Tradeline) {
    t.accountStatus == "CLOSED" && t.monthlyPayment > 0.0
  }

  /** SANITY-040 of the 1M validator: a negative `open_trades_count`. */
  predicate OpenTradesNegative(c: CreditReport) {
    c.openTrades < 0
  }

  /** SANITY-043 of the 1M validator: more open trades than trades. */
  predicate OpenTradesAboveAll(c: CreditReport) {
    c.openTrades > c.allTrades
  }

  /** SANITY-043 of the QA validator: `all_trades_open_count` above `all_trades_count`. */
  predicate OpenCountAboveAll(c: CreditReport) {
    c.allTradesOpen > c.allTrades
  }

  predicate IdentityScoreOutside(f: FraudCheck) {
    !(0 <= f.identityScore <= 100)
  }

  predicate FraudRiskScoreOutside(f: FraudCheck) {
    !(0 <= f.fraudRiskScore <= 999)
  }

  // ------------------------------------------------- applications, one row

  predicate Approved(a: Application) {
    a.decisionStatus == "APPROVED"
  }

  /** `(application_date - date_of_birth).dt.days() / 365.25`: the age in years, in exact arithmetic. */
  function AgeYears(a: Application): real {
    DaysBetween(a.dateOfBirth, a.applicationDate) as real / 365.25
  }

  predicate AgeOutside(a: Application) {
    AgeYears(a) < 18.0 || AgeYears(a) > 100.0
  }

  predicate Underage(a: Application) {
    AgeYears(a) < 18.0
  }

  predicate BornOnOrAfterApplication(a: Application) {
    !Before(a.dateOfBirth, a.applicationDate)
  }

  /** The regular expression `@.*\.`: an '@', later a '.', and no line break between them. */
  predicate EmailShaped(e: string) {
    exists i, j :: 0 <= i < j < |e| && e[i] == '@' && e[j] == '.'
      && forall k :: i < k < j ==> e[k] != '\n'
  }

  predicate MalformedEmail(a: Application) {
    a.email.Some? && !EmailShaped(a.email.value)
  }

  /** DQ-005: `str.len_bytes() != 4` or the text "0000". */
  predicate SsnLast4Invalid(a: Application) {
    Utf8Length(a.ssnLast4) != 4 || a.ssnLast4 == "0000"
  }

  predicate ZipInvalid(a: Application) {
    Utf8Length(a.addressZip) != 5 || a.addressZip == "00000"
  }

  predicate DtiAboveCeiling(a: Application) {
    Approved(a) && a.debtToIncome > 0.50
  }

  /** The FICO floor of `validate_dataset`: an APPROVED application under 640. */
  predicate ApprovedBelowFicoFloor(a: Application) {
    Approved(a) && a.ficoAtApplication < 640
  }

  // ------------------------------------------------------------ inner joins

  /** `len(loan_tape.join(applications, on="application_id", how="inner").filter(p))`. */
  function LoanAppPairs(lt: seq<LoanRow>, apps: seq<Application>, p: (LoanRow, Application) -> bool): nat {
    PairCount(lt, apps, (r: LoanRow, a: Application) => r.applicationId == a.applicationId && p(r, a))
  }

  /** `applications.join(fraud_verification, on="application_id", how="inner").filter(p)`. */
  function AppFraudPairs(apps: seq<Application>, fraud: seq<FraudCheck>, p: (Application, FraudCheck) -> bool): nat {
    PairCount(apps, fraud, (a: Application, f: FraudCheck) => a.applicationId == f.applicationId && p(a, f))
  }

  /** `credit_reports.join(applications, on="application_id", how="inner").filter(p)`. */
  function ReportAppPairs(reports: seq<CreditReport>, apps: seq<Application>, p: (CreditReport, Application) -> bool): nat {
    PairCount(reports, apps, (c: CreditReport, a: Application) => c.applicationId == a.applicationId && p(c, a))
  }

  /**
   * SANITY-001: loans whose application is not APPROVED. The join is
   * inner, so a loan with no application is not counted here (SANITY-005
   * counts those).
   */
  function FundedNotApproved(lt: seq<LoanRow>, apps: seq<Application>): (n: nat)
    ensures n == 0 <==> forall i, j :: 0 <= i < |lt| && 0 <= j < |apps| && lt[i].applicationId == apps[j].applicationId ==>
      Approved(apps[j])
  {
    LoanAppPairs(lt, apps, (r: LoanRow, a: Application) => a.decisionStatus != "APPROVED")
  }

  // --------------------------------------------- group-by and unique joins

  /** SANITY-009: received after the latest PAID_OFF snapshot of its loan. */
  predicate ReceivedAfterPayoff(p: Payment, lt: seq<LoanRow>) {
    var payoff := Latest(StatusDates(lt, p.loanId, "PAID_OFF"));
    payoff.Some? && ReceivedAfter(p, payoff.value)
  }

  /** SANITY-010: an amount received after the earliest CHARGED_OFF snapshot of its loan. */
  predicate ReceivedAfterChargeoff(p: Payment, lt: seq<LoanRow>) {
    var co := Earliest(StatusDates(lt, p.loanId, "CHARGED_OFF"));
    co.Some? && ReceivedAfter(p, co.value) && p.actualAmount > 0.0
  }

  /** SANITY-011 of the 1M validator: DELINQUENT rows whose loan has no MISSED payment anywhere. */
  function DelinquentWithoutMissed(lt: seq<LoanRow>, ps: seq<Payment>): nat {
    Orphans(Filter(lt, (r: LoanRow) => Contains(r.loanStatus, "DELINQUENT")),
      Filter(ps, (p: Payment) => p.status == "MISSED"),
      (r: LoanRow) => r.loanId, (p: Payment) => p.loanId)
  }

  /** The POSTED payments with an amount of one loan: `paid_count` of SANITY-011 of the complete validator. */
  function PostedPaidCount(ps: seq<Payment>, id: string): nat {
    Count(ps, (p: Payment) => p.loanId == id && p.status == "POSTED" && p.actualAmount > 0.0)
  }

  /**
   * SANITY-011 of the complete validator: DELINQUENT rows of the latest
   * snapshot, left-joined to their loan's POSTED payment count and kept when
   * it reaches months on book. A loan with no such payment has a null count,
   * which the filter drops.
   */
  function DelinquentFullyPaid(lt: seq<LoanRow>, ps: seq<Payment>): nat {
    Count(LatestRows(lt), (r: LoanRow) =>
      Contains(r.loanStatus, "DELINQUENT")
      && PostedPaidCount(ps, r.loanId) > 0 && PostedPaidCount(ps, r.loanId) >= r.monthsOnBook)
  }

  /** SANITY-059: latest rows joined to their loan's payment count, kept when it exceeds months on book + 2. */
  function PaymentsBeyondMob(lt: seq<LoanRow>, ps: seq<Payment>): nat {
    Count(LatestRows(lt), (r: LoanRow) =>
      var c := Count(ps, (p: Payment) => p.loanId == r.loanId);
      c > 0 && c > r.monthsOnBook + 2)
  }

  /** `loan_tape.select(["loan_id", <date column>]).unique()`. */
  function LoanDatePairs(lt: seq<LoanRow>, col: LoanRow -> Date): seq<(string, Date)> {
    Unique(seq(|lt|, i requires 0 <= i < |lt| => (lt[i].loanId, col(lt[i]))))
  }

  /** Payments joined on loan_id to a unique (loan_id, date) table and kept by `p`. */
  function PaymentDatePairs(ps: seq<Payment>, pairs: seq<(string, Date)>, p: (Payment, Date) -> bool): nat {
    PairCount(ps, pairs, (q: Payment, u: (string, Date)) => q.loanId == u.0 && p(q, u.1))
  }

  /** The due dates of one loan's payments. */
  function DueDates(ps: seq<Payment>, id: string): seq<Date> {
    DatesWhere(ps, (p: Payment) => if p.loanId == id then Some(p.dueDate) else None)
  }

  /** The non-null received dates of one loan's payments. */
  function ReceivedDates(ps: seq<Payment>, id: string): seq<Date> {
    DatesWhere(ps, (p: Payment) => if p.loanId == id then p.receivedDate else None)
  }

  /** SANITY-020 of the 1M validator: unique non-charged-off (loan, funding date) pairs funded after the loan's first due date. */
  function FundedAfterFirstDue(lt: seq<LoanRow>, ps: seq<Payment>): nat {
    var pairs := LoanDatePairs(Filter(lt, (r: LoanRow) => r.loanStatus != "CHARGED_OFF"), (r: LoanRow) => r.fundingDate);
    Count(pairs, (u: (string, Date)) =>
      var first := Earliest(DueDates(ps, u.0));
      first.Some? && Before(first.value, u.1))
  }

  /**
   * SANITY-020 of the complete validator: unique (loan, origination date)
   * pairs whose loan's earliest received payment predates origination. A
   * loan whose payments all lack a received date has a null minimum, which
   * the filter drops.
   */
  function PaidBeforeOrigination(lt: seq<LoanRow>, ps: seq<Payment>): nat {
    var pairs := LoanDatePairs(lt, (r: LoanRow) => r.originationDate);
    Count(pairs, (u: (string, Date)) =>
      var first := Earliest(ReceivedDates(ps, u.0));
      first.Some? && Before(first.value, u.1))
  }

  /** SANITY-022 of the 1M validator: unique (application, loan, funding date) rows decided after funding. */
  function DecidedAfterFunding(lt: seq<LoanRow>, apps: seq<Application>): nat {
    var rows := Unique(seq(|lt|, i requires 0 <= i < |lt| => (lt[i].applicationId, lt[i].loanId, lt[i].fundingDate)));
    PairCount(rows, apps, (u: (string, string, Date), a: Application) =>
      u.0 == a.applicationId && Before(u.2, a.decisionDate))
  }

  /** The total `actual_payment_amount` of one loan's payments. */
  function PaidTotal(ps: seq<Payment>, id: string): real {
    if ps == [] then 0.0
    else (if ps[0].loanId == id then ps[0].actualAmount else 0.0) + PaidTotal(ps[1..], id)
  }

  /** SANITY-027: (loan, original amount) pairs whose loan's payments total more than three times the amount. */
  function PaidOverThreeTimes(lt: seq<LoanRow>, ps: seq<Payment>): nat {
    var pairs := Unique(seq(|lt|, i requires 0 <= i < |lt| => (lt[i].loanId, lt[i].originalAmount)));
    Count(pairs, (u: (string, real)) =>
      u.0 in PaymentLoanIdsOf(ps) && PaidTotal(ps, u.0) > u.1 * 3.0)
  }

  /** SANITY-032 of the complete validator: a non-positive scheduled amount while the loan has a non-terminal status row. */
  function ZeroScheduleActive(ps: seq<Payment>, lt: seq<LoanRow>): nat {
    var pairs := Unique(seq(|lt|, i requires 0 <= i < |lt| => (lt[i].loanId, lt[i].loanStatus)));
    PairCount(ps, pairs, (p: Payment, u: (string, string)) =>
      p.loanId == u.0 && p.scheduledAmount <= 0.0 && u.1 != "PAID_OFF" && u.1 != "CHARGED_OFF")
  }

  /** SANITY-030 of the 1M validator: the join on (loan_id, snapshot_date); a null payment snapshot date matches nothing. */
  function PrincipalAboveBalance(ps: seq<Payment>, lt: seq<LoanRow>): nat {
    PairCount(ps, lt, (p: Payment, r: LoanRow) =>
      p.loanId == r.loanId && p.snapshotDate == Some(r.snapshotDate)
      && p.principalPaid > r.principalBalance + 0.01)
  }

  /** SANITY-057 of the 1M validator: the gap between the loans on the tape and the loans with payments, reported only above 1000. */
  function LoanCountGap(lt: seq<LoanRow>, ps: seq<Payment>): (n: nat)
    ensures n == 0 <==> SizeGap(|LoanIdsOf(lt)|, |PaymentLoanIdsOf(ps)|) <= 1000
    ensures n != 0 ==> n == SizeGap(|LoanIdsOf(lt)|, |PaymentLoanIdsOf(ps)|) && n > 1000
  {
    var gap := SizeGap(|LoanIdsOf(lt)|, |PaymentLoanIdsOf(ps)|);
    if gap > 1000 then gap else 0
  }

  /** SANITY-060: `len(applications) - n_unique(application_id)`. */
  function DuplicateApplicationIds(apps: seq<Application>): (n: nat)
    ensures n == 0 <==> NoDuplicates(ApplicationIdsOf(apps))
  {
    var ids := ApplicationIdsOf(apps);
    DistinctSize(ids);
    |ids| - |Distinct(ids)|
  }

  /** The fraud records of one application. */
  function FraudRecordsOf(fraud: seq<FraudCheck>, id: string): nat {
    Count(fraud, (f: FraudCheck) => f.applicationId == id)
  }

  /** INT-006: the groups of `group_by("application_id").agg(count)` whose count is not 1. */
  function FraudCountNotOne(fraud: seq<FraudCheck>): set<string> {
    set i | 0 <= i < |fraud| && FraudRecordsOf(fraud, fraud[i].applicationId) != 1 :: fraud[i].applicationId
  }

  // ------------------------------------------------------------ windows

  predicate LeftPaidOff(prev: LoanRow, r: LoanRow) {
    prev.loanStatus == "PAID_OFF" && r.loanStatus != "PAID_OFF"
  }

  predicate LeftChargedOff(prev: LoanRow, r: LoanRow) {
    prev.loanStatus == "CHARGED_OFF" && r.loanStatus != "CHARGED_OFF"
  }

  /** SANITY-023 of the 1M validator: a snapshot not strictly after the previous one of its loan. */
  predicate SnapshotNotAfter(prev: LoanRow, r: LoanRow) {
    !Before(prev.snapshotDate, r.snapshotDate)
  }

  predicate BalanceRose(prev: LoanRow, r: LoanRow) {
    r.principalBalance > prev.principalBalance + 1.0
  }

  /** SANITY-057 of the complete validator: the DPD fell, but not to 0. */
  predicate DpdFellWithoutCure(prev: LoanRow, r: LoanRow) {
    r.daysPastDue < prev.daysPastDue && r.daysPastDue > 0
  }

  /** SANITY-058 of the complete validator: snapshots 28 to 35 days apart whose months on book did not step by one. */
  predicate MobSkipped(prev: LoanRow, r: LoanRow) {
    r.monthsOnBook != prev.monthsOnBook + 1 && 28 <= DaysBetween(prev.snapshotDate, r.snapshotDate) <= 35
  }

  /** SANITY-056: only non-terminal rows take part, then the window over them. */
  function BalanceIncreases(lt: seq<LoanRow>): nat {
    WindowCount(Filter(lt, NonTerminalText), BalanceRose)
  }

  // ------------------------------------------------- lemmas about the rules

  /** Dates are totally ordered by `Before`. */
  lemma DateTotal(a: Date, b: Date)
    ensures Before(a, b) || a == b || Before(b, a)
  {
  }

  /** `max(ds) < x` holds exactly when there is a value and every value is before `x`. */
  lemma LatestBefore(ds: seq<Date>, x: Date)
    ensures (Latest(ds).Some? && Before(Latest(ds).value, x)) <==> ds != [] && forall d :: d in ds ==> Before(d, x)
  {
    if Latest(ds).Some? && Before(Latest(ds).value, x) {
      forall d | d in ds ensures Before(d, x) {
        DateTotal(d, Latest(ds).value);
      }
    }
  }

  /** `min(ds) < x` holds exactly when some value is before `x`. */
  lemma EarliestBefore(ds: seq<Date>, x: Date)
    ensures (Earliest(ds).Some? && Before(Earliest(ds).value, x)) <==> exists d :: d in ds && Before(d, x)
  {
    if d :| d in ds && Before(d, x) {
      DateTotal(d, Earliest(ds).value);
    }
  }

  /**
   * SANITY-009 without the aggregate: a payment is counted exactly when it
   * has a received date, its loan has a PAID_OFF snapshot, and it was
   * received after every one of them.
   */
  lemma ReceivedAfterPayoffMeans(p: Payment, lt: seq<LoanRow>)
    ensures ReceivedAfterPayoff(p, lt) <==>
      p.receivedDate.Some?
      && (exists i :: 0 <= i < |lt| && lt[i].loanId == p.loanId && lt[i].loanStatus == "PAID_OFF")
      && forall i :: 0 <= i < |lt| && lt[i].loanId == p.loanId && lt[i].loanStatus == "PAID_OFF" ==>
           Before(lt[i].snapshotDate, p.receivedDate.value)
  {
    var ds := StatusDates(lt, p.loanId, "PAID_OFF");
    if p.receivedDate.Some? {
      LatestBefore(ds, p.receivedDate.value);
      if ds != [] {
        assert ds[0] in ds;
      }
      if i :| 0 <= i < |lt| && lt[i].loanId == p.loanId && lt[i].loanStatus == "PAID_OFF" {
        assert lt[i].snapshotDate in ds;
      }
    }
  }

  /**
   * SANITY-010 without the aggregate: a payment with an amount is counted
   * exactly when some CHARGED_OFF snapshot of its loan predates its receipt.
   */
  lemma ReceivedAfterChargeoffMeans(p: Payment, lt: seq<LoanRow>)
    ensures ReceivedAfterChargeoff(p, lt) <==>
      p.receivedDate.Some? && p.actualAmount > 0.0
      && exists i :: 0 <= i < |lt| && lt[i].loanId == p.loanId && lt[i].loanStatus == "CHARGED_OFF"
           && Before(lt[i].snapshotDate, p.receivedDate.value)
  {
    var ds := StatusDates(lt, p.loanId, "CHARGED_OFF");
    if p.receivedDate.Some? {
      EarliestBefore(ds, p.receivedDate.value);
      var rcv := p.receivedDate.value;
      if i :| 0 <= i < |lt| && lt[i].loanId == p.loanId && lt[i].loanStatus == "CHARGED_OFF" && Before(lt[i].snapshotDate, rcv) {
        assert lt[i].snapshotDate in ds;
      }
    }
  }

  /** SANITY-020 of the complete validator without the aggregate: some payment of the loan was received before the date. */
  lemma FirstReceiptBeforeMeans(ps: seq<Payment>, id: string, d: Date)
    ensures (Earliest(ReceivedDates(ps, id)).Some? && Before(Earliest(ReceivedDates(ps, id)).value, d)) <==>
      exists k :: 0 <= k < |ps| && ps[k].loanId == id && ReceivedBefore(ps[k], d)
  {
    var ds := ReceivedDates(ps, id);
    EarliestBefore(ds, d);
    if k :| 0 <= k < |ps| && ps[k].loanId == id && ReceivedBefore(ps[k], d) {
      assert ps[k].receivedDate.value in ds;
    }
  }

  /** SANITY-020 of the 1M validator without the aggregate: some payment of the loan falls due before the date. */
  lemma FirstDueBeforeMeans(ps: seq<Payment>, id: string, d: Date)
    ensures (Earliest(DueDates(ps, id)).Some? && Before(Earliest(DueDates(ps, id)).value, d)) <==>
      exists k :: 0 <= k < |ps| && ps[k].loanId == id && Before(ps[k].dueDate, d)
  {
    var ds := DueDates(ps, id);
    EarliestBefore(ds, d);
    if k :| 0 <= k < |ps| && ps[k].loanId == id && Before(ps[k].dueDate, d) {
      assert ps[k].dueDate in ds;
    }
  }
}
