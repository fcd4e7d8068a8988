/*
 * One calendar month of `generate_loan_tape` as a function of the opening
 * book (per-loan states, DPDs and balances plus the payment and snapshot
 * rows written so far), the month, and that month's draws and blended
 * probabilities; and the whole simulation as the fold of that function over
 * the months from January 2022 to the snapshot month.
 */
module LoanTape {
  import opened Tables
  import opened Text
  import opened LoanStates

  /** The fixed terms of one funded loan: the generator's per-loan vectors. */
  datatype Loan = Loan(
    applicationId: string,
    amount: real,
    rate: real,
    scheduledPayment: real,
    payoffMonth: int,
    originYear: int,
    originMonth: int)

  function LoanId(l: Loan): string {
    "LN-" + l.applicationId
  }

  function CustomerId(l: Loan): string {
    "CUST-" + l.applicationId
  }

  /** The loan amount: 15% of annual income, clipped to [1000, 50000]. */
  function LoanAmount(income: real): (a: real)
    ensures 1000.0 <= a <= 50000.0
    ensures 1000.0 <= income * 0.15 <= 50000.0 ==> a == income * 0.15
  {
    var v := income * 0.15;
    if v < 1000.0 then 1000.0 else if v > 50000.0 then 50000.0 else v
  }

  /** A higher income never gets a smaller loan. */
  lemma LoanAmountMonotone(lo: real, hi: real)
    requires lo <= hi
    ensures LoanAmount(lo) <= LoanAmount(hi)
  {
  }

  /**
   * The pricing curve: 15% base, plus 0.01% per FICO point under 750, plus
   * 10% of the DTI, clipped to [6%, 25%].
   */
  function PricedRate(fico: int, dti: real): (r: real)
    ensures 0.06 <= r <= 0.25
    ensures 0.06 <= 0.15 + (750 - fico) as real * 0.0001 + dti * 0.10 <= 0.25 ==>
      r == 0.15 + (750 - fico) as real * 0.0001 + dti * 0.10
  {
    var v := 0.15 + (750 - fico) as real * 0.0001 + dti * 0.10;
    if v < 0.06 then 0.06 else if v > 0.25 then 0.25 else v
  }

  /** A better score or a lower DTI never prices a loan higher. */
  lemma PricedRateMonotone(fico1: int, dti1: real, fico2: int, dti2: real)
    requires fico1 <= fico2 && dti2 <= dti1
    ensures PricedRate(fico2, dti2) <= PricedRate(fico1, dti1)
  {
  }

  /** What the clips guarantee of every funded loan and the model relies on. */
  predicate LoanTermsOk(l: Loan) {
    1000.0 <= l.amount && 0.0 <= l.rate && 1 <= l.originMonth <= 12
  }

  /** Calendar months counted from year 0; the order of first-of-month dates. */
  function MonthIndex(y: int, m: int): int {
    y * 12 + (m - 1)
  }

  /** The month after (y, m): `(curr_date + 32 days).replace(day=1)`. */
  function NextMonth(y: int, m: int): (r: (int, int))
    requires 1 <= m <= 12
    ensures 1 <= r.1 <= 12
    ensures MonthIndex(r.0, r.1) == MonthIndex(y, m) + 1
  {
    if m == 12 then (y + 1, 1) else (y, m + 1)
  }

  /** The last day of the month: `month_end`, the date of every row the month writes. */
  function MonthEnd(y: int, m: int): (d: Date)
    requires 1 <= m <= 12
    ensures d.year == y && d.month == m && 28 <= d.day <= 31
    ensures Before(Date(y, m, 1), d)
  {
    Date(y, m, DaysInMonth(y, m))
  }

  /** A month's end comes before the first day of every later month. */
  lemma MonthEndBeforeLater(y: int, m: int, y2: int, m2: int)
    requires 1 <= m <= 12 && 1 <= m2 <= 12 && MonthIndex(y, m) < MonthIndex(y2, m2)
    ensures Before(MonthEnd(y, m), Date(y2, m2, 1))
  {
  }

  /** `orig_dates <= curr_date` on first-of-month dates. */
  predicate Originated(l: Loan, y: int, m: int) {
    MonthIndex(l.originYear, l.originMonth) <= MonthIndex(y, m)
  }

  /** `is_active`: originated and not yet CHARGED_OFF or PAID_OFF. */
  predicate Active(l: Loan, s: LoanState, y: int, m: int) {
    Originated(l, y, m) && !IsTerminal(s)
  }

  /** `all_mobs`: whole months since origination, clipped to [1, 60]. */
  function MonthsOnBook(l: Loan, y: int, m: int): (mob: int)
    ensures 1 <= mob <= 60
    ensures 1 <= MonthIndex(y, m) - MonthIndex(l.originYear, l.originMonth) <= 60 ==>
      mob == MonthIndex(y, m) - MonthIndex(l.originYear, l.originMonth)
  {
    var raw := (y - l.originYear) * 12 + (m - l.originMonth);
    if raw < 1 then 1 else if raw > 60 then 60 else raw
  }

  /**
   * The clip gives months-on-book 1 both in the origination month and in
   * the month after it, so a loan's first two snapshots carry the same value.
   */
  lemma MonthsOnBookRepeatsAtStart(l: Loan)
    requires 1 <= l.originMonth <= 12
    ensures MonthsOnBook(l, l.originYear, l.originMonth) == 1
    ensures MonthsOnBook(l, NextMonth(l.originYear, l.originMonth).0, NextMonth(l.originYear, l.originMonth).1) == 1
  {
  }

  /** A month may move a loan one step of the state machine, or pay it off. */
  predicate MonthMove(s: LoanState, t: LoanState) {
    OneStep(s, t) || (!IsTerminal(s) && t == PaidOff)
  }

  /**
   * `next_states` / `next_dpds` / zeroed `balances` of one loan: an inactive
   * loan is untouched; an active one moves as its draw says, unless its
   * months-on-book equals its payoff month, which forces PAID_OFF with DPD
   * and balance 0.
   */
  function Drawn(l: Loan, pos: Position, u: real, p: Params, y: int, m: int): Position
  {
    if !Active(l, pos.state, y, m) then pos
    else
      var mob := MonthsOnBook(l, y, m);
      if mob == l.payoffMonth then Position(PaidOff, 0, 0.0)
      else Draw(pos, u, Seasoned(p, mob))
  }

  /**
   * The draw and the override make one allowed move, keep the DPD in step
   * with the state, leave an inactive loan alone, force the payoff in the
   * payoff month, zero the balance of a payoff or charge-off and keep it
   * otherwise.
   */
  lemma DrawnMoves(l: Loan, pos: Position, u: real, p: Params, y: int, m: int)
    ensures MonthMove(pos.state, Drawn(l, pos, u, p, y, m).state)
    ensures pos.dpd == DpdOf(pos.state) ==> Drawn(l, pos, u, p, y, m).dpd == DpdOf(Drawn(l, pos, u, p, y, m).state)
    ensures !Active(l, pos.state, y, m) ==> Drawn(l, pos, u, p, y, m) == pos
    ensures Active(l, pos.state, y, m) && MonthsOnBook(l, y, m) == l.payoffMonth ==>
      Drawn(l, pos, u, p, y, m).state == PaidOff
    ensures Drawn(l, pos, u, p, y, m).state != pos.state && IsTerminal(Drawn(l, pos, u, p, y, m).state) ==>
      Drawn(l, pos, u, p, y, m).balance == 0.0
    ensures !IsTerminal(Drawn(l, pos, u, p, y, m).state) ==> Drawn(l, pos, u, p, y, m).balance == pos.balance
  {
  }

  /**
   * The committed position at the end of the month: `Drawn`, then, for an
   * active loan that is now CURRENT, the amortization step.
   */
  function Settled(l: Loan, pos: Position, u: real, p: Params, y: int, m: int): (q: Position)
    ensures MonthMove(pos.state, q.state)
    ensures pos.dpd == DpdOf(pos.state) ==> q.dpd == DpdOf(q.state)
    ensures IsTerminal(pos.state) ==> q == pos
    ensures q.state != pos.state && IsTerminal(q.state) ==> q.balance == 0.0
    ensures 0.0 <= pos.balance ==> 0.0 <= q.balance <= pos.balance
    ensures IsDelinquent(q.state) ==> q == Drawn(l, pos, u, p, y, m) && q.balance == pos.balance
  {
    var d := Drawn(l, pos, u, p, y, m);
    if Active(l, pos.state, y, m) && d.state == Current then Amortize(d) else d
  }

  /**
   * The delinquent state the draw rolls an active loan into this month, if
   * any: such a roll appends a MISSED row, even when the forced payoff then
   * overrides the new state.
   */
  function RollInto(l: Loan, pos: Position, u: real, p: Params, y: int, m: int): (r: Option<LoanState>)
    ensures r.Some? ==> Active(l, pos.state, y, m)
    ensures r.Some? ==> IsDelinquent(r.value) && Code(r.value) == Code(pos.state) + 1
    ensures IsDelinquent(Drawn(l, pos, u, p, y, m).state) && Drawn(l, pos, u, p, y, m).state != pos.state ==>
      r == Some(Drawn(l, pos, u, p, y, m).state)
  {
    if !Active(l, pos.state, y, m) then None
    else
      var t := Draw(pos, u, Seasoned(p, MonthsOnBook(l, y, m))).state;
      if IsDelinquent(t) && t != pos.state then Some(t) else None
  }

  datatype PaymentStatus = Paid | PaidOffPayment | Missed

  /** The `payment_status` text. */
  function PaymentStatusText(s: PaymentStatus): (t: string)
    ensures t == "PAID" <==> s == Paid
    ensures t == "PAID_OFF" <==> s == PaidOffPayment
    ensures t == "MISSED" <==> s == Missed
  {
    match s
    case Paid => "PAID"
    case PaidOffPayment => "PAID_OFF"
    case Missed => "MISSED"
  }

  /** One row of the generator's `payments` list. */
  datatype PaymentRecord = PaymentRecord(
    paymentId: string,
    loanId: string,
    dueDate: Date,
    receivedDate: Date,
    scheduledAmount: real,
    actualAmount: real,
    principalPaid: real,
    interestPaid: real,
    interestAccrued: real,
    status: PaymentStatus,
    autopay: bool,
    paymentMethod: string,
    paymentChannel: string)

  /** The payment-id suffix of a MISSED row for a roll into `t`. */
  function MissedSuffix(t: LoanState): string {
    if t == Delinquent30 then "-MISSED" else if t == Delinquent60 then "-MISSED60" else "-MISSED90"
  }

  /** One month's interest on a balance at an annual rate. */
  function MonthlyInterest(balance: real, rate: real): (i: real)
    ensures 0.0 <= balance && 0.0 <= rate ==> 0.0 <= i
  {
    balance * (rate / 12.0)
  }

  /**
   * The MISSED row appended for a roll into `t`: nothing paid, the interest
   * the opening balance accrues, dated the month end.
   */
  function MissedRow(l: Loan, balance: real, mob: int, y: int, m: int, t: LoanState): (r: PaymentRecord)
    requires 1 <= m <= 12
    ensures r.loanId == LoanId(l) && r.status == Missed
    ensures r.actualAmount == 0.0 && r.principalPaid == 0.0 && r.interestPaid == 0.0
    ensures 0.0 <= balance && 0.0 <= l.rate ==> 0.0 <= r.interestAccrued
    ensures r.receivedDate == MonthEnd(y, m)
  {
    PaymentRecord(
      "PMT-" + LoanId(l) + "-" + IntText(mob) + MissedSuffix(t),
      LoanId(l),
      MonthEnd(y, m), MonthEnd(y, m),
      l.scheduledPayment,
      0.0, 0.0, 0.0,
      MonthlyInterest(balance, l.rate),
      Missed, false, "NONE", "NONE")
  }

  /**
   * The regular-payment split: interest first, up to what accrued, and the
   * rest to principal. The pair is (principal, interest).
   */
  function InterestFirstSplit(paid: real, accrued: real): (r: (real, real))
    ensures r.0 + r.1 == paid
    ensures r.1 <= accrued && r.1 <= paid
    ensures 0.0 <= r.0
    ensures 0.0 <= paid && 0.0 <= accrued ==> 0.0 <= r.1
    ensures r.0 > 0.0 ==> r.1 == accrued
    ensures r.1 == paid || r.1 == accrued
  {
    if paid < accrued then (0.0, paid) else (paid - accrued, accrued)
  }

  /**
   * The payment row the report loop appends for a loan in state `now`:
   * a CURRENT loan pays 1/36 of the original amount (PAID, split interest
   * first); a PAID_OFF loan pays its post-transition balance (PAID_OFF, all
   * principal). Nothing is appended for any other state, or when the amount
   * is not positive — in particular for a payoff by draw or by override,
   * whose balance was already zeroed.
   */
  function ReportPayment(l: Loan, now: LoanState, priorBalance: real, mob: int, y: int, m: int): (r: Option<PaymentRecord>)
    requires 1 <= m <= 12
    ensures r.Some? ==> r.value.loanId == LoanId(l) && 0.0 < r.value.actualAmount
    ensures r.Some? ==> r.value.principalPaid + r.value.interestPaid == r.value.actualAmount
    ensures r.Some? ==> r.value.receivedDate == MonthEnd(y, m)
    ensures r.Some? ==> (now == Current && r.value.status == Paid) || (now == PaidOff && r.value.status == PaidOffPayment)
    ensures now == Current ==> (r.Some? <==> 0.0 < l.amount)
    ensures now == Current && r.Some? ==> r.value.actualAmount == r.value.scheduledAmount == l.amount / 36.0
    ensures now == Current && r.Some? ==> r.value.interestPaid <= r.value.interestAccrued
    ensures now == Current && r.Some? && 0.0 < r.value.principalPaid ==> r.value.interestPaid == r.value.interestAccrued
    ensures now == PaidOff ==> (r.Some? <==> 0.0 < priorBalance)
    ensures now == PaidOff && r.Some? ==>
      r.value.principalPaid == r.value.actualAmount == priorBalance && r.value.interestPaid == 0.0
  {
    var paid := if now == Current then l.amount / 36.0 else if now == PaidOff then priorBalance else 0.0;
    if (now == Current || now == PaidOff) && paid > 0.0 then
      var accrued := MonthlyInterest(priorBalance, l.rate);
      var split := if now == PaidOff then (paid, 0.0) else InterestFirstSplit(paid, accrued);
      Some(PaymentRecord(
        "PMT-" + LoanId(l) + "-" + IntText(mob),
        LoanId(l),
        MonthEnd(y, m), MonthEnd(y, m),
        l.amount / 36.0,
        paid, split.0, split.1, accrued,
        if now == Current then Paid else PaidOffPayment,
        true, "ACH", "WEB"))
    else None
  }

  /** f"{y}-{m:02d}": `origination_month` and `vintage_month`. */
  function MonthLabel(y: int, m: int): string {
    IntText(y) + "-" + Pad2(m)
  }

  /** f"{y}-Q{(m-1)//3+1}": `vintage_quarter`. */
  function QuarterLabel(y: int, m: int): (q: string)
    ensures 1 <= m <= 12 ==> q == IntText(y) + "-Q" + IntText((m - 1) / 3 + 1) && 1 <= (m - 1) / 3 + 1 <= 4
  {
    IntText(y) + "-Q" + IntText((m - 1) / 3 + 1)
  }

  /**
   * The vintage label agrees with `strftime("%Y-%m")` of the origination date
   * for every four-digit year.
   */
  lemma MonthLabelIsStrftime(y: int, m: int)
    requires 1000 <= y && 1 <= m <= 12
    ensures MonthLabel(y, m) == Pad4(y) + "-" + Pad2(m)
    ensures |MonthLabel(y, m)| == |IntText(y)| + 3
  {
  }

  /** One row of the generator's `snapshots` list; its `loan_status` text is `StatusText(state)`. */
  datatype Snapshot = Snapshot(
    loanId: string,
    applicationId: string,
    customerId: string,
    snapshotDate: Date,
    monthsOnBook: int,
    state: LoanState,
    chargeoffFlag: int,
    defaultFlag: int,
    daysPastDue: int,
    principalBalance: real,
    interestBalance: real,
    totalBalance: real,
    originalAmount: real,
    originalTermMonths: int,
    originationMonth: string,
    originationDate: Date,
    vintageYear: int,
    vintageQuarter: string,
    vintageMonth: string,
    fundingDate: Date,
    interestRate: real,
    originalLoanTerm: int,
    scheduledPayment: real)

  /**
   * The snapshot the report loop appends for a loan in position `now`. Its
   * default flag is the corrected one (1 exactly at 90 or more days past
   * due); it differs from the written `st_code >= 3` only on PAID_OFF rows.
   */
  function SnapshotRow(l: Loan, now: Position, mob: int, y: int, m: int): (s: Snapshot)
    requires 1 <= m <= 12
    ensures s.loanId == LoanId(l) && s.state == now.state
    ensures s.daysPastDue == now.dpd && s.principalBalance == now.balance
    ensures s.snapshotDate == MonthEnd(y, m)
    ensures s.chargeoffFlag == 1 <==> now.state == ChargedOff
    ensures s.defaultFlag == 1 <==> now.state == Delinquent90 || now.state == ChargedOff
    ensures s.defaultFlag == DefaultFlagAsWritten(now.state) <==> now.state != PaidOff
  {
    var origin := Date(l.originYear, l.originMonth, 1);
    Snapshot(
      LoanId(l), l.applicationId, CustomerId(l),
      MonthEnd(y, m), mob, now.state,
      ChargeoffFlag(now.state), DefaultFlag(now.state), now.dpd,
      now.balance, 0.0, now.balance,
      l.amount, 36,
      MonthLabel(l.originYear, l.originMonth), origin,
      l.originYear, QuarterLabel(l.originYear, l.originMonth), MonthLabel(l.originYear, l.originMonth),
      origin, l.rate, 36, l.scheduledPayment)
  }

  /**
   * The report loop's two skips: a CHARGED_OFF loan with balance 0 and more
   * than 120 DPD, and a PAID_OFF loan that was already PAID_OFF.
   */
  predicate Reported(prior: LoanState, now: Position) {
    !(now.state == ChargedOff && now.balance == 0.0 && now.dpd > 120)
    && !(now.state == PaidOff && prior == PaidOff)
  }

  /**
   * The charge-off skip never applies: a CHARGED_OFF loan's DPD is exactly
   * 120, so charged-off loans are reported again every month.
   */
  lemma ChargedOffSkipNeverApplies(prior: LoanState, now: Position)
    requires now.dpd == DpdOf(now.state)
    ensures Reported(prior, now) <==> !(now.state == PaidOff && prior == PaidOff)
  {
  }

  /** Per-loan states, DPDs and balances, and the rows written so far. */
  datatype Book = Book(
    states: seq<LoanState>,
    dpds: seq<int>,
    balances: seq<real>,
    payments: seq<PaymentRecord>,
    snapshots: seq<Snapshot>)

  /** One month's random inputs, one entry per loan: the uniform draw and the blended probabilities. */
  datatype MonthInput = MonthInput(draws: seq<real>, params: seq<Params>)

  predicate Fits(loans: seq<Loan>, b: Book, mi: MonthInput) {
    |b.states| == |loans| && |b.dpds| == |loans| && |b.balances| == |loans|
    && |mi.draws| == |loans| && |mi.params| == |loans|
  }

  function PositionOf(b: Book, i: int): Position
    requires 0 <= i < |b.states| && |b.dpds| == |b.states| && |b.balances| == |b.states|
  {
    Position(b.states[i], b.dpds[i], b.balances[i])
  }

  /** Loan `i` after the draw and the override (`prior_balances` is its balance). */
  function DrawnAt(loans: seq<Loan>, b: Book, y: int, m: int, mi: MonthInput, i: int): Position
    requires Fits(loans, b, mi) && 0 <= i < |loans|
  {
    Drawn(loans[i], PositionOf(b, i), mi.draws[i], mi.params[i], y, m)
  }

  /** Loan `i` at the end of the month. */
  function SettledAt(loans: seq<Loan>, b: Book, y: int, m: int, mi: MonthInput, i: int): Position
    requires Fits(loans, b, mi) && 0 <= i < |loans|
  {
    Settled(loans[i], PositionOf(b, i), mi.draws[i], mi.params[i], y, m)
  }

  function RollAt(loans: seq<Loan>, b: Book, y: int, m: int, mi: MonthInput, i: int): Option<LoanState>
    requires Fits(loans, b, mi) && 0 <= i < |loans|
  {
    RollInto(loans[i], PositionOf(b, i), mi.draws[i], mi.params[i], y, m)
  }

  /**
   * The present values among f(0), ..., f(k - 1), in order: what a loop over
   * the first k loans appends when loan i contributes the row f(i), if any.
   */
  function Collected<T>(f: int -> Option<T>, k: nat): seq<T> {
    if k == 0 then [] else Collected(f, k - 1) + (if f(k - 1).Some? then [f(k - 1).value] else [])
  }

  /** Loan `i`'s MISSED row, when the draw rolls it into `t` this month. */
  function MissedOf(loans: seq<Loan>, b: Book, y: int, m: int, mi: MonthInput, t: LoanState): int -> Option<PaymentRecord> {
    i =>
      if Fits(loans, b, mi) && 1 <= m <= 12 && 0 <= i < |loans| && RollAt(loans, b, y, m, mi, i) == Some(t)
      then Some(MissedRow(loans[i], b.balances[i], MonthsOnBook(loans[i], y, m), y, m, t))
      else None
  }

  /** The MISSED rows for rolls into `t` among loans 0..k-1, in loan order. */
  function MissedRows(loans: seq<Loan>, b: Book, y: int, m: int, mi: MonthInput, t: LoanState, k: int): seq<PaymentRecord>
    requires Fits(loans, b, mi) && 0 <= k <= |loans| && 1 <= m <= 12
  {
    Collected(MissedOf(loans, b, y, m, mi, t), k)
  }

  /** Loan `i` passes the report loop: originated, and neither skip applies. */
  predicate ReportedAt(loans: seq<Loan>, b: Book, y: int, m: int, mi: MonthInput, i: int)
    requires Fits(loans, b, mi) && 0 <= i < |loans|
  {
    Originated(loans[i], y, m) && Reported(b.states[i], SettledAt(loans, b, y, m, mi, i))
  }

  /** The payment row the report loop writes for loan `i`, if any (`prior_balances` feeds the interest). */
  function PaymentOf(loans: seq<Loan>, b: Book, y: int, m: int, mi: MonthInput): int -> Option<PaymentRecord> {
    i =>
      if Fits(loans, b, mi) && 1 <= m <= 12 && 0 <= i < |loans| && ReportedAt(loans, b, y, m, mi, i)
      then ReportPayment(loans[i], SettledAt(loans, b, y, m, mi, i).state,
                         DrawnAt(loans, b, y, m, mi, i).balance, MonthsOnBook(loans[i], y, m), y, m)
      else None
  }

  /** The snapshot the report loop writes for loan `i`, if any. */
  function SnapshotOf(loans: seq<Loan>, b: Book, y: int, m: int, mi: MonthInput): int -> Option<Snapshot> {
    i =>
      if Fits(loans, b, mi) && 1 <= m <= 12 && 0 <= i < |loans| && ReportedAt(loans, b, y, m, mi, i)
      then Some(SnapshotRow(loans[i], SettledAt(loans, b, y, m, mi, i), MonthsOnBook(loans[i], y, m), y, m))
      else None
  }

  /** The payment rows of the report loop over loans 0..k-1. */
  function ReportPayments(loans: seq<Loan>, b: Book, y: int, m: int, mi: MonthInput, k: int): seq<PaymentRecord>
    requires Fits(loans, b, mi) && 0 <= k <= |loans| && 1 <= m <= 12
  {
    Collected(PaymentOf(loans, b, y, m, mi), k)
  }

  /** The snapshot rows of the report loop over loans 0..k-1. */
  function ReportSnapshots(loans: seq<Loan>, b: Book, y: int, m: int, mi: MonthInput, k: int): seq<Snapshot>
    requires Fits(loans, b, mi) && 0 <= k <= |loans| && 1 <= m <= 12
  {
    Collected(SnapshotOf(loans, b, y, m, mi), k)
  }

  predicate AnyActive(loans: seq<Loan>, b: Book, y: int, m: int)
    requires |b.states| == |loans|
  {
    exists i :: 0 <= i < |loans| && Active(loans[i], b.states[i], y, m)
  }

  /**
   * One iteration of the month loop. Without an active loan nothing is
   * written. Otherwise every loan takes its settled position, the MISSED
   * rows of the rolls into 30, 60 and 90 are appended in that order, and
   * the report loop appends its payment and snapshot rows.
   */
  function MonthStep(loans: seq<Loan>, b: Book, y: int, m: int, mi: MonthInput): (r: Book)
    requires Fits(loans, b, mi) && 1 <= m <= 12
    ensures |r.states| == |loans| && |r.dpds| == |loans| && |r.balances| == |loans|
    ensures forall i :: 0 <= i < |loans| ==> PositionOf(r, i) == SettledAt(loans, b, y, m, mi, i)
    ensures b.payments <= r.payments && b.snapshots <= r.snapshots
  {
    if !AnyActive(loans, b, y, m) then b
    else
      var n := |loans|;
      Book(
        seq(n, i requires 0 <= i < n => SettledAt(loans, b, y, m, mi, i).state),
        seq(n, i requires 0 <= i < n => SettledAt(loans, b, y, m, mi, i).dpd),
        seq(n, i requires 0 <= i < n => SettledAt(loans, b, y, m, mi, i).balance),
        b.payments
        + MissedRows(loans, b, y, m, mi, Delinquent30, n)
        + MissedRows(loans, b, y, m, mi, Delinquent60, n)
        + MissedRows(loans, b, y, m, mi, Delinquent90, n)
        + ReportPayments(loans, b, y, m, mi, n),
        b.snapshots + ReportSnapshots(loans, b, y, m, mi, n))
  }

  /**
   * Over one month every loan makes one allowed move, a CHARGED_OFF or
   * PAID_OFF loan keeps its position, and no balance rises.
   */
  lemma MonthStepMoves(loans: seq<Loan>, b: Book, y: int, m: int, mi: MonthInput)
    requires Fits(loans, b, mi) && 1 <= m <= 12
    ensures forall i :: 0 <= i < |loans| ==> MonthMove(b.states[i], MonthStep(loans, b, y, m, mi).states[i])
    ensures forall i :: 0 <= i < |loans| && IsTerminal(b.states[i]) ==>
      PositionOf(MonthStep(loans, b, y, m, mi), i) == PositionOf(b, i)
    ensures forall i :: 0 <= i < |loans| && 0.0 <= b.balances[i] ==>
      0.0 <= MonthStep(loans, b, y, m, mi).balances[i] <= b.balances[i]
  {
    var r := MonthStep(loans, b, y, m, mi);
    forall i | 0 <= i < |loans|
      ensures MonthMove(b.states[i], r.states[i])
      ensures IsTerminal(b.states[i]) ==> PositionOf(r, i) == PositionOf(b, i)
      ensures 0.0 <= b.balances[i] ==> 0.0 <= r.balances[i] <= b.balances[i]
    {
      assert PositionOf(r, i) == SettledAt(loans, b, y, m, mi, i);
    }
  }

  /** Every loan starts CURRENT with DPD 0 and its full amount outstanding, and nothing is written. */
  function InitialBook(loans: seq<Loan>): (b: Book)
    ensures |b.states| == |loans| && |b.dpds| == |loans| && |b.balances| == |loans|
    ensures forall i :: 0 <= i < |loans| ==> PositionOf(b, i) == Position(Current, 0, loans[i].amount)
    ensures b.payments == [] && b.snapshots == []
  {
    Book(seq(|loans|, i => Current), seq(|loans|, i => 0),
         seq(|loans|, i requires 0 <= i < |loans| => loans[i].amount), [], [])
  }

  /** Months from (y, m) to (endY, endM) inclusive; none when the end is earlier. */
  function MonthsThrough(y: int, m: int, endY: int, endM: int): (n: nat)
    ensures n == 0 <==> MonthIndex(endY, endM) < MonthIndex(y, m)
  {
    if MonthIndex(endY, endM) < MonthIndex(y, m) then 0 else MonthIndex(endY, endM) - MonthIndex(y, m) + 1
  }

  predicate InputsFit(loans: seq<Loan>, inputs: seq<MonthInput>) {
    forall k :: 0 <= k < |inputs| ==> |inputs[k].draws| == |loans| && |inputs[k].params| == |loans|
  }

  /** `while curr_date <= sim_end`: the month step folded over the months (y, m) .. (endY, endM). */
  function Simulate(loans: seq<Loan>, b: Book, y: int, m: int, endY: int, endM: int, inputs: seq<MonthInput>): (r: Book)
    requires 1 <= m <= 12 && |b.states| == |loans| && |b.dpds| == |loans| && |b.balances| == |loans|
    requires InputsFit(loans, inputs) && |inputs| == MonthsThrough(y, m, endY, endM)
    ensures |r.states| == |loans| && |r.dpds| == |loans| && |r.balances| == |loans|
    ensures b.payments <= r.payments && b.snapshots <= r.snapshots
    decreases |inputs|
  {
    if MonthIndex(endY, endM) < MonthIndex(y, m) then b
    else
      var next := MonthStep(loans, b, y, m, inputs[0]);
      var nm := NextMonth(y, m);
      Simulate(loans, next, nm.0, nm.1, endY, endM, inputs[1..])
  }

  /** `generate_loan_tape`: the simulation from January 2022 through the snapshot month. */
  function SimulatedTape(loans: seq<Loan>, endY: int, endM: int, inputs: seq<MonthInput>): Book
    requires InputsFit(loans, inputs) && |inputs| == MonthsThrough(2022, 1, endY, endM)
  {
    Simulate(loans, InitialBook(loans), 2022, 1, endY, endM, inputs)
  }
}
