/*
 * What every month of the simulation keeps true of the book: per-loan DPDs
 * follow the state, balances stay within [0, original amount] and are 0
 * once a loan is closed, every delinquent or charged-off loan has a MISSED
 * payment, payment rows balance, every payment belongs to a loan with a
 * snapshot, and a loan's snapshots move forward in time without its
 * balance rising, without leaving CHARGED_OFF and without a row after
 * PAID_OFF.
 */
module TapeInvariant {
  import opened Tables
  import opened LoanStates
  import opened LoanTape

  predicate UniqueLoanIds(loans: seq<Loan>) {
    forall i, j :: 0 <= i < |loans| && 0 <= j < |loans| && i != j ==> LoanId(loans[i]) != LoanId(loans[j])
  }

  /** Application ids are unique, so the "LN-" loan ids are unique too. */
  lemma UniqueApplicationsGiveUniqueLoanIds(loans: seq<Loan>)
    requires forall i, j :: 0 <= i < |loans| && 0 <= j < |loans| && i != j ==>
      loans[i].applicationId != loans[j].applicationId
    ensures UniqueLoanIds(loans)
  {
    forall i, j | 0 <= i < |loans| && 0 <= j < |loans| && i != j
      ensures LoanId(loans[i]) != LoanId(loans[j])
    {
      assert LoanId(loans[i])[3..] == loans[i].applicationId;
      assert LoanId(loans[j])[3..] == loans[j].applicationId;
    }
  }

  predicate PositionOk(l: Loan, p: Position) {
    p.dpd == DpdOf(p.state)
    && 0.0 <= p.balance <= l.amount
    && (IsTerminal(p.state) ==> p.balance == 0.0)
  }

  predicate HasMissed(payments: seq<PaymentRecord>, id: string) {
    exists k :: 0 <= k < |payments| && payments[k].loanId == id && payments[k].status == Missed
  }

  predicate HasSnapshot(snapshots: seq<Snapshot>, id: string) {
    exists k :: 0 <= k < |snapshots| && snapshots[k].loanId == id
  }

  /**
   * A payment row balances: principal plus interest is the amount paid,
   * interest never exceeds what accrued, a MISSED row pays nothing, a PAID
   * row pays the scheduled amount and covers all accrued interest before
   * any principal, and a PAID_OFF row is all principal.
   */
  predicate PaymentOk(p: PaymentRecord) {
    0.0 <= p.principalPaid && 0.0 <= p.interestPaid && 0.0 <= p.actualAmount
    && p.principalPaid + p.interestPaid == p.actualAmount
    && p.interestPaid <= p.interestAccrued
    && (p.status == Missed ==> p.actualAmount == 0.0)
    && (p.status == Paid ==>
          0.0 < p.actualAmount && p.actualAmount == p.scheduledAmount
          && (0.0 < p.principalPaid ==> p.interestPaid == p.interestAccrued))
    && (p.status == PaidOffPayment ==> 0.0 < p.actualAmount && p.interestPaid == 0.0)
  }

  predicate AllPaymentsOk(ps: seq<PaymentRecord>) {
    forall k :: 0 <= k < |ps| ==> PaymentOk(ps[k])
  }

  predicate SnapshotOk(s: Snapshot) {
    s.daysPastDue == DpdOf(s.state)
    && 0.0 <= s.principalBalance <= s.originalAmount
    && (IsTerminal(s.state) ==> s.principalBalance == 0.0)
  }

  /** How an earlier snapshot of a loan relates to the loan's position now. */
  predicate SnapshotBehind(s: Snapshot, now: Position) {
    now.balance <= s.principalBalance
    && (s.state == PaidOff ==> now.state == PaidOff)
    && (s.state == ChargedOff ==> now.state == ChargedOff)
    && (s.daysPastDue <= DpdOf(now.state) || now.state == PaidOff || (s.daysPastDue <= 30 && now.state == Current))
  }

  /** Two snapshots of one loan, `s1` written before `s2`. */
  predicate SnapshotPairOk(s1: Snapshot, s2: Snapshot) {
    Before(s1.snapshotDate, s2.snapshotDate)
    && s1.state != PaidOff
    && (s1.state == ChargedOff ==> s2.state == ChargedOff)
    && s2.principalBalance <= s1.principalBalance
    && (0 < s2.daysPastDue ==> s1.daysPastDue <= s2.daysPastDue)
  }

  predicate SizesOk(loans: seq<Loan>, b: Book) {
    |b.states| == |loans| && |b.dpds| == |loans| && |b.balances| == |loans|
  }

  predicate TermsOk(loans: seq<Loan>) {
    forall i :: 0 <= i < |loans| ==> LoanTermsOk(loans[i])
  }

  predicate PositionsOk(loans: seq<Loan>, b: Book) {
    SizesOk(loans, b) && forall i :: 0 <= i < |loans| ==> PositionOk(loans[i], PositionOf(b, i))
  }

  /** Every loan that is delinquent or charged off has a MISSED row. */
  predicate LoansMissed(loans: seq<Loan>, b: Book)
    requires SizesOk(loans, b)
  {
    forall i :: 0 <= i < |loans| && b.states[i] != Current && b.states[i] != PaidOff ==>
      HasMissed(b.payments, LoanId(loans[i]))
  }

  /** Every payment row belongs to a loan with a snapshot. */
  predicate PaymentsOwned(ps: seq<PaymentRecord>, ss: seq<Snapshot>) {
    forall k :: 0 <= k < |ps| ==> HasSnapshot(ss, ps[k].loanId)
  }

  predicate SnapshotsValid(ss: seq<Snapshot>) {
    forall k :: 0 <= k < |ss| ==> SnapshotOk(ss[k])
  }

  /** Every delinquent or charged-off snapshot's loan has a MISSED row. */
  predicate SnapshotsMissed(ss: seq<Snapshot>, ps: seq<PaymentRecord>) {
    forall k :: 0 <= k < |ss| && ss[k].state != Current && ss[k].state != PaidOff ==> HasMissed(ps, ss[k].loanId)
  }

  /** Every snapshot is behind its loan's position in `b`. */
  predicate SnapshotsBehind(loans: seq<Loan>, ss: seq<Snapshot>, b: Book)
    requires SizesOk(loans, b)
  {
    forall k, i :: 0 <= k < |ss| && 0 <= i < |loans| && ss[k].loanId == LoanId(loans[i]) ==>
      SnapshotBehind(ss[k], PositionOf(b, i))
  }

  /** Any two snapshots of one loan are in order. */
  predicate PairsOk(ss: seq<Snapshot>) {
    forall k1, k2 :: 0 <= k1 < k2 < |ss| && ss[k1].loanId == ss[k2].loanId ==> SnapshotPairOk(ss[k1], ss[k2])
  }

  /** Every snapshot is dated before the first day of month (y, m). */
  predicate DatedBefore(ss: seq<Snapshot>, y: int, m: int) {
    forall k :: 0 <= k < |ss| ==> Before(ss[k].snapshotDate, Date(y, m, 1))
  }

  /** The invariant of the book between months. */
  predicate TapeInv(loans: seq<Loan>, b: Book) {
    TermsOk(loans) && UniqueLoanIds(loans) && PositionsOk(loans, b)
    && LoansMissed(loans, b)
    && AllPaymentsOk(b.payments) && PaymentsOwned(b.payments, b.snapshots)
    && SnapshotsValid(b.snapshots) && SnapshotsMissed(b.snapshots, b.payments)
    && SnapshotsBehind(loans, b.snapshots, b) && PairsOk(b.snapshots)
  }

  lemma HasMissedAppend(a: seq<PaymentRecord>, c: seq<PaymentRecord>, id: string)
    ensures HasMissed(a, id) ==> HasMissed(a + c, id)
    ensures HasMissed(c, id) ==> HasMissed(a + c, id)
  {
    if HasMissed(a, id) {
      var k :| 0 <= k < |a| && a[k].loanId == id && a[k].status == Missed;
      assert (a + c)[k] == a[k];
    }
    if HasMissed(c, id) {
      var k :| 0 <= k < |c| && c[k].loanId == id && c[k].status == Missed;
      assert (a + c)[|a| + k] == c[k];
    }
  }

  lemma HasSnapshotAppend(a: seq<Snapshot>, c: seq<Snapshot>, id: string)
    ensures HasSnapshot(a, id) ==> HasSnapshot(a + c, id)
    ensures HasSnapshot(c, id) ==> HasSnapshot(a + c, id)
  {
    if HasSnapshot(a, id) {
      var k :| 0 <= k < |a| && a[k].loanId == id;
      assert (a + c)[k] == a[k];
    }
    if HasSnapshot(c, id) {
      var k :| 0 <= k < |c| && c[k].loanId == id;
      assert (a + c)[|a| + k] == c[k];
    }
  }

  lemma AllPaymentsOkAppend(a: seq<PaymentRecord>, c: seq<PaymentRecord>)
    requires AllPaymentsOk(a) && AllPaymentsOk(c)
    ensures AllPaymentsOk(a + c)
  {
    forall k | 0 <= k < |a + c| ensures PaymentOk((a + c)[k]) {
      if k < |a| { assert (a + c)[k] == a[k]; } else { assert (a + c)[k] == c[k - |a|]; }
    }
  }

  /** Balances and rates are never negative, so every MISSED row accrues a non-negative amount. */
  predicate OpeningOk(loans: seq<Loan>, b: Book, mi: MonthInput) {
    Fits(loans, b, mi)
    && (forall i :: 0 <= i < |loans| ==> LoanTermsOk(loans[i]) && PositionOk(loans[i], PositionOf(b, i)))
  }

  /** `id` is the loan id of one of loans 0..k-1 that rolled into `t` this month. */
  predicate RolledId(loans: seq<Loan>, b: Book, y: int, m: int, mi: MonthInput, t: LoanState, k: int, id: string)
    requires Fits(loans, b, mi) && 0 <= k <= |loans|
  {
    exists i :: 0 <= i < k && RollAt(loans, b, y, m, mi, i) == Some(t) && LoanId(loans[i]) == id
  }

  /** `id` is the loan id of one of loans 0..k-1 that the report loop reports this month. */
  predicate ReportedId(loans: seq<Loan>, b: Book, y: int, m: int, mi: MonthInput, k: int, id: string)
    requires Fits(loans, b, mi) && 0 <= k <= |loans|
  {
    exists i :: 0 <= i < k && ReportedAt(loans, b, y, m, mi, i) && LoanId(loans[i]) == id
  }

  /** `s` is the snapshot the report loop writes for one of loans 0..k-1. */
  predicate ReportedRow(loans: seq<Loan>, b: Book, y: int, m: int, mi: MonthInput, k: int, s: Snapshot)
    requires Fits(loans, b, mi) && 0 <= k <= |loans| && 1 <= m <= 12
  {
    exists i :: 0 <= i < k && ReportedAt(loans, b, y, m, mi, i)
      && s == SnapshotRow(loans[i], SettledAt(loans, b, y, m, mi, i), MonthsOnBook(loans[i], y, m), y, m)
  }

  /** Value `j` of `Collected(f, k)` is `f(i)` for an `i < k`, and the values before it come from f(0..i-1). */
  lemma {:induction false} CollectedOwner<T>(f: int -> Option<T>, k: nat, j: int) returns (i: int)
    requires 0 <= j < |Collected(f, k)|
    ensures 0 <= i < k && f(i) == Some(Collected(f, k)[j]) && j == |Collected(f, i)|
  {
    if j < |Collected(f, k - 1)| {
      i := CollectedOwner(f, k - 1, j);
    } else {
      i := k - 1;
    }
  }

  /** A present `f(i)` with `i < k` sits in `Collected(f, k)` right after the values from f(0..i-1). */
  lemma {:induction false} CollectedAt<T>(f: int -> Option<T>, k: nat, i: int)
    requires 0 <= i < k && f(i).Some?
    ensures |Collected(f, i)| < |Collected(f, k)| && Collected(f, k)[|Collected(f, i)|] == f(i).value
  {
    if i < k - 1 {
      CollectedAt(f, k - 1, i);
    }
  }

  /**
   * The MISSED rows for rolls into `t` balance, each belongs to a loan that
   * rolled into `t`, and each loan that rolled into `t` has one.
   */
  lemma MissedRowsFacts(loans: seq<Loan>, b: Book, y: int, m: int, mi: MonthInput, t: LoanState, k: int)
    requires OpeningOk(loans, b, mi) && 0 <= k <= |loans| && 1 <= m <= 12
    ensures AllPaymentsOk(MissedRows(loans, b, y, m, mi, t, k))
    ensures forall j :: 0 <= j < |MissedRows(loans, b, y, m, mi, t, k)| ==>
      RolledId(loans, b, y, m, mi, t, k, MissedRows(loans, b, y, m, mi, t, k)[j].loanId)
    ensures forall i :: 0 <= i < k && RollAt(loans, b, y, m, mi, i) == Some(t) ==>
      HasMissed(MissedRows(loans, b, y, m, mi, t, k), LoanId(loans[i]))
  {
    var f := MissedOf(loans, b, y, m, mi, t);
    var rows := Collected(f, k);
    forall j | 0 <= j < |rows| ensures PaymentOk(rows[j]) && RolledId(loans, b, y, m, mi, t, k, rows[j].loanId) {
      var i := CollectedOwner(f, k, j);
      assert LoanTermsOk(loans[i]) && PositionOk(loans[i], PositionOf(b, i));
    }
    forall i | 0 <= i < k && RollAt(loans, b, y, m, mi, i) == Some(t)
      ensures HasMissed(rows, LoanId(loans[i]))
    {
      CollectedAt(f, k, i);
      var j := |Collected(f, i)|;
      assert rows[j].loanId == LoanId(loans[i]) && rows[j].status == Missed;
    }
  }

  /** The payment row written for one loan balances. */
  lemma ReportRowOk(loans: seq<Loan>, b: Book, y: int, m: int, mi: MonthInput, i: int)
    requires OpeningOk(loans, b, mi) && 0 <= i < |loans| && 1 <= m <= 12
    requires PaymentOf(loans, b, y, m, mi)(i).Some?
    ensures PaymentOk(PaymentOf(loans, b, y, m, mi)(i).value)
    ensures PaymentOf(loans, b, y, m, mi)(i).value.loanId == LoanId(loans[i])
    ensures ReportedAt(loans, b, y, m, mi, i)
  {
    assert LoanTermsOk(loans[i]) && PositionOk(loans[i], PositionOf(b, i));
    assert 0.0 <= DrawnAt(loans, b, y, m, mi, i).balance;
    var st := SettledAt(loans, b, y, m, mi, i).state;
    if st == Current {
      assert 0.0 < loans[i].amount / 36.0;
    }
  }

  /** The report loop's payment rows balance and each belongs to a reported loan. */
  lemma ReportPaymentsFacts(loans: seq<Loan>, b: Book, y: int, m: int, mi: MonthInput, k: int)
    requires OpeningOk(loans, b, mi) && 0 <= k <= |loans| && 1 <= m <= 12
    ensures AllPaymentsOk(ReportPayments(loans, b, y, m, mi, k))
    ensures forall j :: 0 <= j < |ReportPayments(loans, b, y, m, mi, k)| ==>
      ReportedId(loans, b, y, m, mi, k, ReportPayments(loans, b, y, m, mi, k)[j].loanId)
  {
    var f := PaymentOf(loans, b, y, m, mi);
    var rows := Collected(f, k);
    forall j | 0 <= j < |rows| ensures PaymentOk(rows[j]) && ReportedId(loans, b, y, m, mi, k, rows[j].loanId) {
      var i := CollectedOwner(f, k, j);
      ReportRowOk(loans, b, y, m, mi, i);
    }
  }

  /** Snapshot `j` of the report loop is the one written for a reported loan `i`. */
  lemma ReportSnapshotOwner(loans: seq<Loan>, b: Book, y: int, m: int, mi: MonthInput, k: int, j: int)
    returns (i: int)
    requires Fits(loans, b, mi) && 0 <= k <= |loans| && 1 <= m <= 12
    requires 0 <= j < |ReportSnapshots(loans, b, y, m, mi, k)|
    ensures 0 <= i < k && ReportedAt(loans, b, y, m, mi, i)
    ensures j == |ReportSnapshots(loans, b, y, m, mi, i)|
    ensures ReportSnapshots(loans, b, y, m, mi, k)[j]
      == SnapshotRow(loans[i], SettledAt(loans, b, y, m, mi, i), MonthsOnBook(loans[i], y, m), y, m)
  {
    i := CollectedOwner(SnapshotOf(loans, b, y, m, mi), k, j);
  }

  /** Each snapshot of the report loop is the snapshot of a reported loan. */
  lemma ReportSnapshotsOwned(loans: seq<Loan>, b: Book, y: int, m: int, mi: MonthInput, k: int)
    requires Fits(loans, b, mi) && 0 <= k <= |loans| && 1 <= m <= 12
    ensures forall j :: 0 <= j < |ReportSnapshots(loans, b, y, m, mi, k)| ==>
      ReportedRow(loans, b, y, m, mi, k, ReportSnapshots(loans, b, y, m, mi, k)[j])
  {
    var rows := ReportSnapshots(loans, b, y, m, mi, k);
    forall j | 0 <= j < |rows| ensures ReportedRow(loans, b, y, m, mi, k, rows[j]) {
      var i := ReportSnapshotOwner(loans, b, y, m, mi, k, j);
    }
  }

  /** Every reported loan gets a snapshot. */
  lemma ReportSnapshotsCover(loans: seq<Loan>, b: Book, y: int, m: int, mi: MonthInput, k: int)
    requires Fits(loans, b, mi) && 0 <= k <= |loans| && 1 <= m <= 12
    ensures forall i :: 0 <= i < k && ReportedAt(loans, b, y, m, mi, i) ==>
      HasSnapshot(ReportSnapshots(loans, b, y, m, mi, k), LoanId(loans[i]))
  {
    var f := SnapshotOf(loans, b, y, m, mi);
    var rows := Collected(f, k);
    forall i | 0 <= i < k && ReportedAt(loans, b, y, m, mi, i)
      ensures HasSnapshot(rows, LoanId(loans[i]))
    {
      CollectedAt(f, k, i);
      assert rows[|Collected(f, i)|].loanId == LoanId(loans[i]);
    }
  }

  /** The loan ids of the report loop's snapshots are those of loans 0..k-1 it reports. */
  lemma ReportSnapshotIds(loans: seq<Loan>, b: Book, y: int, m: int, mi: MonthInput, k: int)
    requires Fits(loans, b, mi) && 0 <= k <= |loans| && 1 <= m <= 12
    ensures forall j :: 0 <= j < |ReportSnapshots(loans, b, y, m, mi, k)| ==>
      ReportedId(loans, b, y, m, mi, k, ReportSnapshots(loans, b, y, m, mi, k)[j].loanId)
  {
    var f := SnapshotOf(loans, b, y, m, mi);
    var rows := Collected(f, k);
    forall j | 0 <= j < |rows| ensures ReportedId(loans, b, y, m, mi, k, rows[j].loanId) {
      var i := CollectedOwner(f, k, j);
      assert LoanId(loans[i]) == rows[j].loanId;
    }
  }

  /** With unique loan ids, no two snapshots of one month share a loan id. */
  lemma ReportSnapshotsDistinct(loans: seq<Loan>, b: Book, y: int, m: int, mi: MonthInput, k: int)
    requires Fits(loans, b, mi) && UniqueLoanIds(loans) && 0 <= k <= |loans| && 1 <= m <= 12
    ensures forall j1, j2 :: 0 <= j1 < j2 < |ReportSnapshots(loans, b, y, m, mi, k)| ==>
      ReportSnapshots(loans, b, y, m, mi, k)[j1].loanId != ReportSnapshots(loans, b, y, m, mi, k)[j2].loanId
  {
    var f := SnapshotOf(loans, b, y, m, mi);
    var rows := Collected(f, k);
    forall j1, j2 | 0 <= j1 < j2 < |rows| ensures rows[j1].loanId != rows[j2].loanId {
      var i1 := CollectedOwner(f, k, j1);
      var i2 := CollectedOwner(f, k, j2);
      assert i1 != i2;
    }
  }

  /** One month moves an earlier snapshot's relation from the opening position to the closing one. */
  lemma BehindAdvances(s: Snapshot, l: Loan, pos: Position, q: Position)
    requires SnapshotBehind(s, pos) && PositionOk(l, pos) && PositionOk(l, q)
    requires MonthMove(pos.state, q.state) && q.balance <= pos.balance
    requires IsTerminal(pos.state) ==> q == pos
    ensures SnapshotBehind(s, q)
  {
  }

  /** An earlier snapshot and the snapshot a month writes for the same loan are in order. */
  lemma PairFromBehind(s1: Snapshot, s2: Snapshot, pos: Position, q: Position)
    requires SnapshotBehind(s1, pos) && SnapshotBehind(s1, q)
    requires IsTerminal(pos.state) ==> q == pos
    requires Reported(pos.state, q) && q.dpd == DpdOf(q.state)
    requires s2.state == q.state && s2.daysPastDue == q.dpd && s2.principalBalance == q.balance
    requires Before(s1.snapshotDate, s2.snapshotDate)
    ensures SnapshotPairOk(s1, s2)
  {
  }

  lemma SnapshotsValidAppend(a: seq<Snapshot>, c: seq<Snapshot>)
    requires SnapshotsValid(a) && SnapshotsValid(c)
    ensures SnapshotsValid(a + c)
  {
    forall k | 0 <= k < |a + c| ensures SnapshotOk((a + c)[k]) {
      if k < |a| { assert (a + c)[k] == a[k]; } else { assert (a + c)[k] == c[k - |a|]; }
    }
  }

  lemma DatedBeforeAppend(a: seq<Snapshot>, c: seq<Snapshot>, y: int, m: int)
    requires DatedBefore(a, y, m) && DatedBefore(c, y, m)
    ensures DatedBefore(a + c, y, m)
  {
    forall k | 0 <= k < |a + c| ensures Before((a + c)[k].snapshotDate, Date(y, m, 1)) {
      if k < |a| { assert (a + c)[k] == a[k]; } else { assert (a + c)[k] == c[k - |a|]; }
    }
  }

  lemma SnapshotsMissedAppend(a: seq<Snapshot>, c: seq<Snapshot>, ps: seq<PaymentRecord>)
    requires SnapshotsMissed(a, ps) && SnapshotsMissed(c, ps)
    ensures SnapshotsMissed(a + c, ps)
  {
    forall k | 0 <= k < |a + c| && (a + c)[k].state != Current && (a + c)[k].state != PaidOff
      ensures HasMissed(ps, (a + c)[k].loanId)
    {
      if k < |a| { assert (a + c)[k] == a[k]; } else { assert (a + c)[k] == c[k - |a|]; }
    }
  }

  /** Appending payment rows keeps every MISSED row a snapshot relies on. */
  lemma SnapshotsMissedMore(ss: seq<Snapshot>, ps: seq<PaymentRecord>, more: seq<PaymentRecord>)
    requires SnapshotsMissed(ss, ps)
    ensures SnapshotsMissed(ss, ps + more)
  {
    forall k | 0 <= k < |ss| && ss[k].state != Current && ss[k].state != PaidOff
      ensures HasMissed(ps + more, ss[k].loanId)
    {
      HasMissedAppend(ps, more, ss[k].loanId);
    }
  }

  lemma SnapshotsBehindAppend(loans: seq<Loan>, a: seq<Snapshot>, c: seq<Snapshot>, b: Book)
    requires SizesOk(loans, b)
    requires SnapshotsBehind(loans, a, b) && SnapshotsBehind(loans, c, b)
    ensures SnapshotsBehind(loans, a + c, b)
  {
    forall k, i | 0 <= k < |a + c| && 0 <= i < |loans| && (a + c)[k].loanId == LoanId(loans[i])
      ensures SnapshotBehind((a + c)[k], PositionOf(b, i))
    {
      if k < |a| { assert (a + c)[k] == a[k]; } else { assert (a + c)[k] == c[k - |a|]; }
    }
  }

  /** No two snapshots share a loan id. */
  predicate DistinctIds(ss: seq<Snapshot>) {
    forall j1, j2 :: 0 <= j1 < j2 < |ss| ==> ss[j1].loanId != ss[j2].loanId
  }

  /** Ordered old snapshots, new snapshots of distinct loans, each in order after the old ones of its loan. */
  lemma PairsAppend(a: seq<Snapshot>, c: seq<Snapshot>)
    requires PairsOk(a) && DistinctIds(c)
    requires forall k, j :: 0 <= k < |a| && 0 <= j < |c| && a[k].loanId == c[j].loanId ==> SnapshotPairOk(a[k], c[j])
    ensures PairsOk(a + c)
  {
    var s := a + c;
    forall k1, k2 | 0 <= k1 < k2 < |s| ensures s[k1].loanId == s[k2].loanId ==> SnapshotPairOk(s[k1], s[k2]) {
      if k2 < |a| {
        assert s[k1] == a[k1] && s[k2] == a[k2];
      } else if k1 < |a| {
        assert s[k1] == a[k1] && s[k2] == c[k2 - |a|];
      } else {
        assert s[k1] == c[k1 - |a|] && s[k2] == c[k2 - |a|];
      }
    }
  }

  lemma PaymentsOwnedAppend(a: seq<PaymentRecord>, c: seq<PaymentRecord>, ss: seq<Snapshot>)
    requires PaymentsOwned(a, ss) && PaymentsOwned(c, ss)
    ensures PaymentsOwned(a + c, ss)
  {
    forall k | 0 <= k < |a + c| ensures HasSnapshot(ss, (a + c)[k].loanId) {
      if k < |a| { assert (a + c)[k] == a[k]; } else { assert (a + c)[k] == c[k - |a|]; }
    }
  }

  lemma PaymentsOwnedMore(ps: seq<PaymentRecord>, ss: seq<Snapshot>, more: seq<Snapshot>)
    requires PaymentsOwned(ps, ss)
    ensures PaymentsOwned(ps, ss + more)
  {
    forall k | 0 <= k < |ps| ensures HasSnapshot(ss + more, ps[k].loanId) {
      HasSnapshotAppend(ss, more, ps[k].loanId);
    }
  }

  /** What a month relies on: sound loans with distinct ids in consistent positions. */
  predicate MonthReady(loans: seq<Loan>, b: Book, y: int, m: int, mi: MonthInput) {
    Fits(loans, b, mi) && 1 <= m <= 12 && TermsOk(loans) && UniqueLoanIds(loans) && PositionsOk(loans, b)
  }

  /** A loan that rolls this month is reported this month. */
  lemma RolledIsReported(loans: seq<Loan>, b: Book, y: int, m: int, mi: MonthInput, i: int)
    requires MonthReady(loans, b, y, m, mi) && 0 <= i < |loans|
    requires RollAt(loans, b, y, m, mi, i).Some?
    ensures ReportedAt(loans, b, y, m, mi, i)
  {
    assert PositionOk(loans[i], PositionOf(b, i));
    var q := SettledAt(loans, b, y, m, mi, i);
    assert q.dpd == DpdOf(q.state);
  }

  /** Every loan's closing position is consistent. */
  lemma PositionsAfterMonth(loans: seq<Loan>, b: Book, y: int, m: int, mi: MonthInput)
    requires MonthReady(loans, b, y, m, mi)
    ensures PositionsOk(loans, MonthStep(loans, b, y, m, mi))
  {
    var r := MonthStep(loans, b, y, m, mi);
    forall i | 0 <= i < |loans| ensures PositionOk(loans[i], PositionOf(r, i)) {
      assert PositionOk(loans[i], PositionOf(b, i));
      assert PositionOf(r, i) == SettledAt(loans, b, y, m, mi, i);
    }
  }

  /** The rows a month with an active loan appends to `payments`. */
  function NewPayments(loans: seq<Loan>, b: Book, y: int, m: int, mi: MonthInput): seq<PaymentRecord>
    requires Fits(loans, b, mi) && 1 <= m <= 12
  {
    var n := |loans|;
    MissedRows(loans, b, y, m, mi, Delinquent30, n)
    + MissedRows(loans, b, y, m, mi, Delinquent60, n)
    + MissedRows(loans, b, y, m, mi, Delinquent90, n)
    + ReportPayments(loans, b, y, m, mi, n)
  }

  lemma MonthRows(loans: seq<Loan>, b: Book, y: int, m: int, mi: MonthInput)
    requires Fits(loans, b, mi) && 1 <= m <= 12
    ensures AnyActive(loans, b, y, m) ==>
      MonthStep(loans, b, y, m, mi).payments == b.payments + NewPayments(loans, b, y, m, mi)
      && MonthStep(loans, b, y, m, mi).snapshots == b.snapshots + ReportSnapshots(loans, b, y, m, mi, |loans|)
    ensures !AnyActive(loans, b, y, m) ==> MonthStep(loans, b, y, m, mi) == b
  {
    if AnyActive(loans, b, y, m) {
      var n := |loans|;
      var m30, m60, m90 := MissedRows(loans, b, y, m, mi, Delinquent30, n),
        MissedRows(loans, b, y, m, mi, Delinquent60, n), MissedRows(loans, b, y, m, mi, Delinquent90, n);
      AppendAssoc(b.payments, m30, m60, m90, ReportPayments(loans, b, y, m, mi, n));
    }
  }

  lemma AppendAssoc<T>(a: seq<T>, b: seq<T>, c: seq<T>, d: seq<T>, e: seq<T>)
    ensures a + b + c + d + e == a + (b + c + d + e)
  {
  }

  /** A loan that rolls this month has a MISSED row among the month's new rows. */
  lemma NewMissed(loans: seq<Loan>, b: Book, y: int, m: int, mi: MonthInput, i: int)
    requires MonthReady(loans, b, y, m, mi) && 0 <= i < |loans|
    requires RollAt(loans, b, y, m, mi, i).Some?
    ensures HasMissed(NewPayments(loans, b, y, m, mi), LoanId(loans[i]))
  {
    var n := |loans|;
    var t := RollAt(loans, b, y, m, mi, i).value;
    var m30 := MissedRows(loans, b, y, m, mi, Delinquent30, n);
    var m60 := MissedRows(loans, b, y, m, mi, Delinquent60, n);
    var m90 := MissedRows(loans, b, y, m, mi, Delinquent90, n);
    var rp := ReportPayments(loans, b, y, m, mi, n);
    var id := LoanId(loans[i]);
    assert OpeningOk(loans, b, mi);
    MissedRowsFacts(loans, b, y, m, mi, t, n);
    HasMissedAppend(m30, m60, id);
    HasMissedAppend(m30 + m60, m90, id);
    HasMissedAppend(m30 + m60 + m90, rp, id);
  }

  /** Every row of `ps` belongs to a loan reported this month. */
  predicate OwnedRows(loans: seq<Loan>, b: Book, y: int, m: int, mi: MonthInput, ps: seq<PaymentRecord>)
    requires Fits(loans, b, mi)
  {
    forall k :: 0 <= k < |ps| ==> ReportedId(loans, b, y, m, mi, |loans|, ps[k].loanId)
  }

  lemma OwnedRowsAppend(loans: seq<Loan>, b: Book, y: int, m: int, mi: MonthInput, a: seq<PaymentRecord>, c: seq<PaymentRecord>)
    requires Fits(loans, b, mi)
    requires OwnedRows(loans, b, y, m, mi, a) && OwnedRows(loans, b, y, m, mi, c)
    ensures OwnedRows(loans, b, y, m, mi, a + c)
  {
    forall k | 0 <= k < |a + c| ensures ReportedId(loans, b, y, m, mi, |loans|, (a + c)[k].loanId) {
      if k < |a| { assert (a + c)[k] == a[k]; } else { assert (a + c)[k] == c[k - |a|]; }
    }
  }

  /** The MISSED rows of a month belong to loans reported that month. */
  lemma MissedRowsOwned(loans: seq<Loan>, b: Book, y: int, m: int, mi: MonthInput, t: LoanState)
    requires MonthReady(loans, b, y, m, mi)
    ensures OwnedRows(loans, b, y, m, mi, MissedRows(loans, b, y, m, mi, t, |loans|))
  {
    var n := |loans|;
    var rows := MissedRows(loans, b, y, m, mi, t, n);
    assert OpeningOk(loans, b, mi);
    MissedRowsFacts(loans, b, y, m, mi, t, n);
    forall k | 0 <= k < |rows| ensures ReportedId(loans, b, y, m, mi, n, rows[k].loanId) {
      assert RolledId(loans, b, y, m, mi, t, n, rows[k].loanId);
      var i :| 0 <= i < n && RollAt(loans, b, y, m, mi, i) == Some(t) && LoanId(loans[i]) == rows[k].loanId;
      RolledIsReported(loans, b, y, m, mi, i);
    }
  }

  /** Every new payment row balances and belongs to a loan reported this month. */
  lemma NewPaymentsFacts(loans: seq<Loan>, b: Book, y: int, m: int, mi: MonthInput)
    requires MonthReady(loans, b, y, m, mi)
    ensures AllPaymentsOk(NewPayments(loans, b, y, m, mi))
    ensures OwnedRows(loans, b, y, m, mi, NewPayments(loans, b, y, m, mi))
  {
    var n := |loans|;
    assert OpeningOk(loans, b, mi);
    var m30 := MissedRows(loans, b, y, m, mi, Delinquent30, n);
    var m60 := MissedRows(loans, b, y, m, mi, Delinquent60, n);
    var m90 := MissedRows(loans, b, y, m, mi, Delinquent90, n);
    var rp := ReportPayments(loans, b, y, m, mi, n);
    MissedRowsFacts(loans, b, y, m, mi, Delinquent30, n);
    MissedRowsFacts(loans, b, y, m, mi, Delinquent60, n);
    MissedRowsFacts(loans, b, y, m, mi, Delinquent90, n);
    ReportPaymentsFacts(loans, b, y, m, mi, n);
    AllPaymentsOkAppend(m30, m60);
    AllPaymentsOkAppend(m30 + m60, m90);
    AllPaymentsOkAppend(m30 + m60 + m90, rp);
    MissedRowsOwned(loans, b, y, m, mi, Delinquent30);
    MissedRowsOwned(loans, b, y, m, mi, Delinquent60);
    MissedRowsOwned(loans, b, y, m, mi, Delinquent90);
    OwnedRowsAppend(loans, b, y, m, mi, m30, m60);
    OwnedRowsAppend(loans, b, y, m, mi, m30 + m60, m90);
    OwnedRowsAppend(loans, b, y, m, mi, m30 + m60 + m90, rp);
  }

  /** The new payment rows belong to loans with a new snapshot. */
  lemma NewPaymentsOwned(loans: seq<Loan>, b: Book, y: int, m: int, mi: MonthInput)
    requires MonthReady(loans, b, y, m, mi)
    ensures PaymentsOwned(NewPayments(loans, b, y, m, mi), ReportSnapshots(loans, b, y, m, mi, |loans|))
  {
    var n := |loans|;
    var np := NewPayments(loans, b, y, m, mi);
    NewPaymentsFacts(loans, b, y, m, mi);
    ReportSnapshotsCover(loans, b, y, m, mi, n);
    forall k | 0 <= k < |np| ensures HasSnapshot(ReportSnapshots(loans, b, y, m, mi, n), np[k].loanId) {
      assert ReportedId(loans, b, y, m, mi, n, np[k].loanId);
      var i :| 0 <= i < n && ReportedAt(loans, b, y, m, mi, i) && LoanId(loans[i]) == np[k].loanId;
    }
  }

  /** Every loan that is delinquent or charged off at the close of the month has a MISSED row. */
  lemma MissedAfterMonth(loans: seq<Loan>, b: Book, y: int, m: int, mi: MonthInput)
    requires MonthReady(loans, b, y, m, mi) && LoansMissed(loans, b)
    ensures LoansMissed(loans, MonthStep(loans, b, y, m, mi))
  {
    MonthRows(loans, b, y, m, mi);
    var r := MonthStep(loans, b, y, m, mi);
    if AnyActive(loans, b, y, m) {
      var np := NewPayments(loans, b, y, m, mi);
      forall i | 0 <= i < |loans| && r.states[i] != Current && r.states[i] != PaidOff
        ensures HasMissed(r.payments, LoanId(loans[i]))
      {
        var pos := PositionOf(b, i);
        var q := SettledAt(loans, b, y, m, mi, i);
        assert q == PositionOf(r, i);
        HasMissedAppend(b.payments, np, LoanId(loans[i]));
        if q.state != pos.state && IsDelinquent(q.state) {
          assert RollAt(loans, b, y, m, mi, i) == Some(q.state);
          NewMissed(loans, b, y, m, mi, i);
        }
      }
    }
  }

  /** Old snapshots keep their relation to their loan's position. */
  lemma BehindAfterMonth(loans: seq<Loan>, b: Book, y: int, m: int, mi: MonthInput)
    requires MonthReady(loans, b, y, m, mi) && SnapshotsBehind(loans, b.snapshots, b)
    ensures SnapshotsBehind(loans, b.snapshots, MonthStep(loans, b, y, m, mi))
  {
    var r := MonthStep(loans, b, y, m, mi);
    PositionsAfterMonth(loans, b, y, m, mi);
    forall k, i | 0 <= k < |b.snapshots| && 0 <= i < |loans| && b.snapshots[k].loanId == LoanId(loans[i])
      ensures SnapshotBehind(b.snapshots[k], PositionOf(r, i))
    {
      assert PositionOk(loans[i], PositionOf(b, i));
      assert PositionOk(loans[i], PositionOf(r, i));
      BehindAdvances(b.snapshots[k], loans[i], PositionOf(b, i), PositionOf(r, i));
    }
  }

  /** The snapshot the report loop writes for loan `i`, described by the loan's closing position. */
  predicate WrittenFor(loans: seq<Loan>, b: Book, y: int, m: int, mi: MonthInput, s: Snapshot, i: int)
    requires Fits(loans, b, mi) && 0 <= i < |loans| && 1 <= m <= 12
  {
    s.loanId == LoanId(loans[i])
    && ReportedAt(loans, b, y, m, mi, i)
    && s.state == SettledAt(loans, b, y, m, mi, i).state
    && s.daysPastDue == SettledAt(loans, b, y, m, mi, i).dpd
    && s.principalBalance == SettledAt(loans, b, y, m, mi, i).balance
    && s.originalAmount == loans[i].amount
    && s.snapshotDate == MonthEnd(y, m)
  }

  /** Each new snapshot is written for some loan. */
  lemma NewSnapshotOwner(loans: seq<Loan>, b: Book, y: int, m: int, mi: MonthInput, j: int) returns (i: int)
    requires Fits(loans, b, mi) && 1 <= m <= 12
    requires 0 <= j < |ReportSnapshots(loans, b, y, m, mi, |loans|)|
    ensures 0 <= i < |loans| && WrittenFor(loans, b, y, m, mi, ReportSnapshots(loans, b, y, m, mi, |loans|)[j], i)
  {
    var n := |loans|;
    var s := ReportSnapshots(loans, b, y, m, mi, n)[j];
    ReportSnapshotsOwned(loans, b, y, m, mi, n);
    assert ReportedRow(loans, b, y, m, mi, n, s);
    i :| 0 <= i < n && ReportedAt(loans, b, y, m, mi, i)
      && s == SnapshotRow(loans[i], SettledAt(loans, b, y, m, mi, i), MonthsOnBook(loans[i], y, m), y, m);
  }

  /** The new snapshots are valid, dated this month, have their MISSED rows, and match their loans' positions. */
  lemma NewSnapshotsFacts(loans: seq<Loan>, b: Book, y: int, m: int, mi: MonthInput)
    requires MonthReady(loans, b, y, m, mi) && LoansMissed(loans, b) && AnyActive(loans, b, y, m)
    ensures SnapshotsValid(ReportSnapshots(loans, b, y, m, mi, |loans|))
    ensures DatedBefore(ReportSnapshots(loans, b, y, m, mi, |loans|), NextMonth(y, m).0, NextMonth(y, m).1)
    ensures SnapshotsMissed(ReportSnapshots(loans, b, y, m, mi, |loans|), MonthStep(loans, b, y, m, mi).payments)
    ensures SnapshotsBehind(loans, ReportSnapshots(loans, b, y, m, mi, |loans|), MonthStep(loans, b, y, m, mi))
  {
    var n := |loans|;
    var rs := ReportSnapshots(loans, b, y, m, mi, n);
    var r := MonthStep(loans, b, y, m, mi);
    var nm := NextMonth(y, m);
    PositionsAfterMonth(loans, b, y, m, mi);
    MissedAfterMonth(loans, b, y, m, mi);
    forall j | 0 <= j < |rs|
      ensures SnapshotOk(rs[j])
      ensures Before(rs[j].snapshotDate, Date(nm.0, nm.1, 1))
      ensures rs[j].state != Current && rs[j].state != PaidOff ==> HasMissed(r.payments, rs[j].loanId)
      ensures forall i' :: 0 <= i' < n ==> (rs[j].loanId == LoanId(loans[i']) ==> SnapshotBehind(rs[j], PositionOf(r, i')))
    {
      var i := NewSnapshotOwner(loans, b, y, m, mi, j);
      assert PositionOf(r, i) == SettledAt(loans, b, y, m, mi, i);
      assert PositionOk(loans[i], PositionOf(r, i));
      forall i' | 0 <= i' < n ensures rs[j].loanId == LoanId(loans[i']) ==> SnapshotBehind(rs[j], PositionOf(r, i')) {
        if i' != i {
          assert LoanId(loans[i']) != LoanId(loans[i]);
        }
      }
    }
  }

  /** Each old snapshot of a loan is in order with the loan's new snapshot. */
  lemma CrossPairsAfterMonth(loans: seq<Loan>, b: Book, y: int, m: int, mi: MonthInput)
    requires MonthReady(loans, b, y, m, mi) && SnapshotsBehind(loans, b.snapshots, b) && DatedBefore(b.snapshots, y, m)
    ensures forall k, j :: (0 <= k < |b.snapshots| && 0 <= j < |ReportSnapshots(loans, b, y, m, mi, |loans|)|
      && b.snapshots[k].loanId == ReportSnapshots(loans, b, y, m, mi, |loans|)[j].loanId) ==>
      SnapshotPairOk(b.snapshots[k], ReportSnapshots(loans, b, y, m, mi, |loans|)[j])
  {
    var n := |loans|;
    var rs := ReportSnapshots(loans, b, y, m, mi, n);
    var r := MonthStep(loans, b, y, m, mi);
    BehindAfterMonth(loans, b, y, m, mi);
    forall k, j | 0 <= k < |b.snapshots| && 0 <= j < |rs| && b.snapshots[k].loanId == rs[j].loanId
      ensures SnapshotPairOk(b.snapshots[k], rs[j])
    {
      var i := NewSnapshotOwner(loans, b, y, m, mi, j);
      var pos := PositionOf(b, i);
      var q := PositionOf(r, i);
      assert q == SettledAt(loans, b, y, m, mi, i);
      assert PositionOk(loans[i], pos);
      assert Before(b.snapshots[k].snapshotDate, Date(y, m, 1));
      PairFromBehind(b.snapshots[k], rs[j], pos, q);
    }
  }

  /** The payment conjuncts after one month. */
  lemma PaymentsAfterMonth(loans: seq<Loan>, b: Book, y: int, m: int, mi: MonthInput)
    requires MonthReady(loans, b, y, m, mi)
    requires AllPaymentsOk(b.payments) && PaymentsOwned(b.payments, b.snapshots)
    ensures AllPaymentsOk(MonthStep(loans, b, y, m, mi).payments)
    ensures PaymentsOwned(MonthStep(loans, b, y, m, mi).payments, MonthStep(loans, b, y, m, mi).snapshots)
  {
    MonthRows(loans, b, y, m, mi);
    if AnyActive(loans, b, y, m) {
      var np := NewPayments(loans, b, y, m, mi);
      var rs := ReportSnapshots(loans, b, y, m, mi, |loans|);
      NewPaymentsFacts(loans, b, y, m, mi);
      AllPaymentsOkAppend(b.payments, np);
      NewPaymentsOwned(loans, b, y, m, mi);
      PaymentsOwnedMore(np, rs, []);
      assert rs + [] == rs;
      PaymentsOwnedMore(b.payments, b.snapshots, rs);
      HasSnapshotsPrefix(np, b.snapshots, rs);
      PaymentsOwnedAppend(b.payments, np, b.snapshots + rs);
    }
  }

  /** Rows owned by snapshots in `c` are owned by snapshots in `a + c`. */
  lemma HasSnapshotsPrefix(ps: seq<PaymentRecord>, a: seq<Snapshot>, c: seq<Snapshot>)
    requires PaymentsOwned(ps, c)
    ensures PaymentsOwned(ps, a + c)
  {
    forall k | 0 <= k < |ps| ensures HasSnapshot(a + c, ps[k].loanId) {
      HasSnapshotAppend(a, c, ps[k].loanId);
    }
  }

  /** The snapshot conjuncts after one month. */
  lemma SnapshotsAfterMonth(loans: seq<Loan>, b: Book, y: int, m: int, mi: MonthInput)
    requires MonthReady(loans, b, y, m, mi) && LoansMissed(loans, b) && DatedBefore(b.snapshots, y, m)
    requires SnapshotsValid(b.snapshots) && SnapshotsMissed(b.snapshots, b.payments)
    requires SnapshotsBehind(loans, b.snapshots, b) && PairsOk(b.snapshots)
    ensures SizesOk(loans, MonthStep(loans, b, y, m, mi))
    ensures SnapshotsValid(MonthStep(loans, b, y, m, mi).snapshots)
    ensures SnapshotsMissed(MonthStep(loans, b, y, m, mi).snapshots, MonthStep(loans, b, y, m, mi).payments)
    ensures SnapshotsBehind(loans, MonthStep(loans, b, y, m, mi).snapshots, MonthStep(loans, b, y, m, mi))
    ensures PairsOk(MonthStep(loans, b, y, m, mi).snapshots)
    ensures DatedBefore(MonthStep(loans, b, y, m, mi).snapshots, NextMonth(y, m).0, NextMonth(y, m).1)
  {
    var r := MonthStep(loans, b, y, m, mi);
    var nm := NextMonth(y, m);
    MonthRows(loans, b, y, m, mi);
    assert Before(Date(y, m, 1), Date(nm.0, nm.1, 1));
    assert DatedBefore(b.snapshots, nm.0, nm.1);
    BehindAfterMonth(loans, b, y, m, mi);
    if AnyActive(loans, b, y, m) {
      var n := |loans|;
      var np := NewPayments(loans, b, y, m, mi);
      var rs := ReportSnapshots(loans, b, y, m, mi, n);
      NewSnapshotsFacts(loans, b, y, m, mi);
      SnapshotsValidAppend(b.snapshots, rs);
      DatedBeforeAppend(b.snapshots, rs, nm.0, nm.1);
      SnapshotsMissedMore(b.snapshots, b.payments, np);
      SnapshotsMissedAppend(b.snapshots, rs, r.payments);
      SnapshotsBehindAppend(loans, b.snapshots, rs, r);
      ReportSnapshotsDistinct(loans, b, y, m, mi, n);
      CrossPairsAfterMonth(loans, b, y, m, mi);
      PairsAppend(b.snapshots, rs);
    }
  }

  /** One month keeps the invariant, and every snapshot stays dated before the next month. */
  lemma MonthStepKeepsInv(loans: seq<Loan>, b: Book, y: int, m: int, mi: MonthInput)
    requires TapeInv(loans, b) && DatedBefore(b.snapshots, y, m) && Fits(loans, b, mi) && 1 <= m <= 12
    ensures TapeInv(loans, MonthStep(loans, b, y, m, mi))
    ensures DatedBefore(MonthStep(loans, b, y, m, mi).snapshots, NextMonth(y, m).0, NextMonth(y, m).1)
  {
    PositionsAfterMonth(loans, b, y, m, mi);
    MissedAfterMonth(loans, b, y, m, mi);
    PaymentsAfterMonth(loans, b, y, m, mi);
    SnapshotsAfterMonth(loans, b, y, m, mi);
  }

  /** The invariant holds for the opening book of funded loans with sound terms and distinct ids. */
  lemma InitialBookInv(loans: seq<Loan>)
    requires TermsOk(loans) && UniqueLoanIds(loans)
    ensures TapeInv(loans, InitialBook(loans)) && DatedBefore(InitialBook(loans).snapshots, 2022, 1)
  {
  }

  /** Every month keeps the invariant, so the whole simulation does. */
  lemma {:induction false} SimulateKeepsInv(loans: seq<Loan>, b: Book, y: int, m: int, endY: int, endM: int, inputs: seq<MonthInput>)
    requires 1 <= m <= 12 && TapeInv(loans, b) && DatedBefore(b.snapshots, y, m)
    requires InputsFit(loans, inputs) && |inputs| == MonthsThrough(y, m, endY, endM)
    ensures TapeInv(loans, Simulate(loans, b, y, m, endY, endM, inputs))
    decreases |inputs|
  {
    if MonthIndex(endY, endM) >= MonthIndex(y, m) {
      MonthStepKeepsInv(loans, b, y, m, inputs[0]);
      var nm := NextMonth(y, m);
      SimulateKeepsInv(loans, MonthStep(loans, b, y, m, inputs[0]), nm.0, nm.1, endY, endM, inputs[1..]);
    }
  }

  /** The invariant of the generated tape. */
  lemma GeneratedTapeInv(loans: seq<Loan>, endY: int, endM: int, inputs: seq<MonthInput>)
    requires TermsOk(loans) && UniqueLoanIds(loans)
    requires InputsFit(loans, inputs) && |inputs| == MonthsThrough(2022, 1, endY, endM)
    ensures TapeInv(loans, SimulatedTape(loans, endY, endM, inputs))
  {
    InitialBookInv(loans);
    SimulateKeepsInv(loans, InitialBook(loans), 2022, 1, endY, endM, inputs);
  }
}
