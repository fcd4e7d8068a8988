/*
 * `generate_loan_tape` as the generator runs it: per-loan state, DPD and
 * balance arrays updated in place month by month, and the payment and
 * snapshot lists appended to. Each month leaves exactly the book that
 * `LoanTape.MonthStep` describes, and the whole run the book of
 * `LoanTape.SimulatedTape`, whose invariant `TapeInvariant` proves.
 */
module LoanTapeSimulation {
  import opened Tables
  import opened Text
  import opened LoanStates
  import opened LoanTape
  import TapeInvariant

  class Simulator {
    const loans: seq<Loan>
    const states: array<LoanState>
    const dpds: array<int>
    const balances: array<real>
    var payments: seq<PaymentRecord>
    var snapshots: seq<Snapshot>

    ghost predicate Valid()
      reads this
    {
      states.Length == |loans| && dpds.Length == |loans| && balances.Length == |loans|
    }

    /** The book the arrays and the two lists hold. */
    function Model(): Book
      reads this, states, dpds, balances
    {
      Book(states[..], dpds[..], balances[..], payments, snapshots)
    }

    /** Every loan starts CURRENT at DPD 0 with its amount outstanding; both lists start empty. */
    constructor (loans: seq<Loan>)
      ensures Valid() && this.loans == loans
      ensures Model() == InitialBook(loans)
      ensures fresh(states) && fresh(dpds) && fresh(balances)
    {
      var n := |loans|;
      var bs := new real[n];
      var i := 0;
      while i < n
        invariant 0 <= i <= n
        invariant forall j :: 0 <= j < i ==> bs[j] == loans[j].amount
      {
        bs[i] := loans[i].amount;
        i := i + 1;
      }
      this.loans := loans;
      states := new LoanState[n](_ => Current);
      dpds := new int[n](_ => 0);
      balances := bs;
      payments := [];
      snapshots := [];
      new;
      assert balances[..] == InitialBook(loans).balances;
      assert states[..] == InitialBook(loans).states;
      assert dpds[..] == InitialBook(loans).dpds;
    }

    /**
     * One iteration of the month loop: the early exit when no loan is
     * active; the transition masks, with the MISSED rows of the rolls into
     * 30, 60 and 90; the commit of `next_states` and `next_dpds`; the
     * amortization of performing loans; and the report loop.
     */
    method SimulateMonth(y: int, m: int, mi: MonthInput)
      requires Valid() && 1 <= m <= 12
      requires |mi.draws| == |loans| && |mi.params| == |loans|
      modifies this, states, dpds, balances
      ensures Valid()
      ensures Model() == MonthStep(loans, old(Model()), y, m, mi)
    {
      ghost var b := Model();
      var n := |loans|;

      var anyActive := AnyActiveNow(y, m);
      if !anyActive {
        return;
      }

      var nextStates, nextDpds, nextBalances, missed30, missed60, missed90 := Transitions(y, m, mi, b);
      payments := payments + missed30 + missed60 + missed90;
      forall j | 0 <= j < n {
        balances[j] := nextBalances[j];
      }

      var priorStates := states[..];
      var priorBalances := balances[..];
      forall j | 0 <= j < n {
        states[j] := nextStates[j];
      }
      forall j | 0 <= j < n {
        dpds[j] := nextDpds[j];
      }

      Amortization(y, m, mi, b, priorStates);
      var rows, batch := ReportRows(y, m, mi, b, priorStates, priorBalances);
      payments := payments + rows;
      snapshots := snapshots + batch;

      MonthStepBook(loans, b, y, m, mi, states[..], dpds[..], balances[..]);
    }

    /** `if not active_mask.any(): continue`: whether some loan is originated by this month and still open. */
    method AnyActiveNow(y: int, m: int) returns (anyActive: bool)
      requires Valid()
      ensures anyActive <==> AnyActive(loans, Model(), y, m)
    {
      anyActive := false;
      var i := 0;
      while i < |loans|
        invariant 0 <= i <= |loans|
        invariant anyActive <==> exists j :: 0 <= j < i && Active(loans[j], states[j], y, m)
      {
        if Active(loans[i], states[i], y, m) {
          anyActive := true;
        }
        i := i + 1;
      }
    }

    /**
     * The transition masks: each reads the opening state of an active loan
     * and its draw, writes `next_states` and `next_dpds`, zeroes the balance
     * of a payoff or a charge-off, and lists the MISSED row of a roll; the
     * forced payoff then overrides the new position. The zeroed balances are
     * returned beside the next states and committed with them.
     */
    method Transitions(y: int, m: int, mi: MonthInput, ghost b: Book)
      returns (nextStates: seq<LoanState>, nextDpds: seq<int>, nextBalances: seq<real>,
               missed30: seq<PaymentRecord>, missed60: seq<PaymentRecord>, missed90: seq<PaymentRecord>)
      requires Valid() && 1 <= m <= 12 && Fits(loans, b, mi)
      requires b.states == states[..] && b.dpds == dpds[..] && b.balances == balances[..]
      ensures |nextStates| == |loans| && |nextDpds| == |loans| && |nextBalances| == |loans|
      ensures forall j :: 0 <= j < |loans| ==>
        Position(nextStates[j], nextDpds[j], nextBalances[j]) == DrawnAt(loans, b, y, m, mi, j)
      ensures missed30 == MissedRows(loans, b, y, m, mi, Delinquent30, |loans|)
      ensures missed60 == MissedRows(loans, b, y, m, mi, Delinquent60, |loans|)
      ensures missed90 == MissedRows(loans, b, y, m, mi, Delinquent90, |loans|)
    {
      var n := |loans|;
      nextStates, nextDpds, nextBalances := [], [], [];
      missed30, missed60, missed90 := [], [], [];
      var i := 0;
      while i < n
        invariant 0 <= i <= n
        invariant |nextStates| == i && |nextDpds| == i && |nextBalances| == i
        invariant forall j :: 0 <= j < i ==>
          Position(nextStates[j], nextDpds[j], nextBalances[j]) == DrawnAt(loans, b, y, m, mi, j)
        invariant missed30 == MissedRows(loans, b, y, m, mi, Delinquent30, i)
        invariant missed60 == MissedRows(loans, b, y, m, mi, Delinquent60, i)
        invariant missed90 == MissedRows(loans, b, y, m, mi, Delinquent90, i)
      {
        var bal := balances[i];
        var q, roll := TransitionOf(loans[i], Position(states[i], dpds[i], bal), mi.draws[i], mi.params[i], y, m);
        assert q == DrawnAt(loans, b, y, m, mi, i);
        nextStates, nextDpds, nextBalances := nextStates + [q.state], nextDpds + [q.dpd], nextBalances + [q.balance];
        var l, mob := loans[i], MonthsOnBook(loans[i], y, m);
        MissedStep(loans, b, y, m, mi, Delinquent30, i, roll);
        MissedStep(loans, b, y, m, mi, Delinquent60, i, roll);
        MissedStep(loans, b, y, m, mi, Delinquent90, i, roll);
        missed30 := missed30 + (if roll == Some(Delinquent30) then [MissedRow(l, bal, mob, y, m, Delinquent30)] else []);
        missed60 := missed60 + (if roll == Some(Delinquent60) then [MissedRow(l, bal, mob, y, m, Delinquent60)] else []);
        missed90 := missed90 + (if roll == Some(Delinquent90) then [MissedRow(l, bal, mob, y, m, Delinquent90)] else []);
        i := i + 1;
      }
    }

    /**
     * The amortization of every loan that was active at the start of the
     * month and is CURRENT after the commit: 3% of the balance is repaid,
     * the balance is floored at 0, and one under 10 is paid off.
     */
    method Amortization(y: int, m: int, mi: MonthInput, ghost b: Book, priorStates: seq<LoanState>)
      requires Valid() && 1 <= m <= 12 && Fits(loans, b, mi) && priorStates == b.states
      requires forall j :: 0 <= j < |loans| ==>
        Position(states[j], dpds[j], balances[j]) == DrawnAt(loans, b, y, m, mi, j)
      modifies states, balances
      ensures forall j :: 0 <= j < |loans| ==>
        Position(states[j], dpds[j], balances[j]) == SettledAt(loans, b, y, m, mi, j)
    {
      var i := 0;
      while i < |loans|
        invariant 0 <= i <= |loans|
        invariant forall j :: 0 <= j < i ==>
          Position(states[j], dpds[j], balances[j]) == SettledAt(loans, b, y, m, mi, j)
        invariant forall j :: i <= j < |loans| ==>
          Position(states[j], dpds[j], balances[j]) == DrawnAt(loans, b, y, m, mi, j)
      {
        if Active(loans[i], priorStates[i], y, m) && states[i] == Current {
          var principal := balances[i] * 0.03;
          var rest := balances[i] - principal;
          balances[i] := if rest < 0.0 then 0.0 else rest;
          if balances[i] < 10.0 {
            states[i] := PaidOff;
            balances[i] := 0.0;
          }
        }
        i := i + 1;
      }
    }

    /**
     * The report loop over the originated loans in index order: the two
     * skips, the payment row of a CURRENT or newly PAID_OFF loan (its
     * amount, the interest accrued on the prior balance and the
     * interest-first split), and the snapshot row.
     */
    method ReportRows(y: int, m: int, mi: MonthInput, ghost b: Book,
                      priorStates: seq<LoanState>, priorBalances: seq<real>)
      returns (rows: seq<PaymentRecord>, batch: seq<Snapshot>)
      requires Valid() && 1 <= m <= 12 && Fits(loans, b, mi) && priorStates == b.states
      requires |priorBalances| == |loans|
      requires forall j :: 0 <= j < |loans| ==> priorBalances[j] == DrawnAt(loans, b, y, m, mi, j).balance
      requires forall j :: 0 <= j < |loans| ==>
        Position(states[j], dpds[j], balances[j]) == SettledAt(loans, b, y, m, mi, j)
      ensures rows == ReportPayments(loans, b, y, m, mi, |loans|)
      ensures batch == ReportSnapshots(loans, b, y, m, mi, |loans|)
    {
      rows, batch := [], [];
      var i := 0;
      while i < |loans|
        invariant 0 <= i <= |loans|
        invariant rows == ReportPayments(loans, b, y, m, mi, i)
        invariant batch == ReportSnapshots(loans, b, y, m, mi, i)
      {
        var now := Position(states[i], dpds[i], balances[i]);
        var row, snap := ReportOf(loans[i], priorStates[i], now, priorBalances[i], y, m);
        ReportStep(loans, b, y, m, mi, i, now, priorBalances[i]);
        rows := rows + (if row.Some? then [row.value] else []);
        batch := batch + (if snap.Some? then [snap.value] else []);
        i := i + 1;
      }
    }

    /** `while curr_date <= sim_end`: one month step per month from January 2022 on. */
    method Run(endY: int, endM: int, inputs: seq<MonthInput>)
      requires Valid() && InputsFit(loans, inputs) && |inputs| == MonthsThrough(2022, 1, endY, endM)
      modifies this, states, dpds, balances
      ensures Valid()
      ensures Model() == Simulate(loans, old(Model()), 2022, 1, endY, endM, inputs)
    {
      var y, m := 2022, 1;
      var k := 0;
      while MonthIndex(y, m) <= MonthIndex(endY, endM)
        invariant Valid() && 1 <= m <= 12 && 0 <= k <= |inputs|
        invariant |inputs| - k == MonthsThrough(y, m, endY, endM)
        invariant Simulate(loans, Model(), y, m, endY, endM, inputs[k..])
               == Simulate(loans, old(Model()), 2022, 1, endY, endM, inputs)
        decreases |inputs| - k
      {
        ghost var before := Model();
        SimulateMonth(y, m, inputs[k]);
        assert inputs[k..][1..] == inputs[k + 1..];
        var next := NextMonth(y, m);
        y, m, k := next.0, next.1, k + 1;
      }
    }
  }

  /**
   * The masks applied to one loan: an inactive loan is left as it is; an
   * active one has its CURRENT-to-30 probability damped while seasoning,
   * moves as its draw selects from its opening state, and is then forced to
   * PAID_OFF when its months-on-book reaches its payoff month. `roll` is the
   * delinquent state a roll moved it into, which appends a MISSED row.
   */
  method TransitionOf(l: Loan, pos: Position, u: real, params: Params, y: int, m: int)
    returns (q: Position, roll: Option<LoanState>)
    ensures q == Drawn(l, pos, u, params, y, m)
    ensures roll == RollInto(l, pos, u, params, y, m)
  {
    q, roll := pos, None;
    if Active(l, pos.state, y, m) {
      var mob := MonthsOnBook(l, y, m);
      var p := params;
      if mob < 4 {
        p := p.(cTo30 := p.cTo30 * 0.10);
      }
      if pos.state == Current {
        if u < p.cToPaid {
          q := Position(PaidOff, pos.dpd, 0.0);
        } else if u < p.cToPaid + p.cTo30 {
          q := Position(Delinquent30, 30, pos.balance);
          roll := Some(Delinquent30);
        }
      } else if pos.state == Delinquent30 {
        if u < p.d30To60 {
          q := Position(Delinquent60, 60, pos.balance);
          roll := Some(Delinquent60);
        } else if u < p.d30To60 + p.d30ToCure {
          q := Position(Current, 0, pos.balance);
        }
      } else if pos.state == Delinquent60 {
        if u < p.roll {
          q := Position(Delinquent90, 90, pos.balance);
          roll := Some(Delinquent90);
        }
      } else if pos.state == Delinquent90 {
        if u < p.roll {
          q := Position(ChargedOff, 120, 0.0);
        }
      }
      if mob == l.payoffMonth {
        q := Position(PaidOff, 0, 0.0);
      }
    }
  }

  /**
   * The report loop's body for one loan: nothing before origination or
   * when a skip applies; otherwise the payment row, if the state pays a
   * positive amount, and the snapshot row. A loan reported here is never
   * a PAID_OFF loan seen for the second time.
   */
  method ReportOf(l: Loan, prior: LoanState, now: Position, priorBalance: real, y: int, m: int)
    returns (row: Option<PaymentRecord>, snap: Option<Snapshot>)
    requires 1 <= m <= 12
    ensures snap.Some? <==> Originated(l, y, m) && Reported(prior, now)
    ensures snap.Some? ==> !(prior == PaidOff && now.state == PaidOff)
    ensures row.Some? ==> snap.Some? && (now.state == Current || now.state == PaidOff)
    ensures snap.Some? ==> snap.value == SnapshotRow(l, now, MonthsOnBook(l, y, m), y, m)
    ensures row == (if snap.Some? then ReportPayment(l, now.state, priorBalance, MonthsOnBook(l, y, m), y, m) else None)
  {
    row, snap := None, None;
    if Originated(l, y, m) {
      var st := now.state;
      var mob := MonthsOnBook(l, y, m);
      var chargedOffDone := st == ChargedOff && now.balance == 0.0 && now.dpd > 120;
      var alreadyPaidOff := st == PaidOff && prior == PaidOff;
      if !chargedOffDone && !alreadyPaidOff {
        row := ReportPayment(l, st, priorBalance, mob, y, m);
        snap := Some(SnapshotRow(l, now, mob, y, m));
      }
    }
  }

  /** One more loan of the report loop, in terms of its settled position and its prior balance. */
  lemma ReportStep(loans: seq<Loan>, b: Book, y: int, m: int, mi: MonthInput, i: int, now: Position, priorBalance: real)
    requires Fits(loans, b, mi) && 0 <= i < |loans| && 1 <= m <= 12
    requires now == SettledAt(loans, b, y, m, mi, i) && priorBalance == DrawnAt(loans, b, y, m, mi, i).balance
    ensures ReportedAt(loans, b, y, m, mi, i) <==> Originated(loans[i], y, m) && Reported(b.states[i], now)
    ensures var row := ReportPayment(loans[i], now.state, priorBalance, MonthsOnBook(loans[i], y, m), y, m);
      ReportPayments(loans, b, y, m, mi, i + 1)
      == ReportPayments(loans, b, y, m, mi, i) + (if ReportedAt(loans, b, y, m, mi, i) && row.Some? then [row.value] else [])
    ensures ReportSnapshots(loans, b, y, m, mi, i + 1)
      == ReportSnapshots(loans, b, y, m, mi, i)
         + (if ReportedAt(loans, b, y, m, mi, i) then [SnapshotRow(loans[i], now, MonthsOnBook(loans[i], y, m), y, m)] else [])
  {
  }

  /** The book of an active month: the settled positions of the loans, and the month's rows appended. */
  lemma MonthStepBook(loans: seq<Loan>, b: Book, y: int, m: int, mi: MonthInput,
                      ss: seq<LoanState>, ds: seq<int>, bs: seq<real>)
    requires Fits(loans, b, mi) && 1 <= m <= 12 && AnyActive(loans, b, y, m)
    requires |ss| == |loans| && |ds| == |loans| && |bs| == |loans|
    requires forall j :: 0 <= j < |loans| ==> Position(ss[j], ds[j], bs[j]) == SettledAt(loans, b, y, m, mi, j)
    ensures MonthStep(loans, b, y, m, mi) == Book(ss, ds, bs,
      b.payments
      + MissedRows(loans, b, y, m, mi, Delinquent30, |loans|)
      + MissedRows(loans, b, y, m, mi, Delinquent60, |loans|)
      + MissedRows(loans, b, y, m, mi, Delinquent90, |loans|)
      + ReportPayments(loans, b, y, m, mi, |loans|),
      b.snapshots + ReportSnapshots(loans, b, y, m, mi, |loans|))
  {
    var r := MonthStep(loans, b, y, m, mi);
    assert ss == r.states by {
      forall j | 0 <= j < |loans| ensures ss[j] == r.states[j] {
        assert PositionOf(r, j) == SettledAt(loans, b, y, m, mi, j);
      }
    }
    assert ds == r.dpds by {
      forall j | 0 <= j < |loans| ensures ds[j] == r.dpds[j] {
        assert PositionOf(r, j) == SettledAt(loans, b, y, m, mi, j);
      }
    }
    assert bs == r.balances by {
      forall j | 0 <= j < |loans| ensures bs[j] == r.balances[j] {
        assert PositionOf(r, j) == SettledAt(loans, b, y, m, mi, j);
      }
    }
  }

  /** The MISSED rows of loans 0..i are those of loans 0..i-1 and then loan `i`'s, if the draw rolls it. */
  lemma MissedStep(loans: seq<Loan>, b: Book, y: int, m: int, mi: MonthInput, t: LoanState, i: int, roll: Option<LoanState>)
    requires Fits(loans, b, mi) && 0 <= i < |loans| && 1 <= m <= 12
    requires roll == RollAt(loans, b, y, m, mi, i)
    ensures MissedRows(loans, b, y, m, mi, t, i + 1) == MissedRows(loans, b, y, m, mi, t, i)
      + (if roll == Some(t) then [MissedRow(loans[i], b.balances[i], MonthsOnBook(loans[i], y, m), y, m, t)] else [])
  {
  }

  /**
   * `generate_loan_tape`: the payment rows and snapshot rows of the whole
   * run, and what every such tape satisfies when the loans' ids are unique
   * and their terms are the ones the clips guarantee.
   */
  method GenerateLoanTape(loans: seq<Loan>, endY: int, endM: int, inputs: seq<MonthInput>)
    returns (payments: seq<PaymentRecord>, snapshots: seq<Snapshot>)
    requires InputsFit(loans, inputs) && |inputs| == MonthsThrough(2022, 1, endY, endM)
    ensures payments == SimulatedTape(loans, endY, endM, inputs).payments
    ensures snapshots == SimulatedTape(loans, endY, endM, inputs).snapshots
    ensures TapeInvariant.TermsOk(loans) && TapeInvariant.UniqueLoanIds(loans) ==>
      TapeInvariant.AllPaymentsOk(payments)
      && TapeInvariant.PaymentsOwned(payments, snapshots)
      && TapeInvariant.SnapshotsValid(snapshots)
      && TapeInvariant.SnapshotsMissed(snapshots, payments)
      && TapeInvariant.PairsOk(snapshots)
  {
    var sim := new Simulator(loans);
    sim.Run(endY, endM, inputs);
    payments, snapshots := sim.payments, sim.snapshots;
    if TapeInvariant.TermsOk(loans) && TapeInvariant.UniqueLoanIds(loans) {
      TapeInvariant.GeneratedTapeInv(loans, endY, endM, inputs);
    }
  }
}
