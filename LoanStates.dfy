/*
 * The loan states of `generate_loan_tape`, the one-month transition a random
 * draw selects, and the values a state determines: its days past due, its
 * `loan_status` text and the two flags written on every snapshot.
 */
module LoanStates {
  import opened Tables

  /** The integer states 0..5 of the generator's `states` array, in code order. */
  datatype LoanState = Current | Delinquent30 | Delinquent60 | Delinquent90 | ChargedOff | PaidOff

  /** The integer the generator stores for a state. */
  function Code(s: LoanState): (c: nat)
    ensures c <= 5
    ensures StateOfCode(c) == Some(s)
  {
    match s
    case Current => 0
    case Delinquent30 => 1
    case Delinquent60 => 2
    case Delinquent90 => 3
    case ChargedOff => 4
    case PaidOff => 5
  }

  /** The state an integer code stands for; codes outside 0..5 stand for none. */
  function StateOfCode(c: int): (s: Option<LoanState>)
    ensures s.Some? <==> 0 <= c <= 5
  {
    if c == 0 then Some(Current)
    else if c == 1 then Some(Delinquent30)
    else if c == 2 then Some(Delinquent60)
    else if c == 3 then Some(Delinquent90)
    else if c == 4 then Some(ChargedOff)
    else if c == 5 then Some(PaidOff)
    else None
  }

  /** CHARGED_OFF and PAID_OFF: the states the `states < 4` activity test excludes. */
  predicate IsTerminal(s: LoanState) {
    Code(s) >= 4
  }

  predicate IsDelinquent(s: LoanState) {
    s == Delinquent30 || s == Delinquent60 || s == Delinquent90
  }

  /** `status_map`: the `loan_status` text of a snapshot. */
  function StatusText(s: LoanState): (t: string)
    ensures ParseStatus(t) == Some(s)
  {
    match s
    case Current => "CURRENT"
    case Delinquent30 => "DELINQUENT_30"
    case Delinquent60 => "DELINQUENT_60"
    case Delinquent90 => "DELINQUENT_90"
    case ChargedOff => "CHARGED_OFF"
    case PaidOff => "PAID_OFF"
  }

  /** The state whose `loan_status` text is `t`, if any. */
  function ParseStatus(t: string): Option<LoanState> {
    if t == "CURRENT" then Some(Current)
    else if t == "DELINQUENT_30" then Some(Delinquent30)
    else if t == "DELINQUENT_60" then Some(Delinquent60)
    else if t == "DELINQUENT_90" then Some(Delinquent90)
    else if t == "CHARGED_OFF" then Some(ChargedOff)
    else if t == "PAID_OFF" then Some(PaidOff)
    else None
  }

  /** Parsing a status text and printing it back gives the text again: the six texts are told apart. */
  lemma ParseStatusInverse(t: string)
    ensures ParseStatus(t).Some? ==> StatusText(ParseStatus(t).value) == t
    ensures forall a, b :: StatusText(a) == StatusText(b) ==> a == b
  {
  }

  /**
   * The days past due that go with a state once a month is over: rolls set
   * 30, 60, 90 and 120, a cure or a forced payoff sets 0, and a payoff by
   * draw or by amortization leaves the 0 a CURRENT loan already has.
   */
  function DpdOf(s: LoanState): (d: int)
    ensures 0 <= d <= 120
    ensures d == 0 <==> s == Current || s == PaidOff
    ensures d == 120 <==> s == ChargedOff
    ensures IsDelinquent(s) ==> d == 30 * Code(s)
  {
    match s
    case Current => 0
    case Delinquent30 => 30
    case Delinquent60 => 60
    case Delinquent90 => 90
    case ChargedOff => 120
    case PaidOff => 0
  }

  /** `chargeoff_flag`. */
  function ChargeoffFlag(s: LoanState): (f: int)
    ensures f == 0 || f == 1
    ensures f == 1 <==> s == ChargedOff
  {
    if s == ChargedOff then 1 else 0
  }

  /**
   * `default_flag` as written: 1 for every code from 3 up, which takes in
   * PAID_OFF (code 5) although the column is documented as "90+ DPD".
   */
  function DefaultFlagAsWritten(s: LoanState): (f: int)
    ensures f == 0 || f == 1
    ensures f == 1 <==> Code(s) >= 3
  {
    if Code(s) >= 3 then 1 else 0
  }

  /** The flag a paid-off loan receives under the as-written rule, though it is 0 days past due. */
  lemma PaidOffFlaggedAsDefault()
    ensures DefaultFlagAsWritten(PaidOff) == 1 && DpdOf(PaidOff) == 0
  {
  }

  /** `default_flag` as its "90+ DPD" description intends it: exactly the states 90 or more days past due. */
  function DefaultFlag(s: LoanState): (f: int)
    ensures f == 0 || f == 1
    ensures f == 1 <==> DpdOf(s) >= 90
  {
    if s == Delinquent90 || s == ChargedOff then 1 else 0
  }

  /** The five blended transition probabilities of one loan for one month. */
  datatype Params = Params(cTo30: real, cToPaid: real, d30To60: real, d30ToCure: real, roll: real)

  /**
   * The seasoning damper: a loan under four months on book has its
   * CURRENT-to-30 probability cut by 90%; nothing else changes.
   */
  function Seasoned(p: Params, mob: int): (q: Params)
    ensures q.cToPaid == p.cToPaid && q.d30To60 == p.d30To60
    ensures q.d30ToCure == p.d30ToCure && q.roll == p.roll
    ensures mob >= 4 ==> q == p
    ensures mob < 4 ==> q.cTo30 * 10.0 == p.cTo30
    ensures 0.0 <= p.cTo30 ==> 0.0 <= q.cTo30 <= p.cTo30
  {
    if mob < 4 then p.(cTo30 := p.cTo30 * 0.10) else p
  }

  /** The moves one month may make: stay, or one edge of the state machine. */
  predicate OneStep(s: LoanState, t: LoanState) {
    s == t
    || (s == Current && (t == PaidOff || t == Delinquent30))
    || (s == Delinquent30 && (t == Delinquent60 || t == Current))
    || (s == Delinquent60 && t == Delinquent90)
    || (s == Delinquent90 && t == ChargedOff)
  }

  /** A loan's state, days past due and principal balance. */
  datatype Position = Position(state: LoanState, dpd: int, balance: real)

  /**
   * The move the draw `u` selects for one active loan (the masks of the
   * vectorised step): each branch compares `u` with a cumulative
   * probability, reads only the opening state, and writes the next state,
   * the next DPD and, on a payoff or a charge-off, a zero balance.
   */
  function Draw(pos: Position, u: real, p: Params): (q: Position)
    ensures OneStep(pos.state, q.state)
    ensures pos.dpd == DpdOf(pos.state) ==> q.dpd == DpdOf(q.state)
    ensures q.state == pos.state ==> q == pos
    ensures q.state != pos.state && IsTerminal(q.state) ==> q.balance == 0.0
    ensures !IsTerminal(q.state) ==> q.balance == pos.balance
    ensures pos.state == Current ==>
      (q.state == PaidOff <==> u < p.cToPaid)
      && (q.state == Delinquent30 <==> p.cToPaid <= u < p.cToPaid + p.cTo30)
    ensures pos.state == Delinquent30 ==>
      (q.state == Delinquent60 <==> u < p.d30To60)
      && (q.state == Current <==> p.d30To60 <= u < p.d30To60 + p.d30ToCure)
    ensures pos.state == Delinquent60 ==> (q.state == Delinquent90 <==> u < p.roll)
    ensures pos.state == Delinquent90 ==> (q.state == ChargedOff <==> u < p.roll)
  {
    match pos.state
    case Current =>
      if u < p.cToPaid then Position(PaidOff, pos.dpd, 0.0)
      else if u < p.cToPaid + p.cTo30 then Position(Delinquent30, 30, pos.balance)
      else pos
    case Delinquent30 =>
      if u < p.d30To60 then Position(Delinquent60, 60, pos.balance)
      else if u < p.d30To60 + p.d30ToCure then Position(Current, 0, pos.balance)
      else pos
    case Delinquent60 =>
      if u < p.roll then Position(Delinquent90, 90, pos.balance) else pos
    case Delinquent90 =>
      if u < p.roll then Position(ChargedOff, 120, 0.0) else pos
    case ChargedOff => pos
    case PaidOff => pos
  }

  /** CHARGED_OFF is reached only from DELINQUENT_90, and a terminal state never moves. */
  lemma DrawNeverLeavesTerminal(pos: Position, u: real, p: Params)
    ensures IsTerminal(pos.state) ==> Draw(pos, u, p) == pos
    ensures Draw(pos, u, p).state == ChargedOff && pos.state != ChargedOff ==> pos.state == Delinquent90
  {
  }

  /** The total probability of leaving state `s` in one month: the sum of its outgoing edges. */
  function LeaveProbability(s: LoanState, p: Params): real {
    match s
    case Current => p.cToPaid + p.cTo30
    case Delinquent30 => p.d30To60 + p.d30ToCure
    case Delinquent60 => p.roll
    case Delinquent90 => p.roll
    case ChargedOff => 0.0
    case PaidOff => 0.0
  }

  /**
   * With non-negative probabilities, a loan stays where it is exactly when
   * the draw is not below the total probability of leaving its state; and a
   * smaller draw never keeps a loan that a larger one moves.
   */
  lemma DrawStaysIffAboveLeave(pos: Position, u: real, v: real, p: Params)
    requires 0.0 <= p.cTo30 && 0.0 <= p.d30ToCure
    ensures !IsTerminal(pos.state) ==> (Draw(pos, u, p) == pos <==> LeaveProbability(pos.state, p) <= u)
    ensures u <= v && Draw(pos, v, p) != pos ==> Draw(pos, u, p) != pos
  {
  }

  /**
   * The amortization step of a performing loan: 3% of the balance is repaid
   * (floored at 0), and a balance that falls under 10 becomes a natural
   * payoff with balance 0. The DPD is left as it is.
   */
  function Amortize(pos: Position): (q: Position)
    requires pos.state == Current
    ensures q.dpd == pos.dpd
    ensures q.state == Current || q.state == PaidOff
    ensures q.state == PaidOff ==> q.balance == 0.0
    ensures q.state == Current ==> 10.0 <= q.balance
    ensures 0.0 <= q.balance
    ensures 0.0 <= pos.balance ==> q.balance <= pos.balance
    ensures 0.0 < pos.balance ==> q.balance < pos.balance
  {
    var paid := pos.balance - pos.balance * 0.03;
    var b := if paid < 0.0 then 0.0 else paid;
    if b < 10.0 then Position(PaidOff, pos.dpd, 0.0) else Position(Current, pos.dpd, b)
  }
}
