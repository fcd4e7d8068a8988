/*
 * The per-row rules of the generator outside the loan tape: the bureau
 * trade counts of `generate_credit_reports`, the identity score of
 * `generate_fraud_and_transactions`, and the two integrity checks of
 * `validate_dataset`. The random draws are inputs; each rule states the
 * range its draw must come from.
 */
module GeneratorRules {
  import opened Tables
  import opened Counting
  import opened Rules

  /** A float cast to an integer type (`astype(int)`, `cast(pl.Int32)`): truncation toward zero. */
  function Trunc(x: real): (n: int)
    ensures 0.0 <= x ==> 0 <= n && n as real <= x < n as real + 1.0
    ensures x < 0.0 ==> n <= 0 && x <= n as real < x + 1.0
  {
    if x >= 0.0 then x.Floor else -((-x).Floor)
  }

  /** `all_trades_count`: the normal draw clipped below at 1, then truncated. */
  function AllTrades(draw: real): (n: int)
    ensures n >= 1
    ensures n as real <= (if draw < 1.0 then 1.0 else draw)
  {
    Trunc(if draw < 1.0 then 1.0 else draw)
  }

  /**
   * `open_trades_count`: `all_trades_count * (0.6 + random * 0.3)` cast to
   * Int32, the factor lying in [0.6, 0.9). Never negative, never above the
   * trade count, and strictly below it once there is a trade.
   */
  function OpenTrades(all: int, share: real): (open: int)
    requires 0.6 <= share < 0.9
    ensures 0 <= all ==> 0 <= open <= all
    ensures 1 <= all ==> open < all
    ensures 0 <= all ==> all as real * 0.6 - 1.0 < open as real
  {
    if 0 <= all then
      var x := ShareOfCount(all, share);
      Trunc(x)
    else
      Trunc(all as real * share)
  }

  /** A count scaled by a factor in [0.6, 0.9) stays between 60% and 90% of it. */
  function ShareOfCount(all: nat, share: real): (x: real)
    requires 0.6 <= share < 0.9
    ensures x == all as real * share
    ensures all as real * 0.6 <= x <= all as real * 0.9
  {
    ScaleMonotone(all, 0.6, share);
    ScaleMonotone(all, share, 0.9);
    all as real * share
  }

  /** Scaling a count by a larger factor gives no less. */
  lemma {:induction false} ScaleMonotone(n: nat, s: real, t: real)
    requires s <= t
    ensures n as real * s <= n as real * t
  {
    if n > 0 {
      ScaleMonotone(n - 1, s, t);
      assert n as real * s == (n - 1) as real * s + s;
      assert n as real * t == (n - 1) as real * t + t;
    }
  }

  /** The trade counts a generated report carries; the other fields are left as they are. */
  function WithGeneratedTrades(c: CreditReport, draw: real, share: real): CreditReport
    requires 0.6 <= share < 0.9
  {
    var all := AllTrades(draw);
    c.(allTrades := all, openTrades := OpenTrades(all, share))
  }

  /** The reports of `generate_credit_reports` from one trades draw and one share draw per application. */
  function GeneratedReports(reports: seq<CreditReport>, draws: seq<real>, shares: seq<real>): (r: seq<CreditReport>)
    requires |draws| == |shares| == |reports|
    requires forall i :: 0 <= i < |shares| ==> 0.6 <= shares[i] < 0.9
    ensures |r| == |reports|
  {
    seq(|reports|, i requires 0 <= i < |reports| => WithGeneratedTrades(reports[i], draws[i], shares[i]))
  }

  /** The generated trade counts pass SANITY-040 and SANITY-043 of the 1M validator. */
  lemma GeneratedTradesPassSanity(reports: seq<CreditReport>, draws: seq<real>, shares: seq<real>)
    requires |draws| == |shares| == |reports|
    requires forall i :: 0 <= i < |shares| ==> 0.6 <= shares[i] < 0.9
    ensures Count(GeneratedReports(reports, draws, shares), OpenTradesNegative) == 0
    ensures Count(GeneratedReports(reports, draws, shares), OpenTradesAboveAll) == 0
  {
    var g := GeneratedReports(reports, draws, shares);
    forall i | 0 <= i < |g|
      ensures !OpenTradesNegative(g[i]) && !OpenTradesAboveAll(g[i])
    {
      assert g[i] == WithGeneratedTrades(reports[i], draws[i], shares[i]);
    }
  }

  /**
   * `identity_verification_score`: `randint(70, 96)` for an APPROVED
   * application and `randint(10, 61)` otherwise, both drawn for every row
   * and chosen by `np.where`.
   */
  function IdentityScore(approved: bool, high: int, low: int): (score: int)
    requires 70 <= high <= 95 && 10 <= low <= 60
    ensures approved ==> 70 <= score <= 95
    ensures !approved ==> 10 <= score <= 60
  {
    if approved then high else low
  }

  /** One fraud row per application, each with the identity score of its application's decision. */
  predicate ScoredByDecision(apps: seq<Application>, fraud: seq<FraudCheck>, highs: seq<int>, lows: seq<int>)
  {
    |fraud| == |apps| == |highs| == |lows|
    && (forall i :: 0 <= i < |highs| ==> 70 <= highs[i] <= 95 && 10 <= lows[i] <= 60)
    && forall i :: 0 <= i < |fraud| ==>
        fraud[i].applicationId == apps[i].applicationId
        && fraud[i].identityScore == IdentityScore(Approved(apps[i]), highs[i], lows[i])
  }

  /**
   * Generated identity scores pass SANITY-047 (score within 0-100), and a
   * DECLINED application never scores above an APPROVED one.
   */
  lemma GeneratedScoresPassSanity(apps: seq<Application>, fraud: seq<FraudCheck>, highs: seq<int>, lows: seq<int>)
    requires ScoredByDecision(apps, fraud, highs, lows)
    ensures Count(fraud, IdentityScoreOutside) == 0
    ensures forall i, j :: 0 <= i < |fraud| && 0 <= j < |fraud| && Approved(apps[i]) && !Approved(apps[j]) ==>
      fraud[j].identityScore < fraud[i].identityScore
  {
    forall i | 0 <= i < |fraud|
      ensures 10 <= fraud[i].identityScore <= 95
      ensures Approved(apps[i]) ==> 70 <= fraud[i].identityScore
      ensures !Approved(apps[i]) ==> fraud[i].identityScore <= 60
    {
    }
  }

  /** What `validate_dataset` reports: the two counts it prints FAIL for when non-zero. */
  datatype Integrity = Integrity(belowFicoFloor: nat, orphanLoans: nat)

  /**
   * Check 1: APPROVED applications with a FICO under 640. Check 2: loan
   * tape rows whose `application_id` no application has (an anti join).
   */
  function ValidateDataset(apps: seq<Application>, loans: seq<LoanRow>): (r: Integrity)
    ensures r.belowFicoFloor == 0 <==> forall i :: 0 <= i < |apps| ==> !ApprovedBelowFicoFloor(apps[i])
    ensures r.orphanLoans == 0 <==>
      forall i :: 0 <= i < |loans| ==> exists j :: 0 <= j < |apps| && apps[j].applicationId == loans[i].applicationId
    ensures r.belowFicoFloor <= |apps| && r.orphanLoans <= |loans|
  {
    Integrity(
      Count(apps, ApprovedBelowFicoFloor),
      Orphans(loans, apps, (l: LoanRow) => l.applicationId, (a: Application) => a.applicationId))
  }

  /** Only APPROVED rows are held to the floor: adding DECLINED near misses changes nothing. */
  lemma {:induction false} FloorIgnoresDeclined(apps: seq<Application>, declined: seq<Application>, loans: seq<LoanRow>)
    requires forall i :: 0 <= i < |declined| ==> !Approved(declined[i])
    ensures ValidateDataset(apps + declined, loans).belowFicoFloor == ValidateDataset(apps, loans).belowFicoFloor
  {
    CountAppend(apps, declined, ApprovedBelowFicoFloor);
  }
}
