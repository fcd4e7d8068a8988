# Synthetic lending data: generator and sanity validators

This project models, in Dafny, the core of a synthetic consumer-lending data
set and of the validators that audit it.

The generator (`src_remediated/data_generator.py`) simulates a loan tape
month by month. Each funded loan moves through the states CURRENT,
DELINQUENT_30/60/90, CHARGED_OFF and PAID_OFF under a random draw, and
writes monthly snapshot rows and payment rows. The generator also derives
bureau trade counts and identity scores, fills in missing schema columns
(`hydrate_dataframe`), and runs two integrity checks (`validate_dataset`).

Four validators read the resulting tables:

- `complete_sanity_validator_1M.py`: sixty rules, each run by a `check`
  wrapper that records a skip when a rule raises, for instance on a missing
  table. SANITY-018 and SANITY-019 compare a parquet date column with the
  string literal "2026-01-09". Polars 1.x refuses that comparison, so both
  rules are skipped. Older versions cast the literal to a date. The model
  takes that choice of version as a parameter (`Sanity1M.DateLiteral`).
- `qa_review/complete_sanity_validator.py`: fifty-nine guarded checks with
  tolerances, logged by `log_result` with a failure counter.
- `qa_review/sanity_check_validator.py`: twenty-nine of those checks at
  tolerance 0.
- `qa_review/extended_validation_suite.py`: thirty-one checks with PASS,
  FAIL, WARN and SKIP rows. A check that divides by an empty table ends
  the run.

Module layout:

| module | what it holds |
|---|---|
| `Tables` | the seven tables as rows plus present columns, dates, `load_data`'s set of loaded tables |
| `Text` | `in` on strings, ASCII `lower`, integer formatting, UTF-8 length |
| `Counting` | `len(filter)`, anti joins, `unique`, and the `shift(1).over("loan_id")` window filters |
| `Rules` | the row predicates and counts of the sanity rules |
| `LoanStates` | the state codes, DPD, flags, the per-loan draw and amortization |
| `LoanTape` | one month of the simulation as a function of the book, and the fold over months |
| `TapeInvariant` | the invariant every month keeps, proved for the whole generated tape |
| `LoanTapeSimulation` | the month loop as a class over arrays, proved equal to `LoanTape` |
| `GeneratorRules` | trade counts, identity scores, `validate_dataset` |
| `Hydration` | `hydrate_dataframe` as a method over a column map |
| `QaLog` | `log_result`, the failure counter and the exit code of the qa_review validators |
| `CompleteSanity`, `SanityCheck`, `Sanity1M`, `ExtendedSuite` | one module per validator: guards, counts, run order, summary |

Random draws are inputs. Each function that uses a draw states the range
the draw must come from: the uniform transition draw, the blended
probabilities, the `0.6 + random * 0.3` share, and the identity-score
integers. Floats are modelled as `real`, so arithmetic is exact.

Where the repository's specification and the code differ, the model follows
the code:

- The open-trades count is truncated by an Int32 cast, so a report with 12
  trades gets 7 to 10 open trades, not up to 11.
- The charge-off skip of the report loop (`st_code == 4 and bal == 0 and
  dpd > 120`) never fires, because a charged-off loan has DPD 120 exactly.
  Charged-off loans are therefore reported again every month
  (`LoanTape.ChargedOffSkipNeverApplies`).

## Model

| member | source | states |
|---|---|---|
| LoanStates.Code | src_remediated/data_generator.py:264 | every state's integer code is in 0..5 and maps back to the state |
| LoanStates.StateOfCode | src_remediated/data_generator.py:500 | a code stands for a state exactly when it lies in 0..5 |
| LoanStates.StatusText | src_remediated/data_generator.py:500 | the `status_map` text of a state parses back to that state |
| LoanStates.ParseStatusInverse | src_remediated/data_generator.py:500 | parsing then printing a status text is the identity, and no two states share a text |
| LoanStates.DpdOf | src_remediated/data_generator.py:344-474 | the DPD that goes with each state: 0 exactly for CURRENT and PAID_OFF, 120 exactly for CHARGED_OFF, 30 times the code for the delinquent states |
| LoanStates.ChargeoffFlag | src_remediated/data_generator.py:585 | `chargeoff_flag` is 1 exactly for CHARGED_OFF |
| LoanStates.DefaultFlagAsWritten | src_remediated/data_generator.py:586 | `default_flag` as written is 1 exactly for codes 3 and above |
| LoanStates.PaidOffFlaggedAsDefault | src_remediated/data_generator.py:586 | a PAID_OFF loan, at DPD 0, gets default flag 1 under the written rule |
| LoanStates.DefaultFlag | src_remediated/data_generator.py:586 | corrected flag: 1 exactly for states at 90 or more days past due |
| LoanStates.Seasoned | src_remediated/data_generator.py:330-334 | under four months on book only the CURRENT-to-30 probability is cut to a tenth; otherwise the parameters are unchanged |
| LoanStates.Draw | src_remediated/data_generator.py:344-458 | a draw makes one edge of the state machine or stays put, keeps DPD in step with the state, zeroes the balance on a move into a terminal state and keeps it otherwise; from CURRENT it pays off exactly when `u < p_c_paid` and rolls to 30 exactly when `p_c_paid <= u < p_c_paid + p_c_30`; from 30 it rolls exactly when `u < p_30_60` and cures exactly in the next band; from 60 and 90 it rolls exactly when `u < p_roll` |
| LoanStates.DrawStaysIffAboveLeave | src_remediated/data_generator.py:344-458 | with non-negative probabilities an active loan stays exactly when the draw is not below the sum of its state's outgoing probabilities, and a smaller draw never keeps a loan a larger one moves |
| LoanStates.DrawNeverLeavesTerminal | src_remediated/data_generator.py:344-458 | CHARGED_OFF and PAID_OFF never move, and CHARGED_OFF is reached only from DELINQUENT_90 |
| LoanStates.Amortize | src_remediated/data_generator.py:482-495 | a performing loan ends CURRENT with balance at least 10, or PAID_OFF with balance 0; a positive balance strictly falls |
| LoanTape.LoanAmount | src_remediated/data_generator.py:245 | the amount lies in [1000, 50000] and equals 15% of income inside the clip |
| LoanTape.LoanAmountMonotone | src_remediated/data_generator.py:245 | a higher income never gets a smaller loan |
| LoanTape.PricedRate | src_remediated/data_generator.py:249-256 | the rate lies in [6%, 25%] and equals the pricing curve inside the clip |
| LoanTape.PricedRateMonotone | src_remediated/data_generator.py:249-256 | a better FICO or a lower DTI never prices higher |
| LoanTape.NextMonth | src_remediated/data_generator.py:607 | `(d + 32 days).replace(day=1)` is the next calendar month |
| LoanTape.MonthEnd | src_remediated/data_generator.py:281 | `month_end` is the month's last day (28 to 31), after its first day |
| LoanTape.MonthEndBeforeLater | src_remediated/data_generator.py:281 | a month end precedes the first day of every later month |
| LoanTape.MonthsOnBook | src_remediated/data_generator.py:301-303 | months on book is clipped to [1, 60] and equals the month difference inside the clip |
| LoanTape.MonthsOnBookRepeatsAtStart | src_remediated/data_generator.py:301-303 | the origination month and the month after it both report months on book 1 |
| LoanTape.DrawnMoves | src_remediated/data_generator.py:344-474 | after the draw and the forced payoff a loan makes one allowed move, an inactive loan is untouched, and the payoff month forces PAID_OFF with DPD and balance 0 |
| LoanTape.Settled | src_remediated/data_generator.py:344-495 | the end-of-month position makes one allowed move, terminal loans stay, and a non-negative balance never rises |
| LoanTape.RollInto | src_remediated/data_generator.py:358-446 | a MISSED row is written exactly for an active loan the draw rolls one delinquency step deeper |
| LoanTape.PaymentStatusText | src_remediated/data_generator.py:513-540 | the three `payment_status` texts are told apart |
| LoanTape.MonthlyInterest | src_remediated/data_generator.py:544 | interest accrued on a non-negative balance at a non-negative rate is non-negative |
| LoanTape.MissedRow | src_remediated/data_generator.py:365-381 | a MISSED row pays nothing, belongs to its loan, and is dated the month end |
| LoanTape.InterestFirstSplit | src_remediated/data_generator.py:548-562 | principal plus interest is the amount paid; interest is paid first up to what accrued |
| LoanTape.ReportPayment | src_remediated/data_generator.py:513-576 | only CURRENT (1/36 of the amount, PAID) and PAID_OFF (the prior balance, PAID_OFF) loans write a payment, and only for a positive amount; the components sum to the amount |
| LoanTape.QuarterLabel | src_remediated/data_generator.py:596 | `vintage_quarter` is the year and a quarter number in 1..4 |
| LoanTape.MonthLabelIsStrftime | qa_review/extended_validation_suite.py:322-338 | the generator's `f"{y}-{m:02d}"` vintage label equals the `%Y-%m` that TMP-010 compares it with, for four-digit years |
| LoanTape.SnapshotRow | src_remediated/data_generator.py:578-602 | a snapshot carries the loan's id, state, DPD and balance, dated the month end; `chargeoff_flag` is 1 exactly for CHARGED_OFF; the default flag is 1 exactly for DELINQUENT_90 and CHARGED_OFF, and equals the written `st_code >= 3` on every state but PAID_OFF |
| LoanTape.ChargedOffSkipNeverApplies | src_remediated/data_generator.py:508-511 | with DPD in step with the state, a loan is reported unless it was and is PAID_OFF |
| LoanTape.MonthStep | src_remediated/data_generator.py:279-607 | one month sets every loan to its settled position and only appends rows |
| LoanTape.MonthStepMoves | src_remediated/data_generator.py:279-607 | over a month every loan makes one allowed move, terminal loans keep their position, and no balance rises |
| LoanTape.InitialBook | src_remediated/data_generator.py:264-276 | every loan starts CURRENT at DPD 0 with its full amount, with no rows written |
| LoanTape.MonthsThrough | src_remediated/data_generator.py:279 | the loop runs no month exactly when the end month precedes the start month |
| LoanTape.Simulate | src_remediated/data_generator.py:279-607 | the month loop keeps one position per loan and only appends rows |
| TapeInvariant.UniqueApplicationsGiveUniqueLoanIds | src_remediated/data_generator.py:243 | distinct application ids give distinct `LN-` loan ids |
| TapeInvariant.MonthStepKeepsInv | src_remediated/data_generator.py:279-607 | one month keeps the tape invariant: DPD matches state, balances within [0, amount] and 0 when closed, delinquent loans have a MISSED row, payments balance and belong to reported loans, snapshots of a loan move forward without a rising balance, without leaving CHARGED_OFF and with nothing after PAID_OFF |
| TapeInvariant.InitialBookInv | src_remediated/data_generator.py:264-276 | the opening book satisfies the invariant |
| TapeInvariant.SimulateKeepsInv | src_remediated/data_generator.py:279-607 | every run of the month loop keeps the invariant |
| TapeInvariant.GeneratedTapeInv | src_remediated/data_generator.py:178-613 | the generated tape satisfies the invariant, for loans with sound terms and distinct ids |
| LoanTapeSimulation.Simulator.constructor | src_remediated/data_generator.py:264-276 | the arrays start as the initial book |
| LoanTapeSimulation.Simulator.SimulateMonth | src_remediated/data_generator.py:281-607 | the in-place month updates the arrays and lists to exactly `MonthStep` of the old book |
| LoanTapeSimulation.Simulator.AnyActiveNow | src_remediated/data_generator.py:288-295 | answers whether some loan is originated and not terminal |
| LoanTapeSimulation.Simulator.Transitions | src_remediated/data_generator.py:344-474 | the next-state vectors are each loan's drawn position, and the three MISSED batches are the rolls into 30, 60 and 90 in loan order |
| LoanTapeSimulation.Simulator.Amortization | src_remediated/data_generator.py:476-495 | the committed arrays are each loan's settled position |
| LoanTapeSimulation.Simulator.ReportRows | src_remediated/data_generator.py:498-604 | the report loop appends exactly the month's payment rows and snapshot rows |
| LoanTapeSimulation.Simulator.Run | src_remediated/data_generator.py:279-607 | the whole loop leaves exactly `Simulate` of the old book |
| LoanTapeSimulation.TransitionOf | src_remediated/data_generator.py:344-474 | one loan's drawn position and roll, as `Drawn` and `RollInto` |
| LoanTapeSimulation.ReportOf | src_remediated/data_generator.py:504-603 | a loan is reported exactly when originated and not skipped; a payment comes only with a snapshot and only for CURRENT or PAID_OFF |
| LoanTapeSimulation.ReportStep | src_remediated/data_generator.py:504-603 | the report loop over one more loan adds that loan's rows |
| LoanTapeSimulation.MonthStepBook | src_remediated/data_generator.py:476-604 | the committed arrays with the month's rows appended are the month step |
| LoanTapeSimulation.MissedStep | src_remediated/data_generator.py:365-446 | the MISSED rows over one more loan add that loan's row if it rolls |
| LoanTapeSimulation.GenerateLoanTape | src_remediated/data_generator.py:178-613 | returns the simulated tape's payments and snapshots, which satisfy the tape invariant |
| GeneratorRules.Trunc | src_remediated/data_generator.py:132 | a float cast to an integer truncates toward zero |
| GeneratorRules.AllTrades | src_remediated/data_generator.py:101-116 | `all_trades_count` is at least 1 and at most the clipped draw |
| GeneratorRules.OpenTrades | src_remediated/data_generator.py:132 | open trades lie between 0 and all trades, strictly below once there is a trade, and above 60% less one |
| GeneratorRules.ShareOfCount | src_remediated/data_generator.py:132 | a count times a factor in [0.6, 0.9) lies between 60% and 90% of it |
| GeneratorRules.GeneratedTradesPassSanity | validation_results/complete_sanity_validator_1M.py:288-303 | generated reports never fail SANITY-040 (negative open trades) or SANITY-043 (open above all) |
| GeneratorRules.IdentityScore | src_remediated/data_generator.py:626-636 | an APPROVED application scores 70-95, any other 10-60 |
| GeneratorRules.GeneratedScoresPassSanity | validation_results/complete_sanity_validator_1M.py:325-327 | generated scores pass SANITY-047 and every approved score exceeds every declined one |
| GeneratorRules.ValidateDataset | src_remediated/data_generator.py:784-820 | the FICO count is 0 exactly when no APPROVED application is under 640; the orphan count is 0 exactly when every loan row has an application |
| GeneratorRules.FloorIgnoresDeclined | src_remediated/data_generator.py:797-800 | adding non-approved applications never changes the FICO count |
| Hydration.Names | src_remediated/data_generator.py:700 | the schema's column names, in order |
| Hydration.DefaultFor | src_remediated/data_generator.py:715-770 | id columns get null; a count column gets an integer default; only trade counts on a frame with `all_trades_count` derive from it, and only open-trade counts take the random share |
| Hydration.ScaledCell | src_remediated/data_generator.py:733-742 | an Int32 cast of `all_trades_count * f` stays within [0, count], strictly below once the count is 1 or more; null stays null |
| Hydration.ScaleCount | src_remediated/data_generator.py:736-742 | a count times a factor in [0, 0.9) lies in [0, 0.9 count] |
| Hydration.Fill | src_remediated/data_generator.py:772-775 | a default column has one cell per row |
| Hydration.ColumnFor | src_remediated/data_generator.py:704-780 | the column kept for a schema entry is the frame's own or its default, one cell per row |
| Hydration.Present | src_remediated/data_generator.py:779 | the names kept are those present, and all of them when all are present |
| Hydration.Hydrate | src_remediated/data_generator.py:688-782 | without a schema the frame is returned as is; with one, the result has exactly the schema's columns in order, existing columns untouched and missing ones defaulted |
| Hydration.HydrateTwice | src_remediated/data_generator.py:688-782 | hydrating a hydrated frame again changes nothing |
| Hydration.IdColumnsStayNull | src_remediated/data_generator.py:722-723 | a missing id column is all nulls |
| Hydration.TradeDefaultsWithinAllTrades | src_remediated/data_generator.py:731-744 | a derived trade count never exceeds `all_trades_count`, and an open-trade count stays below it once there is a trade |
| Text.Lower | src_remediated/data_generator.py:719 | lower-casing keeps the length and maps each ASCII capital |
| Text.Utf8Length | qa_review/extended_validation_suite.py:529-563 | `str.len_bytes` lies between the character count and four times it, and equals it for ASCII |
| Tables.Loaded | qa_review/complete_sanity_validator.py:30-44 | the loaded tables are exactly those whose file was found |
| Counting.WindowCount | qa_review/complete_sanity_validator.py:1070-1116 | a window filter keeps nothing exactly when no row is bad against its loan's previous row |
| Counting.WindowLoans | qa_review/complete_sanity_validator.py:1003-1045 | the distinct loans a window filter flags are none exactly when no row is flagged |
| Counting.FirstRowNeverFlagged | qa_review/complete_sanity_validator.py:1070-1116 | a loan's first row in sorted order has no previous row and is never flagged |
| Counting.WindowClean | qa_review/complete_sanity_validator.py:1003-1116 | when no earlier row of a loan is bad against a later one, the window checks count 0 |
| Counting.ChainedWindowClean | qa_review/complete_sanity_validator.py:1003-1116 | the same when snapshots of a loan are strictly dated in input order |
| Counting.FilterKeepsChained | qa_review/complete_sanity_validator.py:1047-1068 | filtering before the window keeps a per-loan chain a chain |
| Counting.Filter | qa_review/complete_sanity_validator.py:86-100 | `filter` keeps exactly the rows the predicate holds for, as many as it counts |
| Counting.Unique | qa_review/complete_sanity_validator.py:319-341 | `unique` keeps every value once |
| Rules.Orphans | qa_review/complete_sanity_validator.py:118-130 | an anti join is empty exactly when every left key occurs on the right |
| Rules.Latest | qa_review/complete_sanity_validator.py:196-216 | `max` of dates is null exactly on no values, else the largest value |
| Rules.Earliest | qa_review/complete_sanity_validator.py:218-239 | `min` of dates is null exactly on no values, else the smallest value |
| Rules.LatestBefore | qa_review/complete_sanity_validator.py:196-216 | `max(ds) < x` holds exactly when there is a value and all are before `x` |
| Rules.EarliestBefore | qa_review/complete_sanity_validator.py:218-239 | `min(ds) < x` holds exactly when some value is before `x` |
| Rules.FundedNotApproved | qa_review/complete_sanity_validator.py:70-84 | SANITY-001 counts 0 exactly when every loan joined to an application has an APPROVED one |
| Rules.ReceivedAfterPayoffMeans | qa_review/complete_sanity_validator.py:196-216 | SANITY-009 flags a payment exactly when it was received after every PAID_OFF snapshot of its loan, of which there is one |
| Rules.ReceivedAfterChargeoffMeans | qa_review/complete_sanity_validator.py:218-239 | SANITY-010 flags a payment with an amount exactly when some CHARGED_OFF snapshot of its loan predates its receipt |
| Rules.FirstReceiptBeforeMeans | qa_review/complete_sanity_validator.py:415-439 | SANITY-020 flags a loan exactly when some payment was received before origination |
| Rules.FirstDueBeforeMeans | validation_results/complete_sanity_validator_1M.py:162-170 | the 1M SANITY-020 flags a loan exactly when some payment falls due before funding |
| Rules.LoanCountGap | validation_results/complete_sanity_validator_1M.py:397-403 | SANITY-057 reports the gap between loan counts only when it exceeds 1000 |
| Rules.DuplicateApplicationIds | qa_review/complete_sanity_validator.py:1144-1160 | SANITY-060 counts 0 exactly when application ids are distinct |
| QaLog.Judged | qa_review/complete_sanity_validator.py:46-48 | a row is PASS exactly when the count does not exceed the tolerance, FAIL otherwise |
| QaLog.Failures | qa_review/complete_sanity_validator.py:49-50 | the failure counter never exceeds the number of rows |
| QaLog.FailuresAreFailRows | qa_review/complete_sanity_validator.py:1279 | the counter equals the number of FAIL rows the report filters |
| QaLog.ExitCode | qa_review/complete_sanity_validator.py:1317 | the exit status is 0 or 1 |
| QaLog.MainOutcomeOf | qa_review/complete_sanity_validator.py:1270-1279 | the summary raises exactly when no row was logged (no Status column) |
| QaLog.ExitCodeMeansAllPassed | qa_review/complete_sanity_validator.py:1279-1317 | exit 0 exactly when no failure was counted, that is when every row passed |
| QaLog.SanityValidator.constructor | qa_review/complete_sanity_validator.py:24-28 | starts with no rows and the counter consistent |
| QaLog.SanityValidator.LogResult | qa_review/complete_sanity_validator.py:46-68 | appends the judged row and raises the counter exactly on FAIL |
| QaLog.RunChecks | qa_review/complete_sanity_validator.py:1162-1253 | the rows and counter a run leaves are the logged rows and their failures |
| QaLog.LoggedRows | qa_review/complete_sanity_validator.py:1162-1253 | a row is logged exactly for a run check whose report is present, with that report |
| QaLog.ExitCodeIffAllWithin | qa_review/complete_sanity_validator.py:1162-1317 | exit 0 exactly when every logged check is within its tolerance |
| QaLog.LoggedNotEmpty | qa_review/complete_sanity_validator.py:1162-1253 | a run containing an always-logging check is never empty |
| QaLog.LoggedMasked | qa_review/sanity_check_validator.py:662-724 | masking reports to some checks keeps exactly the rows of those checks in order |
| QaLog.LoggedSubsequence | qa_review/sanity_check_validator.py:662-724 | running a sub-list of checks equals running all with the others masked |
| QaLog.IncreasingUnique | qa_review/sanity_check_validator.py:662-724 | two increasing check lists with the same members are equal |
| CompleteSanity.Report | qa_review/complete_sanity_validator.py:70-1160 | a method logs only when it exists, with its count |
| CompleteSanity.RunOrder | qa_review/complete_sanity_validator.py:1162-1253 | 59 checks, exactly the numbers 1..60 except 53 |
| CompleteSanity.RunAll | qa_review/complete_sanity_validator.py:1162-1253 | the rows are the logged reports in run order and the counter their failures |
| CompleteSanity.RowIffGuardLoaded | qa_review/complete_sanity_validator.py:70-1160 | a row for check k exists exactly when k exists and every table of its guard was loaded; it carries k's count and tolerance |
| CompleteSanity.RunNeverEmpty | qa_review/complete_sanity_validator.py:441-468 | SANITY-021 always logs, so the summary's percentages never divide by zero |
| CompleteSanity.ExitCodeIffWithinTolerance | qa_review/complete_sanity_validator.py:1256-1317 | exit 0 exactly when every guarded-in check is within its tolerance |
| CompleteSanity.UnscaledToleratesNothing | qa_review/complete_sanity_validator.py:46 | the checks without a scaled tolerance log tolerance 0 |
| CompleteSanity.UnscaledRowPassesIffClean | qa_review/complete_sanity_validator.py:46-48 | such a row passes exactly when its count is 0 |
| CompleteSanity.ToleranceFloors | qa_review/complete_sanity_validator.py:740-764 | SANITY-038 and SANITY-052 tolerate at least one violation; the proportional tolerances are 0 on empty tables |
| SanityCheck.RunOrder | qa_review/sanity_check_validator.py:662-724 | the checks run are exactly the twenty-nine included ones |
| SanityCheck.RunOrderStepsUp | qa_review/sanity_check_validator.py:662-724 | the run order is strictly ascending |
| SanityCheck.Report | qa_review/sanity_check_validator.py:69-660 | a method logs only for an included check, at tolerance 0 |
| SanityCheck.RunAll | qa_review/sanity_check_validator.py:662-724 | the rows are the logged reports in run order and the counter their failures |
| SanityCheck.IncludedUnscaled | qa_review/sanity_check_validator.py:69-660 | every included check is one of the complete validator's unscaled checks |
| SanityCheck.ReportIsMaskedComplete | qa_review/sanity_check_validator.py:69-660 | each method logs what the complete validator's method of that number logs |
| SanityCheck.RunOrderIsSubsequence | qa_review/sanity_check_validator.py:662-724 | the run order is the complete validator's restricted to the included checks |
| SanityCheck.SameRowsAsComplete | qa_review/sanity_check_validator.py:662-724 | the rows are exactly the complete validator's rows for the included checks, in order |
| SanityCheck.RowPassesIffClean | qa_review/sanity_check_validator.py:45-48 | a row passes exactly when its count is 0 |
| SanityCheck.GuardMeetsMainTables | qa_review/sanity_check_validator.py:69-660 | every included check reads one of applications, loan_tape, payments, credit_reports |
| SanityCheck.SoleReader | qa_review/sanity_check_validator.py:69-660 | each of those tables is the only guard of some included check |
| SanityCheck.LogsWhenLoaded | qa_review/sanity_check_validator.py:662-724 | one loaded main table is enough for a row |
| SanityCheck.RowNeedsMainTable | qa_review/sanity_check_validator.py:662-724 | a row means some main table was loaded |
| SanityCheck.MainFailsIffMainTablesMissing | qa_review/sanity_check_validator.py:727-736 | the summary raises exactly when none of the main tables was loaded |
| SanityCheck.ExitCodeIffClean | qa_review/sanity_check_validator.py:727-752 | exit 0 exactly when every guarded-in check counted nothing |
| Sanity1M.Needs | validation_results/complete_sanity_validator_1M.py:59-411 | every rule reads one of the five main tables |
| Sanity1M.Recorded | validation_results/complete_sanity_validator_1M.py:35-52 | `check` records SKIP exactly on an exception, PASS exactly on count 0, FAIL on a positive count, and -1 exactly for SKIP |
| Sanity1M.Tally | validation_results/complete_sanity_validator_1M.py:30-33 | a tally never exceeds the rows |
| Sanity1M.TallyZero | validation_results/complete_sanity_validator_1M.py:35-52 | a tally is 0 exactly when no row has that status |
| Sanity1M.CheckLedger.constructor | validation_results/complete_sanity_validator_1M.py:30-33 | no rows, tallies consistent |
| Sanity1M.CheckLedger.Check | validation_results/complete_sanity_validator_1M.py:35-52 | appends the recorded row, raises exactly one tally, and returns the count or nothing on a skip |
| Sanity1M.Outcomes | validation_results/complete_sanity_validator_1M.py:59-411 | one outcome per rule |
| Sanity1M.Results | validation_results/complete_sanity_validator_1M.py:59-411 | one row per outcome |
| Sanity1M.RunAllSanityChecks | validation_results/complete_sanity_validator_1M.py:11-451 | the rows are the recorded outcomes and the result is their summary |
| Sanity1M.SummaryFailsIffAllSkipped | validation_results/complete_sanity_validator_1M.py:420-422 | the summary divides by zero exactly when every rule was skipped |
| Sanity1M.SummarySucceedsIff | validation_results/complete_sanity_validator_1M.py:420-451 | the run returns true exactly when some rule ran and every rule that ran counted 0 |
| Sanity1M.SkippedIffMissingOrRefused | validation_results/complete_sanity_validator_1M.py:35-52 | a rule is skipped exactly when it reads a missing table or is SANITY-018/019 under a polars that refuses the date-to-string comparison, and otherwise records its count |
| Sanity1M.MainTablesMissingSkipsRule | validation_results/complete_sanity_validator_1M.py:59-411 | without the main tables every rule is skipped |
| Sanity1M.MainTableRunsRule | validation_results/complete_sanity_validator_1M.py:59-411 | each loaded main table lets some rule run |
| Sanity1M.SummaryFailsIffMainTablesMissing | validation_results/complete_sanity_validator_1M.py:420-422 | the summary divides by zero exactly when no main table was loaded |
| Sanity1M.FullDatasetSkipsOnlyDateRules | validation_results/complete_sanity_validator_1M.py:59-411 | with all seven tables every rule records its count, except SANITY-018/019, which are skipped exactly when polars refuses the date literal |
| Sanity1M.FullDatasetVerdict | validation_results/complete_sanity_validator_1M.py:420-451 | with all seven tables the run returns whether every rule that can compare its dates counted 0; refused SANITY-018/019 never decide it |
| ExtendedSuite.Counted | qa_review/extended_validation_suite.py:68-83 | zero-tolerance checks: PASS exactly on count 0, FAIL otherwise |
| ExtendedSuite.UnderShare | qa_review/extended_validation_suite.py:344-371 | share checks: PASS exactly when the count is under the share of the total |
| ExtendedSuite.Within | qa_review/extended_validation_suite.py:610-625 | range checks: PASS with 0 exactly when the percentage is within the bounds, else WARN with 1 |
| ExtendedSuite.RangeRows | qa_review/extended_validation_suite.py:610-689 | a range check past its guard divides by a positive row count |
| ExtendedSuite.DivisorNotEmpty | qa_review/extended_validation_suite.py:610-665 | a range check that does not raise has a non-empty divisor table |
| ExtendedSuite.ZeroVerdict | qa_review/extended_validation_suite.py:140-185 | INT-008 logs nothing exactly without `customer_id` on both sides; POL-002 skips exactly without its column |
| ExtendedSuite.RangeVerdict | qa_review/extended_validation_suite.py:667-689 | STAT-004 skips exactly when no loan is 12 months on book |
| ExtendedSuite.Judge | qa_review/extended_validation_suite.py:68-689 | the verdict of each check past its guard: the skip cases exactly, and its severity otherwise |
| ExtendedSuite.RunOf | qa_review/extended_validation_suite.py:695-759 | a run has at most one row per check, and stops at a check that raises |
| ExtendedSuite.SectionOf | qa_review/extended_validation_suite.py:695-759 | every check belongs to one section of `run_all` |
| ExtendedSuite.ExtendedValidator.constructor | qa_review/extended_validation_suite.py:28-33 | starts with no rows |
| ExtendedSuite.ExtendedValidator.LogResult | qa_review/extended_validation_suite.py:51-62 | appends the row and nothing else |
| ExtendedSuite.ExtendedValidator.Perform | qa_review/extended_validation_suite.py:68-689 | one check appends its row if it logs, and reports whether it raised |
| ExtendedSuite.ExtendedValidator.RunChecks | qa_review/extended_validation_suite.py:695-759 | the checks in order append exactly the run's rows and name the raising check |
| ExtendedSuite.ExtendedValidator.RunAll | qa_review/extended_validation_suite.py:695-759 | `run_all` appends the rows of the run order and raises where it does |
| ExtendedSuite.RunOfAppend | qa_review/extended_validation_suite.py:695-759 | a run of two lists: the second runs only if the first raised nothing |
| ExtendedSuite.RaisesIffSomeCheckRaises | qa_review/extended_validation_suite.py:695-759 | a run raises exactly when one of its checks raises |
| ExtendedSuite.CompletedRows | qa_review/extended_validation_suite.py:695-759 | in a run that does not raise, the rows are exactly the rows of the checks that log |
| ExtendedSuite.FirstRaiser | qa_review/extended_validation_suite.py:695-759 | the run raises at the first raising check |
| ExtendedSuite.EveryCheckRuns | qa_review/extended_validation_suite.py:695-759 | `run_all` calls every check |
| ExtendedSuite.RaisesOnEmptyDivisor | qa_review/extended_validation_suite.py:610-665 | a check raises exactly when it divides by the height of a loaded, empty table |
| ExtendedSuite.RunRaisesAt | qa_review/extended_validation_suite.py:695-759 | HYD-008 raises on empty payments, else STAT-002 on empty applications, else the run completes |
| ExtendedSuite.AprSpreadShare | qa_review/extended_validation_suite.py:391-407 | FIN-006 passes exactly while under 1% of loan rows have a suspicious APR spread |
| ExtendedSuite.FicoGapShare | qa_review/extended_validation_suite.py:483-502 | LOG-008 passes exactly while under 5% of joined pairs differ by more than 20 points |
| ExtendedSuite.EmptyTapeFailsShareChecks | qa_review/extended_validation_suite.py:344-407 | on an empty loaded loan tape FIN-003 and FIN-006 FAIL with 0 violations |
| ExtendedSuite.DtiCeilingVerdict | qa_review/extended_validation_suite.py:165-185 | POL-002 skips without the DTI column and otherwise counts APPROVED rows above 0.50 |
| ExtendedSuite.RunAllRows | qa_review/extended_validation_suite.py:695-759 | with non-empty payments and applications the rows are exactly one per logging check, with its verdict |
| ExtendedSuite.FraudGroupsFlagged | qa_review/extended_validation_suite.py:119-138 | INT-006 flags an application exactly when it has two or more fraud records |
| ExtendedSuite.NegativeBalanceCoversPrincipal | qa_review/extended_validation_suite.py:565-582 | DQ-011 counts at least every row SANITY-024 counts |

## Left out

- Printing, CSV and parquet I/O, and the wall clock are not modelled. The report tables' names and details texts are not modelled either.
- The random draws (`np.random`, `scipy.stats`), the archetype predictor and the `einsum` blend are inputs of the model.
- The float `pow` annuity formula of `scheduled_payment_amount` and FIN-003 is not modelled. FIN-003's per-loan mismatch is an input predicate.
- The generator's other tables (applications, tradelines, bank transactions, code tables) are outside the core. Their filler columns are not modelled.
- Age computations that divide days by 365.25 are modelled on whole dates. The percentage summaries of the `__main__` blocks are not modelled.
- Reals are exact, so float rounding is not modelled. Int32 overflow of the casts is not modelled either.
- ExtendedSuite.UnderShare: compares `count * divisor < total` exactly. The float comparison `count < total * share` agrees with it below 2^50 rows.
- ExtendedSuite.Within: compares the percentage exactly, not as a float.
- CompleteSanity.Report: tolerances such as `int(n * 0.05)` are integer quotients. The float products agree for table sizes below 2^50.
- Hydration.Hydrate: requires distinct schema names and a numeric `all_trades_count`, because polars raises on both otherwise. It models no cast step; the source does none.
- Hydration.Hydrate: the open-trade share draws are a per-column input.
- An exception for a column missing from a loaded frame (a polars `ColumnNotFoundError`) is not modelled. Columns are present when the table is, except those the checks themselves test for.
- Polars' sort is not stable: rows with equal (loan_id, snapshot_date) keep their input order in the model.
- LoanTape.SnapshotRow: writes the corrected default flag (`LoanStates.DefaultFlag`), not line 586's `st_code >= 3`. A PAID_OFF snapshot therefore carries 0 where the program writes 1 (see Findings); every other state gets the same flag.
- LoanTapeSimulation.GenerateLoanTape: its snapshots inherit `SnapshotRow`'s corrected default flag, so PAID_OFF rows differ from the program's output in that column only.
- Text.Lower: maps only the ASCII capitals, where Python's `str.lower` covers all of Unicode. No `DefaultFor` decision changes: the only non-ASCII characters that lower into ASCII letters are U+212A (to `k`) and U+0130 (to `i` plus a combining dot), and neither can complete a pattern `DefaultFor` tests.

## Findings

| source | as written | input that shows it | evidently intended | confidence | as-written member | corrected member |
|---|---|---|---|---|---|---|
| src_remediated/data_generator.py:586 | `default_flag` is 1 for every state code from 3 up, which takes in PAID_OFF (code 5) | a loan paid off this month: state PAID_OFF, DPD 0, `default_flag` 1 | 1 only for loans 90 or more days past due (DELINQUENT_90 and CHARGED_OFF), as the column's "90+ DPD" comment says | high; not executed | LoanStates.PaidOffFlaggedAsDefault | LoanStates.DefaultFlag |
