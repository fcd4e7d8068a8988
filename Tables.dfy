/*
 * The seven tables the validators read, as records with the columns their
 * rules use. A table that was not loaded is `None`; a loaded table carries
 * the set of column names it really has, so that a rule reading a column the
 * table lacks can be told apart (polars raises ColumnNotFoundError there).
 * A cell that the rules test with `is_null` / `fill_null`, or a join key
 * that may be null, is an `Option`; every other cell holds a value.
 */
module Tables {

  datatype Option<T> = None | Some(value: T)

  /** A calendar date (polars `Date`). */
  datatype Date = Date(year: int, month: int, day: int)

  /** Strict date order; lexicographic on (year, month, day). */
  predicate Before(a: Date, b: Date) {
    a.year < b.year
    || (a.year == b.year && (a.month < b.month || (a.month == b.month && a.day < b.day)))
  }

  predicate IsLeapYear(y: int) {
    (y % 4 == 0 && y % 100 != 0) || y % 400 == 0
  }

  function DaysInMonth(y: int, m: int): (d: int)
    ensures 1 <= m <= 12 ==> 28 <= d <= 31
  {
    if m == 2 then (if IsLeapYear(y) then 29 else 28)
    else if m == 4 || m == 6 || m == 9 || m == 11 then 30
    else 31
  }

  /**
   * Days since 1970-01-01 of a proleptic Gregorian date (the civil-to-days
   * conversion behind polars' `Date` arithmetic). Dafny's `/` on a positive
   * divisor is floor division, which the era computation relies on.
   */
  function DayNumber(d: Date): int {
    var y := if d.month <= 2 then d.year - 1 else d.year;
    var era := y / 400;
    var yoe := y - era * 400;
    var mp := if d.month > 2 then d.month - 3 else d.month + 9;
    var doy := (153 * mp + 2) / 5 + d.day - 1;
    var doe := yoe * 365 + yoe / 4 - yoe / 100 + doy;
    era * 146097 + doe - 719468
  }

  /** `(b - a).dt.days()` for two dates. */
  function DaysBetween(a: Date, b: Date): int {
    DayNumber(b) - DayNumber(a)
  }

  datatype Application = Application(
    applicationId: string,
    customerId: string,
    decisionStatus: string,
    ficoAtApplication: int,
    debtToIncome: real,
    applicationDate: Date,
    decisionDate: Date,
    dateOfBirth: Date,
    email: Option<string>,
    productType: string,
    ssnLast4: string,
    addressZip: string)

  /** One monthly snapshot row of `loan_tape`. */
  datatype LoanRow = LoanRow(
    loanId: string,
    applicationId: string,
    customerId: string,
    loanStatus: string,
    daysPastDue: int,
    principalBalance: real,
    interestBalance: real,
    feesBalance: real,
    monthsOnBook: int,
    snapshotDate: Date,
    fundingDate: Date,
    originationDate: Date,
    firstPaymentDueDate: Date,
    noteSignatureDate: Date,
    originalAmount: real,
    originalTerm: int,
    interestRate: real,
    originalInterestRate: real,
    originalApr: real,
    originationFee: real,
    scheduledPayment: real,
    interestOnly: bool,
    vintageMonth: string,
    delinquentFlag: bool,
    worstDaysPastDue: int,
    times30Dpd: int,
    times60Dpd: int,
    times90Dpd: int,
    chargeoffFlag: int)

  datatype Payment = Payment(
    paymentId: string,
    loanId: string,
    dueDate: Date,
    receivedDate: Option<Date>,
    snapshotDate: Option<Date>,
    status: string,
    paymentType: string,
    scheduledAmount: real,
    actualAmount: real,
    principalPaid: real,
    interestPaid: real,
    interestAccrued: real,
    isExtraPayment: bool,
    daysLate: int,
    gracePeriodDays: Option<int>,
    lateFeeAssessed: real,
    lateFeeWaived: bool,
    nsf: bool,
    returned: bool,
    returnDate: Option<Date>,
    autopay: bool,
    returnReasonCode: Option<string>,
    beginningBalance: real,
    endingBalance: real)

  datatype CreditReport = CreditReport(
    creditReportId: string,
    applicationId: string,
    fico8: int,
    openTrades: int,
    allTradesOpen: int,
    allTrades: int,
    pastDueTrades: int,
    inquiries6mo: int,
    utilization: real,
    monthsSinceOldestTrade: int,
    fileSinceDate: Date,
    reportDate: Date,
    bankruptcies: int,
    publicRecords: int,
    delinquencies30Day: int)

  datatype Tradeline = Tradeline(
    creditReportId: string,
    applicationId: string,
    currentBalance: real,
    creditLimit: real,
    accountStatus: string,
    monthlyPayment: real,
    openDate: Date)

  /** `fraud_check_timestamp` is kept as its date (`cast(pl.Date)`). */
  datatype FraudCheck = FraudCheck(
    applicationId: string,
    fraudCheckStatus: string,
    identityScore: int,
    fraudRiskScore: int,
    incomeVerification: Option<string>,
    employmentVerification: Option<string>,
    checkDate: Date,
    ssnDeceased: bool,
    ssnIssuedStartYear: int,
    identityResult: string,
    fraudRiskTier: string)

  datatype BankTransaction = BankTransaction(applicationId: string)

  /** A loaded table: the column names it has and its rows. */
  datatype Frame<R> = Frame(columns: set<string>, rows: seq<R>)

  datatype Dataset = Dataset(
    applications: Option<Frame<Application>>,
    loanTape: Option<Frame<LoanRow>>,
    payments: Option<Frame<Payment>>,
    creditReports: Option<Frame<CreditReport>>,
    tradelines: Option<Frame<Tradeline>>,
    fraud: Option<Frame<FraudCheck>>,
    bankTransactions: Option<Frame<BankTransaction>>)

  /** The seven parquet files the validators look for. */
  datatype Table = Applications | LoanTape | Payments | CreditReports | Tradelines | Fraud | BankTransactions

  /** The tables `load_data` found: the keys of the validators' `data` dictionary. */
  function Loaded(ds: Dataset): (ts: set<Table>)
    ensures Applications in ts <==> ds.applications.Some?
    ensures LoanTape in ts <==> ds.loanTape.Some?
    ensures Payments in ts <==> ds.payments.Some?
    ensures CreditReports in ts <==> ds.creditReports.Some?
    ensures Tradelines in ts <==> ds.tradelines.Some?
    ensures Fraud in ts <==> ds.fraud.Some?
    ensures BankTransactions in ts <==> ds.bankTransactions.Some?
  {
    (if ds.applications.Some? then {Applications} else {})
    + (if ds.loanTape.Some? then {LoanTape} else {})
    + (if ds.payments.Some? then {Payments} else {})
    + (if ds.creditReports.Some? then {CreditReports} else {})
    + (if ds.tradelines.Some? then {Tradelines} else {})
    + (if ds.fraud.Some? then {Fraud} else {})
    + (if ds.bankTransactions.Some? then {BankTransactions} else {})
  }

  /** Rows of a table, empty when it was not loaded. */
  function RowsOf<R>(t: Option<Frame<R>>): seq<R> {
    if t.Some? then t.value.rows else []
  }
}
