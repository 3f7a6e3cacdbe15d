/** Dividend rows, request bodies and their validation, and the pure parts
    of the dividends endpoints: the declaration number, the projection
    calculator and the defaults (Models/Dividend.cs and the expression
    parts of Controllers/DividendsController.cs). */
module DividendModel {
  import opened Wrappers
  import opened Text
  import opened Calendar

  const Pending := "Pending"
  const Approved := "Approved"
  const Processed := "Processed"
  const Paid := "Paid"
  const Failed := "Failed"

  const BankTransfer := "Bank Transfer"
  const MPesa := "M-Pesa"

  /** The user id the endpoints write into CreatedBy, ApprovedBy and ProcessedBy. */
  const SystemUser := 1

  /** One row of DividendPayments. */
  datatype Dividend = Dividend(
    dividendId: int,
    memberId: int,
    declarationId: int,
    financialYear: string,
    amount: real,
    shares: real,
    paymentDate: Option<DateTime>,
    paymentMethod: Option<string>,
    paymentNumber: Option<string>,
    transactionReference: Option<string>,
    status: string,
    remarks: Option<string>,
    createdDate: DateTime)

  /** `new Dividend { ... }` with the identifying fields set; Status keeps
      its initialiser. */
  function NewDividend(dividendId: int, memberId: int, declarationId: int, financialYear: string,
                       amount: real, shares: real, createdDate: DateTime): (d: Dividend)
    ensures d.status == Pending
    ensures d.dividendId == dividendId && d.memberId == memberId && d.declarationId == declarationId
    ensures d.amount == amount && d.shares == shares
    ensures d.paymentDate.None? && d.paymentMethod.None? && d.transactionReference.None?
  {
    Dividend(dividendId, memberId, declarationId, financialYear, amount, shares,
             None, None, None, None, Pending, None, createdDate)
  }

  /** One row of DividendDeclarations. TotalAmount is NULL after an
      approval that found no eligible lot. */
  datatype DividendDeclaration = DividendDeclaration(
    declarationId: int,
    declarationNumber: string,
    financialYear: string,
    rate: real,
    totalAmount: Option<real>,
    declarationDate: DateTime,
    recordDate: DateTime,
    paymentDate: Option<DateTime>,
    status: string,
    notes: Option<string>,
    createdBy: int,
    createdDate: DateTime,
    approvedBy: Option<int>,
    approvedDate: Option<DateTime>,
    processedBy: Option<int>,
    processedDate: Option<DateTime>)

  /** `new DividendDeclaration { ... }`; Status keeps its initialiser. */
  function NewDeclaration(declarationId: int, declarationNumber: string, financialYear: string, rate: real,
                          totalAmount: real, declarationDate: DateTime, recordDate: DateTime,
                          paymentDate: Option<DateTime>, notes: Option<string>, createdBy: int,
                          createdDate: DateTime): (d: DividendDeclaration)
    ensures d.status == Pending
    ensures d.declarationId == declarationId && d.financialYear == financialYear && d.rate == rate
    ensures d.totalAmount == Some(totalAmount) && d.approvedBy.None? && d.processedBy.None?
  {
    DividendDeclaration(declarationId, declarationNumber, financialYear, rate, Some(totalAmount),
                        declarationDate, recordDate, paymentDate, Pending, notes, createdBy, createdDate,
                        None, None, None, None)
  }

  /** Body of POST and PUT on declarations. */
  datatype DividendDeclarationRequest = DividendDeclarationRequest(
    financialYear: Option<string>,
    declarationDate: DateTime,
    recordDate: DateTime,
    paymentDate: Option<DateTime>,
    rate: real,
    totalAmount: real,
    notes: Option<string>)

  /** FinancialYear required and at most 10 characters; Rate in [0.0001, 1]. */
  predicate DeclarationRequestValid(r: DividendDeclarationRequest) {
    RequiredString(r.financialYear) && WithinLength(r.financialYear, 10) &&
    0.0001 <= r.rate <= 1.0
  }

  /** A request passes validation exactly when its year is present, not
      blank, at most 10 characters, and its rate lies in [0.0001, 1]. */
  lemma DeclarationRequestBounds(r: DividendDeclarationRequest)
    ensures DeclarationRequestValid(r) <==>
      r.financialYear.Some? && !IsBlank(r.financialYear.value) && |r.financialYear.value| <= 10 &&
      0.0001 <= r.rate <= 1.0
    ensures DeclarationRequestValid(r) ==> r.rate > 0.0
  {
  }

  /** Body of POST payments/{id}/process. */
  datatype ProcessDividendPaymentRequest = ProcessDividendPaymentRequest(
    paymentDate: DateTime,
    paymentMethod: Option<string>,
    remarks: Option<string>)

  /** PaymentMethod required and at most 50 characters; Remarks at most 500. */
  predicate PaymentRequestValid(r: ProcessDividendPaymentRequest) {
    RequiredString(r.paymentMethod) && WithinLength(r.paymentMethod, 50) && WithinLength(r.remarks, 500)
  }

  /** Body of POST payments/process. */
  datatype ProcessDividendPaymentsRequest = ProcessDividendPaymentsRequest(
    dividendIds: seq<int>,
    paymentDate: DateTime,
    batchReference: Option<string>,
    paymentMethods: map<int, string>)

  /** DateTime's default value, 0001-01-01 00:00:00. */
  const MinDate := DateTime(1, 1, 1, 0)

  /** `new ProcessDividendPaymentsRequest()`: no ids, no methods. */
  function DefaultPaymentsRequest(): (r: ProcessDividendPaymentsRequest)
    ensures r.dividendIds == [] && r.paymentMethods == map[] && r.batchReference.None?
  {
    ProcessDividendPaymentsRequest([], MinDate, None, map[])
  }

  /** The view of a payment row that the listing endpoints return. Id and
      DeclarationYear are computed aliases. */
  datatype DividendPaymentDto = DividendPaymentDto(
    dividendId: int,
    memberId: int,
    declarationId: int,
    financialYear: string,
    amount: real,
    shares: real,
    status: string)
  {
    function Id(): int { dividendId }
    function DeclarationYear(): string { financialYear }
  }

  function ToPaymentDto(d: Dividend): DividendPaymentDto {
    DividendPaymentDto(d.dividendId, d.memberId, d.declarationId, d.financialYear, d.amount, d.shares, d.status)
  }

  /** The view's Id is the row's DividendId and its DeclarationYear is the
      row's FinancialYear, so two views share an Id only for one row id. */
  lemma PaymentDtoAliases(d: Dividend, e: Dividend)
    ensures ToPaymentDto(d).Id() == d.dividendId
    ensures ToPaymentDto(d).DeclarationYear() == d.financialYear
    ensures ToPaymentDto(d).Id() == ToPaymentDto(e).Id() <==> d.dividendId == e.dividendId
  {
  }

  // ---------------------------------------------------------------------
  // The declaration number

  /** The first n characters, or all of s when it is shorter (the
      `Length > 20` check followed by Substring(0, 20)). */
  function Truncate(s: string, n: nat): (r: string)
    ensures |r| == Min(|s|, n)
    ensures r == s[..|r|]
  {
    if |s| > n then s[..n] else s
  }

  /** "DIV-" + the year without '/' + "-" + the MMddHHmm stamp, before the cut. */
  function FullDeclarationNumber(financialYear: string, now: DateTime): string {
    "DIV-" + RemoveChar(financialYear, '/') + "-" + StampMMddHHmm(now)
  }

  /** The number CreateDeclaration writes, cut to 20 characters. */
  function DeclarationNumber(financialYear: string, now: DateTime): (r: string)
    ensures |r| <= 20
  {
    Truncate(FullDeclarationNumber(financialYear, now), 20)
  }

  /** The number always starts with "DIV-" followed by the year's characters
      other than '/', and it is cut only when the year part is longer than
      seven characters. */
  lemma DeclarationNumberShape(financialYear: string, now: DateTime)
    requires Valid(now)
    ensures var r := DeclarationNumber(financialYear, now);
      var yearPart := RemoveChar(financialYear, '/');
      r[..4] == "DIV-" &&
      r == FullDeclarationNumber(financialYear, now)[..|r|] &&
      (|yearPart| <= 7 <==> r == FullDeclarationNumber(financialYear, now)) &&
      |r| == Min(20, |yearPart| + 13)
  {
    StampLengths(now);
    var full := FullDeclarationNumber(financialYear, now);
    assert full[..4] == "DIV-";
  }

  /** A year part of eight characters, as in "2024/2025", loses the last
      digit of the minute to the cut. */
  lemma DeclarationNumberCutsMinute(financialYear: string, now: DateTime)
    requires Valid(now) && |RemoveChar(financialYear, '/')| == 8
    ensures DeclarationNumber(financialYear, now) ==
      "DIV-" + RemoveChar(financialYear, '/') + "-" + StampMMddHHmm(now)[..7]
  {
    StampLengths(now);
    var yearPart := RemoveChar(financialYear, '/');
    var stamp := StampMMddHHmm(now);
    var full := "DIV-" + yearPart + "-" + stamp;
    assert full == ("DIV-" + yearPart + "-") + stamp;
    assert full[..20] == ("DIV-" + yearPart + "-") + stamp[..7];
  }

  // ---------------------------------------------------------------------
  // The projection calculator

  /** Body of POST calculate-projection. */
  datatype ProjectionCalculatorDto = ProjectionCalculatorDto(
    estimatedProfit: real,
    totalShares: int,
    payoutRatio: real)

  /** `new ProjectionCalculatorDto()`: PayoutRatio starts at 60. */
  function DefaultProjectionCalculator(): (c: ProjectionCalculatorDto)
    ensures c.payoutRatio == 60.0 && c.estimatedProfit == 0.0 && c.totalShares == 0
  {
    ProjectionCalculatorDto(0.0, 0, 60.0)
  }

  datatype ProjectionResultDto = ProjectionResultDto(
    totalDividends: real,
    dividendRate: real,
    perShareAmount: real,
    payoutAmount: real)

  /** CalculateProjection: the payout is the ratio's percentage of the
      profit, shared equally over the shares; dividing by zero shares
      raises and gives a server error. */
  function CalculateProjection(c: ProjectionCalculatorDto): (r: Reply<ProjectionResultDto>)
    ensures r.ServerError? <==> c.totalShares == 0
    ensures r.Ok? || r.ServerError?
    ensures r.Ok? ==>
      r.value.totalDividends * 100.0 == c.estimatedProfit * c.payoutRatio &&
      r.value.perShareAmount * (c.totalShares as real) == r.value.totalDividends &&
      r.value.payoutAmount == r.value.totalDividends &&
      r.value.dividendRate == r.value.perShareAmount
  {
    var totalDividends := c.estimatedProfit * (c.payoutRatio / 100.0);
    if c.totalShares == 0 then ServerError("Failed to calculate projection")
    else
      var perShareAmount := totalDividends / (c.totalShares as real);
      Ok(ProjectionResultDto(totalDividends, perShareAmount, perShareAmount, totalDividends))
  }

  /** With the default ratio the payout is 60% of the profit. */
  lemma DefaultRatioProjection(profit: real, shares: int)
    requires shares != 0
    ensures var r := CalculateProjection(DefaultProjectionCalculator().(estimatedProfit := profit, totalShares := shares));
      r.Ok? && r.value.totalDividends == profit * 0.6
  {
  }
}
