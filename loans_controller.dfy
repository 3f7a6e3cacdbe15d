/** The loans endpoints (Controllers/LoansController.cs): the Loans and
    LoanInstallments tables as one book object, the loan lifecycle
    Pending -> Approved -> Disbursed (or Rejected), the figures derived from
    the monthly installment, and the outstanding balance that paying an
    installment reduces. */
module LoansController {
  import opened Wrappers
  import opened Text
  import opened Calendar
  import opened Tables

  const Pending := "Pending"
  const Approved := "Approved"
  const Rejected := "Rejected"
  const Disbursed := "Disbursed"
  const Paid := "Paid"

  /** A row of the Loans table. */
  datatype Loan = Loan(
    loanId: int,
    memberId: int,
    loanType: string,
    principalAmount: real,
    interestRate: real,
    termMonths: int,
    applicationDate: DateTime,
    approvalDate: Option<DateTime>,
    startDate: Option<DateTime>,
    endDate: Option<DateTime>,
    status: string,
    monthlyInstallment: Option<real>,
    totalPayable: Option<real>,
    outstandingBalance: Option<real>,
    guarantor1Id: Option<int>,
    guarantor2Id: Option<int>,
    remarks: Option<string>,
    createdDate: DateTime)

  /** A row of the LoanInstallments table. */
  datatype Installment = Installment(
    installmentId: int,
    loanId: int,
    installmentNumber: int,
    dueDate: DateTime,
    principal: real,
    interest: real,
    totalAmount: real,
    status: string,
    paymentDate: Option<DateTime>)

  function LoanKey(): Loan -> int { (l: Loan) => l.loanId }

  function InstallmentKey(): Installment -> int { (i: Installment) => i.installmentId }

  function LoanWithId(id: int): Loan -> bool { (l: Loan) => l.loanId == id }

  function InstallmentWithId(id: int): Installment -> bool { (i: Installment) => i.installmentId == id }

  // ---------------------------------------------------------------------
  // Loan numbers

  /** The loan number shown for a loan: "LN-" and the id in at least four
      digits. */
  function LoanNumber(id: int): string {
    "LN-" + FormatD(id, 4)
  }

  /** The number starts with "LN-" and the id can be read back from the rest. */
  lemma LoanNumberRoundTrip(id: int)
    ensures |LoanNumber(id)| >= 7 && LoanNumber(id)[..3] == "LN-"
    ensures ParseInt(LoanNumber(id)[3..]) == Some(id)
  {
    FormatDLength(id, 4);
    FormatDRoundTrip(id, 4);
    assert LoanNumber(id)[3..] == FormatD(id, 4);
  }

  /** Two loans never show the same number. */
  lemma LoanNumberInjective(a: int, b: int)
    requires LoanNumber(a) == LoanNumber(b)
    ensures a == b
  {
    assert LoanNumber(a)[3..] == FormatD(a, 4);
    assert LoanNumber(b)[3..] == FormatD(b, 4);
    FormatDInjective(a, b, 4);
  }

  /** Ids below 10000 give numbers of exactly seven characters, all digits
      after the prefix. */
  lemma LoanNumberWidth(id: int)
    requires 0 <= id < 10000
    ensures |LoanNumber(id)| == 7 && AllDigits(LoanNumber(id)[3..])
  {
    Pow10Small();
    FieldWidth(id, 4);
    assert LoanNumber(id)[3..] == FormatD(id, 4);
  }

  // ---------------------------------------------------------------------
  // The monthly installment

  /** (1 + r)^n for a whole number of months. */
  function Power(x: real, n: nat): real {
    if n == 0 then 1.0 else x * Power(x, n - 1)
  }

  /** The annual percentage rate as a monthly fraction. */
  function MonthlyRate(rate: real): real { rate / 100.0 / 12.0 }

  /** CalculateMonthlyPayment, given the growth factor (1 + monthly rate)^term
      that Math.Pow returns: the annuity payment, or None when the division
      by factor - 1 raises. */
  function MonthlyPayment(principal: real, rate: real, factor: real): (r: Option<real>)
    ensures r.None? <==> factor == 1.0
    ensures r.Some? ==> r.value * (factor - 1.0) == principal * MonthlyRate(rate) * factor
  {
    if factor == 1.0 then None else Some(principal * MonthlyRate(rate) * factor / (factor - 1.0))
  }

  lemma {:induction false} PowerOfOne(n: nat)
    ensures Power(1.0, n) == 1.0
  {
    if n > 0 {
      PowerOfOne(n - 1);
    }
  }

  /** A zero rate or a zero term makes the growth factor exactly 1, so the
      installment cannot be computed and the request fails. */
  lemma NoGrowthNoPayment(principal: real, rate: real, term: nat)
    requires rate == 0.0 || term == 0
    ensures MonthlyPayment(principal, rate, Power(1.0 + MonthlyRate(rate), term)).None?
  {
    if rate == 0.0 {
      PowerOfOne(term);
    }
  }

  /** TotalPayable and OutstandingBalance: installment times term. */
  function Payable(installment: real, term: int): real {
    installment * term as real
  }

  // ---------------------------------------------------------------------
  // Adding a loan

  /** The body of POST api/loans/add. */
  datatype LoanApplication = LoanApplication(
    memberId: int,
    loanType: Option<string>,
    principalAmount: real,
    interestRate: real,
    termMonths: int,
    purpose: Option<string>,
    guarantor1Id: Option<int>,
    guarantor2Id: Option<int>,
    remarks: Option<string>,
    loanNumber: Option<string>,
    applicationDate: DateTime,
    createdDate: DateTime,
    status: Option<string>)

  /** What a body that names the member, the loan type, the amount, the
      purpose and the two dates binds to: the declared defaults for every
      other property, the status among them. */
  function DefaultApplication(memberId: int, loanType: string, principal: real, purpose: string,
                              applied: DateTime, created: DateTime): LoanApplication {
    LoanApplication(memberId, Some(loanType), principal, 12.0, 12, Some(purpose), None, None, None, Some(""),
                    applied, created, Some(""))
  }

  /** The [Required] strings are present and not blank. */
  predicate ApplicationValid(a: LoanApplication) {
    RequiredString(a.loanType) && RequiredString(a.purpose)
  }

  /** Both DATETIME parameters of the INSERT are in the column's range. */
  predicate ApplicationDatesStorable(a: LoanApplication) {
    Calendar.Valid(a.applicationDate) && Calendar.Valid(a.createdDate)
  }

  /** `Status ?? "Pending"`. */
  function StoredStatus(s: Option<string>): string { s.GetOr(Pending) }

  /** `CASE WHEN @G = 0 THEN NULL ELSE @G END` with `@G = id ?? 0`: the column
      is NULL exactly when no guarantor or guarantor 0 was given. */
  function GuarantorColumn(g: Option<int>): (r: Option<int>)
    ensures r.None? <==> (g.None? || g.value == 0)
    ensures r.Some? ==> r == g
  {
    if g.GetOr(0) == 0 then None else g
  }

  /** Empty remarks are stored as NULL. */
  function RemarksColumn(s: Option<string>): (r: Option<string>)
    ensures r.None? <==> IsNullOrEmpty(s)
    ensures r.Some? ==> r == s
  {
    if IsNullOrEmpty(s) then None else s
  }

  /** The row the INSERT writes. */
  function NewLoan(id: int, a: LoanApplication, installment: real): Loan {
    Loan(id, a.memberId, a.loanType.GetOr(""), a.principalAmount, a.interestRate, a.termMonths,
         a.applicationDate, None, None, None, StoredStatus(a.status), Some(installment),
         Some(Payable(installment, a.termMonths)), Some(Payable(installment, a.termMonths)),
         GuarantorColumn(a.guarantor1Id), GuarantorColumn(a.guarantor2Id), RemarksColumn(a.remarks),
         a.createdDate)
  }

  /** A new loan owes its whole schedule: nothing is approved or disbursed,
      and the outstanding balance equals the total payable, installment
      times term. */
  lemma NewLoanOwesSchedule(id: int, a: LoanApplication, installment: real)
    ensures var l := NewLoan(id, a, installment);
      l.loanId == id && l.approvalDate.None? && l.startDate.None? && l.endDate.None? &&
      l.monthlyInstallment == Some(installment) &&
      l.totalPayable == l.outstandingBalance && l.outstandingBalance.Some? &&
      l.outstandingBalance.value == installment * a.termMonths as real
  {
  }

  /** The status falls back to "Pending" only for an explicit null: a body
      that leaves the status out, and passes AddLoan's checks, binds the
      declared default "", and the row AddLoan appends stores that. */
  lemma OmittedStatusStoredBlank(memberId: int, loanType: string, principal: real, purpose: string,
                                 applied: DateTime, created: DateTime, id: int, installment: real)
    ensures var a := DefaultApplication(memberId, loanType, principal, purpose, applied, created);
      (ApplicationValid(a) <==> !IsBlank(loanType) && !IsBlank(purpose)) &&
      (ApplicationDatesStorable(a) <==> Calendar.Valid(applied) && Calendar.Valid(created)) &&
      a.status.Some? && NewLoan(id, a, installment).status == "" &&
      NewLoan(id, a.(status := None), installment).status == Pending
  {
  }

  // ---------------------------------------------------------------------
  // Approving, rejecting, disbursing

  /** The body of PUT api/loans/approve/{id}. */
  datatype LoanApproval = LoanApproval(principalAmount: real, interestRate: real, termMonths: int,
                                       remarks: Option<string>)

  /** `(object?)remarks ?? 0`: a missing remark is stored as the text "0". */
  function RemarksOrZero(s: Option<string>): string { s.GetOr("0") }

  function ApprovedRow(l: Loan, a: LoanApproval, installment: real, now: DateTime): Loan {
    l.(status := Approved, approvalDate := Some(now), interestRate := a.interestRate,
       termMonths := a.termMonths, monthlyInstallment := Some(installment),
       totalPayable := Some(Payable(installment, a.termMonths)),
       outstandingBalance := Some(Payable(installment, a.termMonths)),
       remarks := Some(RemarksOrZero(a.remarks)))
  }

  function ApproveWith(a: LoanApproval, installment: real, now: DateTime): Loan -> Loan {
    (l: Loan) => ApprovedRow(l, a, installment, now)
  }

  function RejectedRow(l: Loan, remarks: Option<string>): Loan {
    l.(status := Rejected, remarks := Some(RemarksOrZero(remarks)))
  }

  function RejectWith(remarks: Option<string>): Loan -> Loan {
    (l: Loan) => RejectedRow(l, remarks)
  }

  /** `WHERE LoanId = @LoanId AND Status = 'Approved'`. */
  function ApprovedWithId(id: int): Loan -> bool {
    (l: Loan) => l.loanId == id && l.status == Approved
  }

  function DisbursedRow(l: Loan, now: DateTime): Loan {
    l.(status := Disbursed, startDate := Some(now), endDate := Some(AddMonths(now, l.termMonths)))
  }

  function DisburseWith(now: DateTime): Loan -> Loan {
    (l: Loan) => DisbursedRow(l, now)
  }

  /** A row the disbursement matches whose end date, `DATEADD(MONTH,
      TermMonths, @StartDate)`, falls outside the DATETIME range, so the
      UPDATE fails. */
  function EndOutOfRange(id: int, now: DateTime): Loan -> bool {
    (l: Loan) => ApprovedWithId(id)(l) && !Calendar.Valid(AddMonths(now, l.termMonths))
  }

  /** Approval rewrites every row with the id whatever its status was
      (a Rejected or Disbursed loan included), resets the balance to the
      new schedule, and keeps the principal applied for. */
  lemma ApproveFromAnyStatus(loans: seq<Loan>, id: int, a: LoanApproval, installment: real, now: DateTime)
    ensures var r := UpdateWhere(loans, LoanWithId(id), ApproveWith(a, installment, now));
      forall i :: 0 <= i < |loans| ==>
        (loans[i].loanId == id ==>
          r[i].status == Approved && r[i].approvalDate == Some(now) &&
          r[i].termMonths == a.termMonths && r[i].principalAmount == loans[i].principalAmount &&
          r[i].totalPayable == r[i].outstandingBalance && r[i].outstandingBalance.Some? &&
          r[i].outstandingBalance.value == installment * a.termMonths as real) &&
        (loans[i].loanId != id ==> r[i] == loans[i])
  {
    var r := UpdateWhere(loans, LoanWithId(id), ApproveWith(a, installment, now));
    forall i | 0 <= i < |loans| && loans[i].loanId == id
      ensures r[i] == ApprovedRow(loans[i], a, installment, now)
    {
    }
  }

  /** Rejection likewise overwrites any status, Approved and Disbursed
      included, and leaves the figures alone. */
  lemma RejectFromAnyStatus(loans: seq<Loan>, id: int, remarks: Option<string>)
    ensures var r := UpdateWhere(loans, LoanWithId(id), RejectWith(remarks));
      forall i :: 0 <= i < |loans| ==>
        (loans[i].loanId == id ==>
          r[i].status == Rejected && r[i].remarks == Some(RemarksOrZero(remarks)) &&
          r[i].outstandingBalance == loans[i].outstandingBalance && r[i].startDate == loans[i].startDate) &&
        (loans[i].loanId != id ==> r[i] == loans[i])
  {
    var r := UpdateWhere(loans, LoanWithId(id), RejectWith(remarks));
    forall i | 0 <= i < |loans| && loans[i].loanId == id
      ensures r[i] == RejectedRow(loans[i], remarks)
    {
    }
  }

  /** Disbursement touches only an Approved loan with the id; it starts the
      loan now and ends it TermMonths calendar months later. */
  lemma DisburseEffect(loans: seq<Loan>, id: int, now: DateTime)
    ensures var r := UpdateWhere(loans, ApprovedWithId(id), DisburseWith(now));
      forall i :: 0 <= i < |loans| ==>
        (loans[i].loanId == id && loans[i].status == Approved ==>
          r[i].status == Disbursed && r[i].startDate == Some(now) && r[i].endDate.Some? &&
          MonthIndex(r[i].endDate.value) == MonthIndex(now) + loans[i].termMonths &&
          r[i].endDate.value.second == now.second) &&
        (!(loans[i].loanId == id && loans[i].status == Approved) ==> r[i] == loans[i])
  {
    var r := UpdateWhere(loans, ApprovedWithId(id), DisburseWith(now));
    forall i | 0 <= i < |loans| && loans[i].loanId == id && loans[i].status == Approved
      ensures r[i] == DisbursedRow(loans[i], now)
    {
    }
  }

  /** A loan is disbursed at most once: after a disbursement no row with the
      id is Approved any more, so a second request is NotFound. */
  lemma DisburseOnce(loans: seq<Loan>, id: int, now: DateTime)
    ensures CountWhere(UpdateWhere(loans, ApprovedWithId(id), DisburseWith(now)), ApprovedWithId(id)) == 0
  {
    var r := UpdateWhere(loans, ApprovedWithId(id), DisburseWith(now));
    assert forall i :: 0 <= i < |r| ==> !ApprovedWithId(id)(r[i]);
  }

  /** Disbursement does not close the loan either: approval matches any
      status, so a disbursed loan approved again is disbursed a second time,
      with a new start date and its balance back at the full schedule. */
  lemma DisbursedLoanCanBeDisbursedAgain(loans: seq<Loan>, i: int, a: LoanApproval, installment: real,
                                         first: DateTime, approvedAt: DateTime, second: DateTime)
    requires 0 <= i < |loans| && loans[i].status == Approved
    ensures var id := loans[i].loanId;
      var disbursed := UpdateWhere(loans, ApprovedWithId(id), DisburseWith(first));
      var approved := UpdateWhere(disbursed, LoanWithId(id), ApproveWith(a, installment, approvedAt));
      var again := UpdateWhere(approved, ApprovedWithId(id), DisburseWith(second));
      disbursed[i].status == Disbursed && again[i].status == Disbursed &&
      again[i].startDate == Some(second) &&
      again[i].outstandingBalance == Some(Payable(installment, a.termMonths))
  {
    var id := loans[i].loanId;
    var disbursed := UpdateWhere(loans, ApprovedWithId(id), DisburseWith(first));
    assert disbursed[i] == DisbursedRow(loans[i], first);
    var approved := UpdateWhere(disbursed, LoanWithId(id), ApproveWith(a, installment, approvedAt));
    assert approved[i] == ApprovedRow(disbursed[i], a, installment, approvedAt);
    var again := UpdateWhere(approved, ApprovedWithId(id), DisburseWith(second));
    assert again[i] == DisbursedRow(approved[i], second);
  }

  /** Rejection does not close the loan: a rejected loan approved again can
      then be disbursed. */
  lemma RejectedLoanCanStillBeDisbursed(loans: seq<Loan>, id: int, remarks: Option<string>,
                                        a: LoanApproval, installment: real, now: DateTime)
    requires CountWhere(loans, LoanWithId(id)) > 0
    ensures var rejected := UpdateWhere(loans, LoanWithId(id), RejectWith(remarks));
      var approved := UpdateWhere(rejected, LoanWithId(id), ApproveWith(a, installment, now));
      CountWhere(approved, ApprovedWithId(id)) > 0
  {
    var i :| 0 <= i < |loans| && LoanWithId(id)(loans[i]);
    var rejected := UpdateWhere(loans, LoanWithId(id), RejectWith(remarks));
    assert rejected[i] == RejectedRow(loans[i], remarks);
    var approved := UpdateWhere(rejected, LoanWithId(id), ApproveWith(a, installment, now));
    assert approved[i] == ApprovedRow(rejected[i], a, installment, now);
    assert approved[i].loanId == id && approved[i].status == Approved;
    CountPositive(approved, ApprovedWithId(id), i);
  }

  // ---------------------------------------------------------------------
  // Paying an installment

  /** The installment row that `SELECT ... WHERE InstallmentId = @id` reads. */
  function FindInstallment(insts: seq<Installment>, id: int): (r: Option<Installment>)
    ensures r.Some? <==> exists i :: 0 <= i < |insts| && insts[i].installmentId == id
    ensures r.Some? ==> r.value in insts && r.value.installmentId == id
  {
    if insts == [] then None
    else if insts[0].installmentId == id then Some(insts[0])
    else FindInstallment(insts[1..], id)
  }

  function PaidInstallment(i: Installment, date: DateTime): Installment {
    i.(status := Paid, paymentDate := Some(date))
  }

  function PayWith(date: DateTime): Installment -> Installment {
    (i: Installment) => PaidInstallment(i, date)
  }

  /** `OutstandingBalance - amount`; a NULL balance stays NULL. */
  function DeductedRow(l: Loan, amount: real): Loan {
    l.(outstandingBalance := if l.outstandingBalance.Some? then Some(l.outstandingBalance.value - amount) else None)
  }

  function DeductWith(amount: real): Loan -> Loan {
    (l: Loan) => DeductedRow(l, amount)
  }

  /** PUT api/loans/mark-paid: the installment becomes Paid on the date, and
      the loan it belongs to owes its TotalAmount less. Nothing checks that
      the installment was still unpaid. A missing installment makes both
      subqueries NULL, so no loan row matches. */
  function MarkPaidOutcome(loans: seq<Loan>, insts: seq<Installment>, id: int, date: DateTime)
    : (seq<Loan>, seq<Installment>)
  {
    var paid := UpdateWhere(insts, InstallmentWithId(id), PayWith(date));
    match FindInstallment(insts, id)
    case None => (loans, paid)
    case Some(x) => (UpdateWhere(loans, LoanWithId(x.loanId), DeductWith(x.totalAmount)), paid)
  }

  /** One payment: the installment is Paid on the date, its loan's balance
      drops by the installment's total, and every other row is unchanged. */
  lemma MarkPaidEffect(loans: seq<Loan>, insts: seq<Installment>, id: int, date: DateTime, x: Installment)
    requires FindInstallment(insts, id) == Some(x)
    ensures var (ls, ins) := MarkPaidOutcome(loans, insts, id, date);
      |ls| == |loans| && |ins| == |insts| &&
      (forall k :: 0 <= k < |insts| ==>
        (insts[k].installmentId == id ==> ins[k].status == Paid && ins[k].paymentDate == Some(date)) &&
        (insts[k].installmentId != id ==> ins[k] == insts[k])) &&
      (forall k :: 0 <= k < |loans| ==>
        (loans[k].loanId == x.loanId ==>
          (loans[k].outstandingBalance.None? ==> ls[k].outstandingBalance.None?) &&
          (loans[k].outstandingBalance.Some? ==>
            ls[k].outstandingBalance.Some? &&
            ls[k].outstandingBalance.value == loans[k].outstandingBalance.value - x.totalAmount)) &&
        (loans[k].loanId != x.loanId ==> ls[k] == loans[k]))
  {
  }

  /** An unknown installment id changes nothing. */
  lemma MarkPaidMissing(loans: seq<Loan>, insts: seq<Installment>, id: int, date: DateTime)
    requires FindInstallment(insts, id).None?
    ensures MarkPaidOutcome(loans, insts, id, date) == (loans, insts)
  {
    UpdateNothing(insts, InstallmentWithId(id), PayWith(date));
  }

  /** Paying keeps the row's id, loan and amount, so the installment is
      found again with the same figures. */
  lemma {:induction false} FindAfterPay(insts: seq<Installment>, id: int, date: DateTime, x: Installment)
    requires FindInstallment(insts, id) == Some(x)
    ensures FindInstallment(UpdateWhere(insts, InstallmentWithId(id), PayWith(date)), id) == Some(PaidInstallment(x, date))
  {
    var r := UpdateWhere(insts, InstallmentWithId(id), PayWith(date));
    if insts[0].installmentId != id {
      FindAfterPay(insts[1..], id, date, x);
      assert r[1..] == UpdateWhere(insts[1..], InstallmentWithId(id), PayWith(date));
    }
  }

  /** Marking the same installment paid twice deducts its total twice. */
  lemma MarkPaidTwiceDeductsTwice(loans: seq<Loan>, insts: seq<Installment>, id: int, d1: DateTime,
                                  d2: DateTime, x: Installment, k: int)
    requires FindInstallment(insts, id) == Some(x)
    requires 0 <= k < |loans| && loans[k].loanId == x.loanId && loans[k].outstandingBalance.Some?
    ensures var once := MarkPaidOutcome(loans, insts, id, d1);
      var twice := MarkPaidOutcome(once.0, once.1, id, d2);
      |twice.0| == |loans| && twice.0[k].outstandingBalance.Some? &&
      twice.0[k].outstandingBalance.value == loans[k].outstandingBalance.value - 2.0 * x.totalAmount
  {
    var once := MarkPaidOutcome(loans, insts, id, d1);
    MarkPaidEffect(loans, insts, id, d1, x);
    FindAfterPay(insts, id, d1, x);
    var y := PaidInstallment(x, d1);
    MarkPaidEffect(once.0, once.1, id, d2, y);
  }

  // ---------------------------------------------------------------------
  // Reading a loan

  /** A loan as GET api/loans/get/{id} returns it, with its number. */
  datatype LoanView = LoanView(loan: Loan, loanNumber: string)

  /** GET api/loans/get/{id}: the inner join on Members hides a loan whose
      member row is gone. */
  function GetLoanById(loans: seq<Loan>, members: set<int>, id: int): (r: Reply<LoanView>)
    ensures r.Ok? <==> exists i :: 0 <= i < |loans| && loans[i].loanId == id && loans[i].memberId in members
    ensures r.Ok? ==> r.value.loan in loans && r.value.loan.loanId == id && r.value.loanNumber == LoanNumber(id)
    ensures !r.Ok? ==> r == NotFound("Loan not found.")
  {
    if loans == [] then NotFound("Loan not found.")
    else if loans[0].loanId == id && loans[0].memberId in members then Ok(LoanView(loans[0], LoanNumber(id)))
    else GetLoanById(loans[1..], members, id)
  }

  // ---------------------------------------------------------------------
  // The book

  /** Loan ids are distinct and below the identity counter; installment ids
      are distinct. */
  predicate BookOk(loans: seq<Loan>, insts: seq<Installment>, nextLoanId: int) {
    DistinctKeys(loans, LoanKey()) && KeysBelow(loans, LoanKey(), nextLoanId) &&
    DistinctKeys(insts, InstallmentKey())
  }

  /** Paying an installment keeps every id. */
  lemma MarkPaidKeepsOk(loans: seq<Loan>, insts: seq<Installment>, nextLoanId: int, id: int, date: DateTime)
    requires BookOk(loans, insts, nextLoanId)
    ensures var (ls, ins) := MarkPaidOutcome(loans, insts, id, date); BookOk(ls, ins, nextLoanId)
  {
    UpdateKeepsKeys(insts, InstallmentWithId(id), PayWith(date), InstallmentKey(), 0);
    match FindInstallment(insts, id)
    case None =>
    case Some(x) =>
      assert forall l :: LoanKey()(DeductWith(x.totalAmount)(l)) == LoanKey()(l);
      UpdateKeepsKeys(loans, LoanWithId(x.loanId), DeductWith(x.totalAmount), LoanKey(), nextLoanId);
  }

  class LoanBook {
    var loans: seq<Loan>
    var installments: seq<Installment>
    var nextLoanId: int

    ghost predicate Valid()
      reads this
    {
      BookOk(loans, installments, nextLoanId)
    }

    /** An empty Loans table over an installment schedule kept elsewhere. */
    constructor (schedule: seq<Installment>)
      requires DistinctKeys(schedule, InstallmentKey())
      ensures Valid() && loans == [] && installments == schedule && nextLoanId == 1
    {
      loans := [];
      installments := schedule;
      nextLoanId := 1;
    }

    /** POST api/loans/add. `growth` is the factor Math.Pow returns for the
        application's rate and term. The reply carries the new id and the
        loan number the client sent. */
    method AddLoan(a: LoanApplication, members: set<int>, guarantors: set<int>, growth: real)
      returns (reply: Reply<(int, Option<string>)>)
      requires Valid()
      modifies this
      ensures Valid() && installments == old(installments)
      ensures !ApplicationValid(a) ==>
        reply == BadRequest(InvalidModel) && loans == old(loans) && nextLoanId == old(nextLoanId)
      ensures ApplicationValid(a) && a.memberId !in members ==>
        reply == BadRequest("Specified member does not exist") && loans == old(loans) && nextLoanId == old(nextLoanId)
      ensures ApplicationValid(a) && a.memberId in members && a.guarantor1Id.Some? && a.guarantor1Id.value !in guarantors ==>
        reply == BadRequest("Primary guarantor does not exist") && loans == old(loans) && nextLoanId == old(nextLoanId)
      ensures ApplicationValid(a) && a.memberId in members &&
              (a.guarantor1Id.None? || a.guarantor1Id.value in guarantors) &&
              a.guarantor2Id.Some? && a.guarantor2Id.value !in guarantors ==>
        reply == BadRequest("Secondary guarantor does not exist") && loans == old(loans) && nextLoanId == old(nextLoanId)
      ensures ApplicationValid(a) && a.memberId in members &&
              (a.guarantor1Id.None? || a.guarantor1Id.value in guarantors) &&
              (a.guarantor2Id.None? || a.guarantor2Id.value in guarantors) ==>
        var installment := MonthlyPayment(a.principalAmount, a.interestRate, growth);
        (installment.None? || !ApplicationDatesStorable(a) ==>
          reply == ServerError("Failed to add loan") && loans == old(loans) && nextLoanId == old(nextLoanId)) &&
        (installment.Some? && ApplicationDatesStorable(a) ==>
          reply == Ok((old(nextLoanId), a.loanNumber)) && nextLoanId == old(nextLoanId) + 1 &&
          loans == old(loans) + [NewLoan(old(nextLoanId), a, installment.value)])
    {
      if !ApplicationValid(a) {
        return BadRequest(InvalidModel);
      }
      if a.memberId !in members {
        return BadRequest("Specified member does not exist");
      }
      if a.guarantor1Id.Some? && a.guarantor1Id.value !in guarantors {
        return BadRequest("Primary guarantor does not exist");
      }
      if a.guarantor2Id.Some? && a.guarantor2Id.value !in guarantors {
        return BadRequest("Secondary guarantor does not exist");
      }
      var installment := MonthlyPayment(a.principalAmount, a.interestRate, growth);
      if installment.None? || !ApplicationDatesStorable(a) {
        return ServerError("Failed to add loan");
      }
      var l := NewLoan(nextLoanId, a, installment.value);
      AppendKeepsKeys(loans, l, LoanKey(), nextLoanId);
      loans := loans + [l];
      reply := Ok((nextLoanId, a.loanNumber));
      nextLoanId := nextLoanId + 1;
    }

    /** PUT api/loans/approve/{id}: the installment is computed before the
        loan is looked up, so a factor of 1 fails even for a missing loan. */
    method ApproveLoan(id: int, a: LoanApproval, growth: real, now: DateTime) returns (reply: Reply<string>)
      requires Valid()
      modifies this
      ensures Valid() && installments == old(installments) && nextLoanId == old(nextLoanId)
      ensures MonthlyPayment(a.principalAmount, a.interestRate, growth).None? ==>
        reply == ServerError("Failed to approve loan.") && loans == old(loans)
      ensures MonthlyPayment(a.principalAmount, a.interestRate, growth).Some? && CountWhere(old(loans), LoanWithId(id)) == 0 ==>
        reply == NotFound("Loan not found.") && loans == old(loans)
      ensures MonthlyPayment(a.principalAmount, a.interestRate, growth).Some? && CountWhere(old(loans), LoanWithId(id)) > 0 ==>
        reply == Ok("Loan approved successfully.") &&
        loans == UpdateWhere(old(loans), LoanWithId(id),
                             ApproveWith(a, MonthlyPayment(a.principalAmount, a.interestRate, growth).value, now))
    {
      var installment := MonthlyPayment(a.principalAmount, a.interestRate, growth);
      if installment.None? {
        return ServerError("Failed to approve loan.");
      }
      if CountWhere(loans, LoanWithId(id)) == 0 {
        return NotFound("Loan not found.");
      }
      var f := ApproveWith(a, installment.value, now);
      assert forall l :: LoanKey()(f(l)) == LoanKey()(l);
      UpdateKeepsKeys(loans, LoanWithId(id), f, LoanKey(), nextLoanId);
      loans := UpdateWhere(loans, LoanWithId(id), f);
      reply := Ok("Loan approved successfully.");
    }

    /** PUT api/loans/reject/{id}. */
    method RejectLoan(id: int, remarks: Option<string>) returns (reply: Reply<string>)
      requires Valid()
      modifies this
      ensures Valid() && installments == old(installments) && nextLoanId == old(nextLoanId)
      ensures CountWhere(old(loans), LoanWithId(id)) == 0 ==>
        reply == NotFound("Loan not found.") && loans == old(loans)
      ensures CountWhere(old(loans), LoanWithId(id)) > 0 ==>
        reply == Ok("Loan rejected successfully.") &&
        loans == UpdateWhere(old(loans), LoanWithId(id), RejectWith(remarks))
    {
      if CountWhere(loans, LoanWithId(id)) == 0 {
        return NotFound("Loan not found.");
      }
      var f := RejectWith(remarks);
      assert forall l :: LoanKey()(f(l)) == LoanKey()(l);
      UpdateKeepsKeys(loans, LoanWithId(id), f, LoanKey(), nextLoanId);
      loans := UpdateWhere(loans, LoanWithId(id), f);
      reply := Ok("Loan rejected successfully.");
    }

    /** PUT api/loans/disburse/{id}: only an Approved loan, and only when
        its end date TermMonths months from now can be stored. */
    method DisburseLoan(id: int, now: DateTime) returns (reply: Reply<string>)
      requires Valid()
      modifies this
      ensures Valid() && installments == old(installments) && nextLoanId == old(nextLoanId)
      ensures CountWhere(old(loans), ApprovedWithId(id)) == 0 ==>
        reply == NotFound("Loan not found or not approved.") && loans == old(loans)
      ensures CountWhere(old(loans), ApprovedWithId(id)) > 0 && CountWhere(old(loans), EndOutOfRange(id, now)) > 0 ==>
        reply == ServerError("Failed to disburse loan.") && loans == old(loans)
      ensures CountWhere(old(loans), ApprovedWithId(id)) > 0 && CountWhere(old(loans), EndOutOfRange(id, now)) == 0 ==>
        reply == Ok("Loan disbursed successfully.") &&
        loans == UpdateWhere(old(loans), ApprovedWithId(id), DisburseWith(now))
    {
      if CountWhere(loans, ApprovedWithId(id)) == 0 {
        return NotFound("Loan not found or not approved.");
      }
      if CountWhere(loans, EndOutOfRange(id, now)) > 0 {
        // DATEADD overflows the DATETIME range for a matching row
        return ServerError("Failed to disburse loan.");
      }
      var f := DisburseWith(now);
      assert forall l :: LoanKey()(f(l)) == LoanKey()(l);
      UpdateKeepsKeys(loans, ApprovedWithId(id), f, LoanKey(), nextLoanId);
      loans := UpdateWhere(loans, ApprovedWithId(id), f);
      reply := Ok("Loan disbursed successfully.");
    }

    /** DELETE api/loans/delete/{id}, whatever the loan's status. */
    method DeleteLoan(id: int) returns (reply: Reply<string>)
      requires Valid()
      modifies this
      ensures Valid() && installments == old(installments) && nextLoanId == old(nextLoanId)
      ensures CountWhere(old(loans), LoanWithId(id)) == 0 ==>
        reply == NotFound("Loan not found.") && loans == old(loans)
      ensures CountWhere(old(loans), LoanWithId(id)) > 0 ==>
        reply == Ok("Loan deleted successfully.") && loans == DeleteWhere(old(loans), LoanWithId(id))
    {
      if CountWhere(loans, LoanWithId(id)) == 0 {
        return NotFound("Loan not found.");
      }
      DeleteKeepsKeys(loans, LoanWithId(id), LoanKey(), nextLoanId);
      loans := DeleteWhere(loans, LoanWithId(id));
      reply := Ok("Loan deleted successfully.");
    }

    /** PUT api/loans/mark-paid: reports success whether or not the id
        matches; only a payment date outside the DATETIME range fails. */
    method MarkInstallmentAsPaid(id: int, date: DateTime) returns (reply: Reply<string>)
      requires Valid()
      modifies this
      ensures Valid() && nextLoanId == old(nextLoanId)
      ensures !Calendar.Valid(date) ==>
        reply == ServerError("Failed to mark installment as paid.") &&
        loans == old(loans) && installments == old(installments)
      ensures Calendar.Valid(date) ==>
        reply == Ok("Installment marked as paid successfully.") &&
        (loans, installments) == MarkPaidOutcome(old(loans), old(installments), id, date)
    {
      if !Calendar.Valid(date) {
        return ServerError("Failed to mark installment as paid.");
      }
      MarkPaidKeepsOk(loans, installments, nextLoanId, id, date);
      var outcome := MarkPaidOutcome(loans, installments, id, date);
      loans, installments := outcome.0, outcome.1;
      reply := Ok("Installment marked as paid successfully.");
    }
  }
}
