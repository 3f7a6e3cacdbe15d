/** The dividends endpoints (Controllers/DividendsController.cs): the
    DividendDeclarations and DividendPayments tables as one book object,
    the declaration lifecycle Pending -> Approved -> Processed, the payment
    lifecycle Pending -> Paid or Failed, and the payments an approval
    generates. */
module DividendsController {
  import opened Wrappers
  import opened Text
  import opened Calendar
  import opened Tables
  import opened ShareModel
  import opened Fifo
  import opened DividendModel

  /** The columns of a Members row that the dividend endpoints read. */
  datatype MemberRow = MemberRow(status: string, bankAccountNumber: Option<string>, phoneNumber: Option<string>)

  // ---------------------------------------------------------------------
  // Selecting rows

  function DeclarationWithId(id: int): DividendDeclaration -> bool {
    (d: DividendDeclaration) => d.declarationId == id
  }

  function DividendWithId(id: int): Dividend -> bool {
    (p: Dividend) => p.dividendId == id
  }

  /** The first declaration row with the id, as a reader sees it. */
  function FindDeclaration(decls: seq<DividendDeclaration>, id: int): (r: Option<DividendDeclaration>)
    ensures r.Some? <==> exists i :: 0 <= i < |decls| && decls[i].declarationId == id
    ensures r.Some? ==> r.value in decls && r.value.declarationId == id
  {
    if decls == [] then None
    else if decls[0].declarationId == id then Some(decls[0])
    else FindDeclaration(decls[1..], id)
  }

  /** The first declaration row for a financial year (exact comparison). */
  function FindByYear(decls: seq<DividendDeclaration>, year: string): (r: Option<DividendDeclaration>)
    ensures r.Some? <==> exists i :: 0 <= i < |decls| && decls[i].financialYear == year
    ensures r.Some? ==> r.value in decls && r.value.financialYear == year
  {
    if decls == [] then None
    else if decls[0].financialYear == year then Some(decls[0])
    else FindByYear(decls[1..], year)
  }

  /** Status read by ExecuteScalar: "" in messages when the row is missing. */
  function StatusText(d: Option<DividendDeclaration>): string {
    if d.Some? then d.value.status else ""
  }

  // ---------------------------------------------------------------------
  // Approval

  /** Active lots bought on or before the record date and held by an Active member. */
  predicate EligibleLot(s: Share, members: map<int, MemberRow>, recordDate: DateTime) {
    s.status == Active && NotAfter(s.purchaseDate, recordDate) &&
    s.memberId in members && members[s.memberId].status == Active
  }

  /** The rows of the Shares-Members join the approval reads, in table order. */
  function EligibleLots(lots: seq<Share>, members: map<int, MemberRow>, recordDate: DateTime): (r: seq<Share>)
    ensures |r| <= |lots|
    ensures forall x :: x in r <==> x in lots && EligibleLot(x, members, recordDate)
  {
    if lots == [] then []
    else (if EligibleLot(lots[0], members, recordDate) then [lots[0]] else []) +
         EligibleLots(lots[1..], members, recordDate)
  }

  /** SUM(s.Units) over the eligible lots, as the decimal @TotalShares. */
  function EligibleUnits(eligible: seq<Share>): real {
    SumUnits(eligible) as real
  }

  /** The approved row. TotalAmount is `@TotalShares * Rate`, where
      @TotalShares is SUM(Units) over the eligible lots: NULL when there are
      none. */
  function ApprovedRow(d: DividendDeclaration, eligible: seq<Share>, now: DateTime): DividendDeclaration {
    d.(totalAmount := if eligible == [] then None else Some(EligibleUnits(eligible) * d.rate),
       status := Approved,
       approvedBy := Some(SystemUser), approvedDate := Some(now))
  }

  function ApproveWith(eligible: seq<Share>, now: DateTime): DividendDeclaration -> DividendDeclaration {
    (d: DividendDeclaration) => ApprovedRow(d, eligible, now)
  }

  /** The INSERT ... SELECT of the approval: one Pending payment per eligible
      lot, worth Units x Rate, numbered from the identity counter on. */
  function PaymentsFor(nextId: int, d: DividendDeclaration, eligible: seq<Share>, now: DateTime): (r: seq<Dividend>)
    ensures |r| == |eligible|
    ensures forall k :: 0 <= k < |r| ==>
      r[k] == NewDividend(nextId + k, eligible[k].memberId, d.declarationId, d.financialYear,
                          (eligible[k].units as real) * d.rate, eligible[k].units as real, now)
    decreases |eligible|
  {
    if eligible == [] then []
    else [NewDividend(nextId, eligible[0].memberId, d.declarationId, d.financialYear,
                      (eligible[0].units as real) * d.rate, eligible[0].units as real, now)] +
         PaymentsFor(nextId + 1, d, eligible[1..], now)
  }

  function SumAmounts(ps: seq<Dividend>): real {
    if ps == [] then 0.0 else ps[0].amount + SumAmounts(ps[1..])
  }

  /** The generated payments add up to Rate x the eligible units. */
  lemma {:induction false} PaymentsSumToTotal(nextId: int, d: DividendDeclaration, eligible: seq<Share>, now: DateTime)
    ensures SumAmounts(PaymentsFor(nextId, d, eligible, now)) == EligibleUnits(eligible) * d.rate
    decreases |eligible|
  {
    if eligible != [] {
      var ps := PaymentsFor(nextId, d, eligible, now);
      assert ps[1..] == PaymentsFor(nextId + 1, d, eligible[1..], now);
      PaymentsSumToTotal(nextId + 1, d, eligible[1..], now);
      var u := eligible[0].units as real;
      var rest := EligibleUnits(eligible[1..]);
      assert EligibleUnits(eligible) == u + rest;
      assert u * d.rate + rest * d.rate == (u + rest) * d.rate;
    }
  }

  /** After an approval that found eligible lots, TotalAmount equals the sum
      of the payments it generated; with none, TotalAmount is NULL and no
      payment is generated. */
  lemma ApprovalTotalsMatch(nextId: int, d: DividendDeclaration, eligible: seq<Share>, now: DateTime)
    ensures eligible != [] ==>
      ApprovedRow(d, eligible, now).totalAmount.Some? &&
      ApprovedRow(d, eligible, now).totalAmount.value == SumAmounts(PaymentsFor(nextId, d, eligible, now))
    ensures eligible == [] ==>
      ApprovedRow(d, eligible, now).totalAmount.None? && PaymentsFor(nextId, d, eligible, now) == []
  {
    PaymentsSumToTotal(nextId, d, eligible, now);
  }

  /** Payments are per lot, not per member: a member with two eligible lots
      receives two payments, one for each lot's units. */
  lemma PaymentsPerLot(nextId: int, d: DividendDeclaration, a: Share, b: Share, now: DateTime)
    requires a.memberId == b.memberId
    ensures var ps := PaymentsFor(nextId, d, [a, b], now);
      |ps| == 2 && ps[0].memberId == ps[1].memberId == a.memberId &&
      ps[0].shares == a.units as real && ps[1].shares == b.units as real
  {
  }

  // ---------------------------------------------------------------------
  // Updates of a declaration

  /** The UPDATE of UpdateDeclaration as intended: the request's values,
      PaymentDate included even when it is NULL, and an empty note as NULL. */
  function UpdatedRow(d: DividendDeclaration, req: DividendDeclarationRequest): DividendDeclaration {
    d.(rate := req.rate, declarationDate := req.declarationDate, recordDate := req.recordDate,
       paymentDate := req.paymentDate, notes := if IsNullOrEmpty(req.notes) then None else req.notes,
       totalAmount := Some(req.totalAmount))
  }

  function UpdateWith(req: DividendDeclarationRequest): DividendDeclaration -> DividendDeclaration {
    (d: DividendDeclaration) => UpdatedRow(d, req)
  }

  function PendingForYear(year: string): DividendDeclaration -> bool {
    (d: DividendDeclaration) => d.financialYear == year && d.status == Pending
  }

  /** Every DATETIME the request binds is in the column's range; a NULL
      payment date binds no DATETIME. */
  predicate RequestDatesStorable(req: DividendDeclarationRequest) {
    Calendar.Valid(req.declarationDate) && Calendar.Valid(req.recordDate) &&
    (req.paymentDate.None? || Calendar.Valid(req.paymentDate.value))
  }

  /** The outcome of UpdateDeclaration after the body has passed validation,
      with the NULL payment date stored as NULL. */
  function UpdateDeclarationOutcome(decls: seq<DividendDeclaration>, route: string, req: DividendDeclarationRequest)
    : (Reply<string>, seq<DividendDeclaration>)
    requires DeclarationRequestValid(req)
  {
    if !EqualsIgnoreCase(req.financialYear.value, route) then
      (BadRequest("Financial year in URL doesn't match request body"), decls)
    else if FindByYear(decls, route).None? then
      (NotFound("Dividend declaration not found"), decls)
    else if !RequestDatesStorable(req) then
      (ServerError("Failed to update dividend declaration"), decls)
    else if CountWhere(decls, PendingForYear(route)) == 0 then
      (Conflict("Dividend declaration cannot be modified - it may already be processed"), decls)
    else
      (Ok("Dividend declaration updated successfully"),
       UpdateWhere(decls, PendingForYear(route), UpdateWith(req)))
  }

  /** UpdateDeclaration as the source writes it: a NULL PaymentDate is
      handed to AddWithValue as a null value, which the database rejects as
      a missing parameter, so the UPDATE fails with a server error. */
  function UpdateDeclarationAsWritten(decls: seq<DividendDeclaration>, route: string, req: DividendDeclarationRequest)
    : (Reply<string>, seq<DividendDeclaration>)
    requires DeclarationRequestValid(req)
  {
    if !EqualsIgnoreCase(req.financialYear.value, route) then
      (BadRequest("Financial year in URL doesn't match request body"), decls)
    else if FindByYear(decls, route).None? then
      (NotFound("Dividend declaration not found"), decls)
    else if req.paymentDate.None? || !RequestDatesStorable(req) then
      (ServerError("Failed to update dividend declaration"), decls)
    else if CountWhere(decls, PendingForYear(route)) == 0 then
      (Conflict("Dividend declaration cannot be modified - it may already be processed"), decls)
    else
      (Ok("Dividend declaration updated successfully"),
       UpdateWhere(decls, PendingForYear(route), UpdateWith(req)))
  }

  /** The discrepancy: updating a Pending declaration without a payment date
      fails as written, while the intended update succeeds and clears the
      date. */
  lemma UpdateWithoutPaymentDateFails(d: DividendDeclaration, req: DividendDeclarationRequest)
    requires DeclarationRequestValid(req) && req.paymentDate.None?
    requires d.status == Pending && d.financialYear == req.financialYear.value
    requires Calendar.Valid(req.declarationDate) && Calendar.Valid(req.recordDate)
    ensures UpdateDeclarationAsWritten([d], d.financialYear, req) ==
      (ServerError("Failed to update dividend declaration"), [d])
    ensures UpdateDeclarationOutcome([d], d.financialYear, req).0 == Ok("Dividend declaration updated successfully")
    ensures UpdateDeclarationOutcome([d], d.financialYear, req).1 == [UpdatedRow(d, req)]
    ensures UpdateDeclarationOutcome([d], d.financialYear, req).1[0].paymentDate.None?
  {
    assert FindByYear([d], d.financialYear) == Some(d);
    assert PendingForYear(d.financialYear)(d);
    var r := UpdateWhere([d], PendingForYear(d.financialYear), UpdateWith(req));
    assert r[0] == UpdatedRow(d, req);
  }

  /** As intended: a matching Pending declaration is updated whenever its
      dates can be stored, and every Pending row of that year then holds
      exactly the request's values, its payment date NULL or not; other rows
      are untouched. A date outside the DATETIME range fails and changes
      nothing. */
  lemma UpdateStoresRequest(decls: seq<DividendDeclaration>, route: string, req: DividendDeclarationRequest)
    requires DeclarationRequestValid(req) && EqualsIgnoreCase(req.financialYear.value, route)
    requires exists i :: 0 <= i < |decls| && decls[i].financialYear == route && decls[i].status == Pending
    ensures !RequestDatesStorable(req) ==>
      UpdateDeclarationOutcome(decls, route, req) == (ServerError("Failed to update dividend declaration"), decls)
    ensures RequestDatesStorable(req) ==> var (reply, r) := UpdateDeclarationOutcome(decls, route, req);
      reply.Ok? && |r| == |decls| &&
      forall i :: 0 <= i < |decls| ==>
        if decls[i].financialYear == route && decls[i].status == Pending
        then r[i].paymentDate == req.paymentDate && r[i].rate == req.rate &&
             r[i].totalAmount == Some(req.totalAmount) && r[i].status == Pending &&
             r[i].declarationId == decls[i].declarationId
        else r[i] == decls[i]
  {
    var i :| 0 <= i < |decls| && decls[i].financialYear == route && decls[i].status == Pending;
    assert PendingForYear(route)(decls[i]);
    assert FindByYear(decls, route).Some?;
    if RequestDatesStorable(req) {
      var r := UpdateWhere(decls, PendingForYear(route), UpdateWith(req));
      assert UpdateDeclarationOutcome(decls, route, req) == (Ok("Dividend declaration updated successfully"), r);
    }
  }

  /** With a payment date given, the source and the intended update agree
      on every input. */
  lemma UpdateAgreesWhenDated(decls: seq<DividendDeclaration>, route: string, req: DividendDeclarationRequest)
    requires DeclarationRequestValid(req) && req.paymentDate.Some?
    ensures UpdateDeclarationAsWritten(decls, route, req) == UpdateDeclarationOutcome(decls, route, req)
  {
  }

  function ProcessedRow(d: DividendDeclaration, now: DateTime): DividendDeclaration {
    d.(status := Processed, processedBy := Some(SystemUser), processedDate := Some(now))
  }

  function ProcessWith(now: DateTime): DividendDeclaration -> DividendDeclaration {
    (d: DividendDeclaration) => ProcessedRow(d, now)
  }

  // ---------------------------------------------------------------------
  // Payments

  /** The method a batch uses for an id: the one given for it, else Bank Transfer. */
  function MethodFor(methods: map<int, string>, id: int): string {
    if id in methods then methods[id] else BankTransfer
  }

  /** `BATCH-yyyyMMddHHmmss` unless the request names a batch. */
  function BatchReference(req: ProcessDividendPaymentsRequest, now: DateTime): string {
    if IsNullOrEmpty(req.batchReference) then "BATCH-" + StampYyyyMMddHHmmss(now) else req.batchReference.value
  }

  /** The row a batch writes for a listed payment, whatever its status was. */
  function PaidInBatch(p: Dividend, methods: map<int, string>, batchRef: string, date: DateTime): Dividend {
    p.(paymentDate := Some(date), status := Paid, paymentMethod := Some(MethodFor(methods, p.dividendId)),
       transactionReference := Some(batchRef + "-" + IntToString(p.dividendId)),
       remarks := Some("Processed in batch " + batchRef))
  }

  function PayInBatch(methods: map<int, string>, batchRef: string, date: DateTime): Dividend -> Dividend {
    (p: Dividend) => PaidInBatch(p, methods, batchRef, date)
  }

  /** The batch loop as a function: one UPDATE per listed id, in order. */
  function BatchApply(ps: seq<Dividend>, ids: seq<int>, methods: map<int, string>, batchRef: string,
                      date: DateTime): seq<Dividend>
    decreases |ids|
  {
    if ids == [] then ps
    else BatchApply(UpdateWhere(ps, DividendWithId(ids[0]), PayInBatch(methods, batchRef, date)),
                    ids[1..], methods, batchRef, date)
  }

  /** A committed batch pays every payment whose id is listed, whatever its
      prior status, with reference "<batch>-<id>" and the method given for
      that id or Bank Transfer; listing an id twice changes nothing more,
      an unknown id changes nothing, and unlisted payments are untouched. */
  lemma {:induction false} BatchClosedForm(ps: seq<Dividend>, ids: seq<int>, methods: map<int, string>,
                                           batchRef: string, date: DateTime)
    ensures |BatchApply(ps, ids, methods, batchRef, date)| == |ps|
    ensures forall i :: 0 <= i < |ps| ==>
      BatchApply(ps, ids, methods, batchRef, date)[i] ==
        if ps[i].dividendId in ids then PaidInBatch(ps[i], methods, batchRef, date) else ps[i]
    decreases |ids|
  {
    if ids != [] {
      var ps1 := UpdateWhere(ps, DividendWithId(ids[0]), PayInBatch(methods, batchRef, date));
      BatchClosedForm(ps1, ids[1..], methods, batchRef, date);
      forall i | 0 <= i < |ps|
        ensures BatchApply(ps, ids, methods, batchRef, date)[i] ==
          if ps[i].dividendId in ids then PaidInBatch(ps[i], methods, batchRef, date) else ps[i]
      {
        assert ps1[i].dividendId == ps[i].dividendId;
        assert ps[i].dividendId in ids <==> ps[i].dividendId == ids[0] || ps[i].dividendId in ids[1..] by {
          assert ids == [ids[0]] + ids[1..];
        }
      }
    }
  }

  /** PaymentNumber: the member's bank account for Bank Transfer, the
      member's phone for M-Pesa, the payment reference otherwise. */
  function PaymentNumber(paymentMethod: string, m: MemberRow, reference: string): Option<string> {
    if paymentMethod == BankTransfer then m.bankAccountNumber
    else if paymentMethod == MPesa then m.phoneNumber
    else Some(reference)
  }

  /** `DIV-yyyyMMddHHmmss-<id>`. */
  function SinglePaymentReference(id: int, now: DateTime): string {
    "DIV-" + StampYyyyMMddHHmmss(now) + "-" + IntToString(id)
  }

  /** The rows ProcessSinglePayment's UPDATE ... JOIN Members touches. */
  function PendingPaymentOf(id: int, members: map<int, MemberRow>): Dividend -> bool {
    (p: Dividend) => p.dividendId == id && p.status == Pending && p.memberId in members
  }

  function PaidSingly(p: Dividend, members: map<int, MemberRow>, req: ProcessDividendPaymentRequest,
                      reference: string, nowText: string): Dividend {
    if p.memberId !in members then p
    else
      var chosen := req.paymentMethod.GetOr("");
      p.(paymentDate := Some(req.paymentDate), paymentMethod := Some(chosen), status := Paid,
         paymentNumber := PaymentNumber(chosen, members[p.memberId], reference),
         transactionReference := Some(reference),
         remarks := Some(if IsNullOrEmpty(req.remarks) then "Processed on " + nowText else req.remarks.value))
  }

  function PaySinglyWith(members: map<int, MemberRow>, req: ProcessDividendPaymentRequest, reference: string,
                         nowText: string): Dividend -> Dividend {
    (p: Dividend) => PaidSingly(p, members, req, reference, nowText)
  }

  function PendingWithId(id: int): Dividend -> bool {
    (p: Dividend) => p.dividendId == id && p.status == Pending
  }

  function FailedRow(p: Dividend, remarks: Option<string>, nowText: string): Dividend {
    p.(status := Failed, remarks := Some(if IsNullOrEmpty(remarks) then "Marked as failed on " + nowText else remarks.value))
  }

  function FailWith(remarks: Option<string>, nowText: string): Dividend -> Dividend {
    (p: Dividend) => FailedRow(p, remarks, nowText)
  }

  /** What GetDeclarationByYear returns for a declaration: the row, its
      number of payments, and the sum of its Paid amounts (0 when none). */
  datatype DeclarationView = DeclarationView(declaration: DividendDeclaration, paymentCount: nat, paidAmount: real)

  function PaidAmount(ps: seq<Dividend>, declarationId: int): real {
    if ps == [] then 0.0
    else (if ps[0].declarationId == declarationId && ps[0].status == Paid then ps[0].amount else 0.0) +
         PaidAmount(ps[1..], declarationId)
  }

  /** The payments of a declaration. */
  function OfDeclaration(id: int): Dividend -> bool {
    (p: Dividend) => p.declarationId == id
  }

  /** The payments that are not Paid payments of a declaration. */
  function NotPaidOf(id: int): Dividend -> bool {
    (p: Dividend) => !(p.declarationId == id && p.status == Paid)
  }

  /** The paid amount is the sum of exactly the declaration's Paid
      payments, and 0 when it has none. */
  lemma {:induction false} PaidAmountSumsPaidRows(ps: seq<Dividend>, id: int)
    ensures PaidAmount(ps, id) == SumAmounts(DeleteWhere(ps, NotPaidOf(id)))
    ensures (forall i :: 0 <= i < |ps| ==> NotPaidOf(id)(ps[i])) ==> PaidAmount(ps, id) == 0.0
  {
    if ps != [] {
      PaidAmountSumsPaidRows(ps[1..], id);
      var rest := DeleteWhere(ps[1..], NotPaidOf(id));
      if NotPaidOf(id)(ps[0]) {
        assert DeleteWhere(ps, NotPaidOf(id)) == rest;
      } else {
        assert DeleteWhere(ps, NotPaidOf(id)) == [ps[0]] + rest;
        assert ([ps[0]] + rest)[1..] == rest;
      }
      if forall i :: 0 <= i < |ps| ==> NotPaidOf(id)(ps[i]) {
        assert forall i :: 0 <= i < |ps[1..]| ==> NotPaidOf(id)(ps[1..][i]) by {
          forall i | 0 <= i < |ps[1..]| ensures NotPaidOf(id)(ps[1..][i]) {
            assert ps[1..][i] == ps[i + 1];
          }
        }
        assert NotPaidOf(id)(ps[0]);
      }
    }
  }

  /** GetDeclarationByYear: a blank year is refused; '-' in the year is read
      as '/'; the first declaration of that exact year is returned. */
  function GetDeclarationByYear(decls: seq<DividendDeclaration>, ps: seq<Dividend>, year: Option<string>)
    : (r: Reply<DeclarationView>)
    ensures r.BadRequest? <==> year.None? || IsBlank(year.value)
    ensures r.Ok? ==> (r.value.declaration in decls &&
      r.value.declaration.financialYear == ReplaceChar(year.value, '-', '/'))
    ensures r.NotFound? <==> (!r.BadRequest? &&
      forall i :: 0 <= i < |decls| ==> decls[i].financialYear != ReplaceChar(year.value, '-', '/'))
    ensures r.Ok? || r.BadRequest? || r.NotFound?
    ensures r.Ok? ==>
      r.value.paymentCount == CountWhere(ps, OfDeclaration(r.value.declaration.declarationId)) &&
      r.value.paidAmount == SumAmounts(DeleteWhere(ps, NotPaidOf(r.value.declaration.declarationId))) &&
      ((forall i :: 0 <= i < |ps| ==> NotPaidOf(r.value.declaration.declarationId)(ps[i])) ==>
         r.value.paidAmount == 0.0)
  {
    if year.None? || IsBlank(year.value) then BadRequest("Financial year is required")
    else
      var normalized := ReplaceChar(year.value, '-', '/');
      var found := FindByYear(decls, normalized);
      if found.None? then NotFound("No dividend declaration found for financial year " + normalized)
      else
        var id := found.value.declarationId;
        PaidAmountSumsPaidRows(ps, id);
        Ok(DeclarationView(found.value, CountWhere(ps, OfDeclaration(id)), PaidAmount(ps, id)))
  }

  /** The lookup reads "2024-2025" and "2024/2025" alike, but a declaration
      whose stored year contains '-' can never be returned, since creation
      stores the year as given. */
  lemma LookupNormalisesDashes(decls: seq<DividendDeclaration>, ps: seq<Dividend>, year: string)
    requires !IsBlank(year)
    ensures GetDeclarationByYear(decls, ps, Some(year)) ==
      GetDeclarationByYear(decls, ps, Some(ReplaceChar(year, '-', '/')))
    ensures var r := GetDeclarationByYear(decls, ps, Some(year));
      r.Ok? ==> forall k :: 0 <= k < |r.value.declaration.financialYear| ==> r.value.declaration.financialYear[k] != '-'
  {
    var n := ReplaceChar(year, '-', '/');
    assert ReplaceChar(n, '-', '/') == n;
    assert !IsBlank(n) by {
      var k :| 0 <= k < |year| && !IsWhiteSpace(year[k]);
      assert !IsWhiteSpace(n[k]);
    }
  }

  // ---------------------------------------------------------------------
  // The book

  predicate DistinctDeclarationIds(decls: seq<DividendDeclaration>) {
    forall i, j :: 0 <= i < j < |decls| ==> decls[i].declarationId != decls[j].declarationId
  }

  predicate DeclarationsOk(decls: seq<DividendDeclaration>, nextId: int) {
    (forall i :: 0 <= i < |decls| ==> decls[i].declarationId < nextId) && DistinctDeclarationIds(decls)
  }

  predicate PaymentsOk(ps: seq<Dividend>, nextId: int) {
    (forall i :: 0 <= i < |ps| ==> ps[i].dividendId < nextId) &&
    (forall i, j :: 0 <= i < j < |ps| ==> ps[i].dividendId != ps[j].dividendId)
  }

  /** An UPDATE that leaves DeclarationId alone keeps the ids as they were. */
  lemma UpdateKeepsDeclarationsOk(decls: seq<DividendDeclaration>, next: int, hit: DividendDeclaration -> bool,
                                  f: DividendDeclaration -> DividendDeclaration)
    requires DeclarationsOk(decls, next)
    requires forall d :: f(d).declarationId == d.declarationId
    ensures DeclarationsOk(UpdateWhere(decls, hit, f), next)
  {
    var r := UpdateWhere(decls, hit, f);
    assert forall i :: 0 <= i < |decls| ==> r[i].declarationId == decls[i].declarationId;
  }

  /** An UPDATE that leaves DividendId alone keeps the ids as they were. */
  lemma UpdateKeepsPaymentsOk(ps: seq<Dividend>, next: int, hit: Dividend -> bool, f: Dividend -> Dividend)
    requires PaymentsOk(ps, next)
    requires forall p :: f(p).dividendId == p.dividendId
    ensures PaymentsOk(UpdateWhere(ps, hit, f), next)
  {
    var r := UpdateWhere(ps, hit, f);
    assert forall i :: 0 <= i < |ps| ==> r[i].dividendId == ps[i].dividendId;
  }

  /** The generated payments take fresh ids above every existing one. */
  lemma PaymentsForKeepOk(ps: seq<Dividend>, next: int, d: DividendDeclaration, eligible: seq<Share>, now: DateTime)
    requires PaymentsOk(ps, next)
    ensures PaymentsOk(ps + PaymentsFor(next, d, eligible, now), next + |eligible|)
  {
    var q := PaymentsFor(next, d, eligible, now);
    var all := ps + q;
    forall i | 0 <= i < |all|
      ensures i < |ps| ==> all[i].dividendId < next
      ensures i >= |ps| ==> all[i].dividendId == next + i - |ps|
    {
      if i >= |ps| {
        assert all[i] == q[i - |ps|];
      }
    }
  }

  /** Every row left by a delete comes from the table. */
  lemma DeletedFrom(decls: seq<DividendDeclaration>, hit: DividendDeclaration -> bool, k: int)
    requires 0 <= k < |DeleteWhere(decls, hit)|
    ensures exists i :: 0 <= i < |decls| && decls[i] == DeleteWhere(decls, hit)[k]
  {
    assert DeleteWhere(decls, hit)[k] in decls;
  }

  lemma ConsDistinct(d: DividendDeclaration, tail: seq<DividendDeclaration>)
    requires DistinctDeclarationIds(tail)
    requires forall k :: 0 <= k < |tail| ==> tail[k].declarationId != d.declarationId
    ensures DistinctDeclarationIds([d] + tail)
  {
    var r := [d] + tail;
    forall i, j | 0 <= i < j < |r|
      ensures r[i].declarationId != r[j].declarationId
    {
      assert r[j] == tail[j - 1];
      if i > 0 {
        assert r[i] == tail[i - 1];
      }
    }
  }

  /** Deleting rows keeps the remaining ids distinct. */
  lemma {:induction false} DeleteKeepsDistinct(decls: seq<DividendDeclaration>, hit: DividendDeclaration -> bool)
    requires DistinctDeclarationIds(decls)
    ensures DistinctDeclarationIds(DeleteWhere(decls, hit))
  {
    if decls != [] {
      var rest := decls[1..];
      DeleteKeepsDistinct(rest, hit);
      var tail := DeleteWhere(rest, hit);
      if hit(decls[0]) {
        assert DeleteWhere(decls, hit) == tail;
      } else {
        assert DeleteWhere(decls, hit) == [decls[0]] + tail;
        forall k | 0 <= k < |tail|
          ensures tail[k].declarationId != decls[0].declarationId
        {
          DeletedFrom(rest, hit, k);
        }
        ConsDistinct(decls[0], tail);
      }
    }
  }

  /** Deleting rows keeps every remaining id below the counter and distinct. */
  lemma DeleteKeepsOk(decls: seq<DividendDeclaration>, next: int, hit: DividendDeclaration -> bool)
    requires DeclarationsOk(decls, next)
    ensures DeclarationsOk(DeleteWhere(decls, hit), next)
  {
    DeleteKeepsDistinct(decls, hit);
    var r := DeleteWhere(decls, hit);
    forall k | 0 <= k < |r|
      ensures r[k].declarationId < next
    {
      DeletedFrom(decls, hit, k);
    }
  }

  /** ApproveDeclaration on the two tables: the reply, the declarations,
      the payments and the payment identity counter afterwards. The UPDATE
      and the INSERT run as two statements outside a transaction, so when
      the INSERT fails (`insertFails`) the declaration stays Approved
      without payments. */
  function ApproveOutcome(decls: seq<DividendDeclaration>, ps: seq<Dividend>, nextId: int, id: int,
                          lots: seq<Share>, members: map<int, MemberRow>, now: DateTime, insertFails: bool)
    : (Reply<string>, seq<DividendDeclaration>, seq<Dividend>, int)
  {
    var found := FindDeclaration(decls, id);
    if found.None? then (NotFound("Declaration not found"), decls, ps, nextId)
    else if found.value.status != Pending then
      (BadRequest("Declaration cannot be approved in its current status (" + found.value.status + ")"), decls, ps, nextId)
    else
      var eligible := EligibleLots(lots, members, found.value.recordDate);
      var approved := UpdateWhere(decls, DeclarationWithId(id), ApproveWith(eligible, now));
      if insertFails then (ServerError("Failed to approve dividend declaration"), approved, ps, nextId)
      else (Ok("Dividend declaration approved and payments generated"), approved,
            ps + PaymentsFor(nextId, found.value, eligible, now), nextId + |eligible|)
  }

  lemma ApproveKeepsOk(decls: seq<DividendDeclaration>, ps: seq<Dividend>, nextDecl: int, nextId: int, id: int,
                       lots: seq<Share>, members: map<int, MemberRow>, now: DateTime, insertFails: bool)
    requires DeclarationsOk(decls, nextDecl) && PaymentsOk(ps, nextId)
    ensures var r := ApproveOutcome(decls, ps, nextId, id, lots, members, now, insertFails);
      DeclarationsOk(r.1, nextDecl) && PaymentsOk(r.2, r.3)
  {
    var found := FindDeclaration(decls, id);
    var r := ApproveOutcome(decls, ps, nextId, id, lots, members, now, insertFails);
    if found.Some? && found.value.status == Pending {
      var eligible := EligibleLots(lots, members, found.value.recordDate);
      var approved := UpdateWhere(decls, DeclarationWithId(id), ApproveWith(eligible, now));
      UpdateKeepsDeclarationsOk(decls, nextDecl, DeclarationWithId(id), ApproveWith(eligible, now));
      if insertFails {
        assert r.1 == approved && r.2 == ps && r.3 == nextId;
      } else {
        PaymentsForKeepOk(ps, nextId, found.value, eligible, now);
        assert r.1 == approved && r.2 == ps + PaymentsFor(nextId, found.value, eligible, now);
        assert r.3 == nextId + |eligible|;
      }
    } else {
      assert r.1 == decls && r.2 == ps && r.3 == nextId;
    }
  }

  /** Only a Pending declaration is approved: a missing one is not found and
      any other status is refused, and both leave the tables as they were. */
  lemma ApproveOnlyPending(decls: seq<DividendDeclaration>, ps: seq<Dividend>, nextId: int, id: int,
                           lots: seq<Share>, members: map<int, MemberRow>, now: DateTime, insertFails: bool)
    ensures var r := ApproveOutcome(decls, ps, nextId, id, lots, members, now, insertFails);
      (r.0.Ok? || r.0.ServerError?) <==> (exists i :: 0 <= i < |decls| && decls[i].declarationId == id &&
                                           FindDeclaration(decls, id).value.status == Pending)
    ensures var r := ApproveOutcome(decls, ps, nextId, id, lots, members, now, insertFails);
      (r.0.NotFound? || r.0.BadRequest?) ==> r.1 == decls && r.2 == ps && r.3 == nextId
  {
  }

  /** A successful approval, on a table with distinct ids: the declaration
      becomes Approved by the system user with TotalAmount equal to the sum
      of the payments generated (NULL when there are none); every other
      declaration is unchanged; one Pending payment per eligible lot is
      added for that declaration, with fresh ids. */
  lemma ApproveEffect(decls: seq<DividendDeclaration>, ps: seq<Dividend>, nextDecl: int, nextId: int, id: int,
                      lots: seq<Share>, members: map<int, MemberRow>, now: DateTime)
    requires DeclarationsOk(decls, nextDecl) && PaymentsOk(ps, nextId)
    requires FindDeclaration(decls, id).Some? && FindDeclaration(decls, id).value.status == Pending
    ensures var d := FindDeclaration(decls, id).value;
      var eligible := EligibleLots(lots, members, d.recordDate);
      var r := ApproveOutcome(decls, ps, nextId, id, lots, members, now, false);
      var added := r.2[|ps|..];
      r.0.Ok? && |r.1| == |decls| && |added| == |eligible| && r.2[..|ps|] == ps &&
      (forall i :: 0 <= i < |decls| && decls[i].declarationId != id ==> r.1[i] == decls[i]) &&
      (forall i :: 0 <= i < |decls| && decls[i].declarationId == id ==>
         r.1[i].status == Approved && r.1[i].approvedBy == Some(SystemUser) &&
         (eligible == [] ==> r.1[i].totalAmount.None?) &&
         (eligible != [] ==> r.1[i].totalAmount.Some? && r.1[i].totalAmount.value == SumAmounts(added))) &&
      (forall k :: 0 <= k < |added| ==>
         added[k].status == Pending && added[k].declarationId == id && added[k].memberId == eligible[k].memberId &&
         added[k].dividendId == nextId + k)
  {
    var d := FindDeclaration(decls, id).value;
    var eligible := EligibleLots(lots, members, d.recordDate);
    var added := PaymentsFor(nextId, d, eligible, now);
    var r := ApproveOutcome(decls, ps, nextId, id, lots, members, now, false);
    assert r.2 == ps + added;
    assert r.2[|ps|..] == added && r.2[..|ps|] == ps;
    ApprovalTotalsMatch(nextId, d, eligible, now);
    forall i | 0 <= i < |decls| && decls[i].declarationId == id
      ensures decls[i] == d
    {
      var j :| 0 <= j < |decls| && decls[j] == d;
    }
  }

  class DividendBook {
    var declarations: seq<DividendDeclaration>
    var payments: seq<Dividend>
    var nextDeclarationId: int
    var nextPaymentId: int

    ghost predicate Valid()
      reads this
    {
      DeclarationsOk(declarations, nextDeclarationId) && PaymentsOk(payments, nextPaymentId)
    }

    constructor ()
      ensures Valid() && declarations == [] && payments == []
    {
      declarations := [];
      payments := [];
      nextDeclarationId := 1;
      nextPaymentId := 1;
    }

    /** POST declarations: refused when a declaration of exactly that year
        exists; otherwise a Pending row is added. */
    method CreateDeclaration(req: DividendDeclarationRequest, now: DateTime) returns (reply: Reply<int>)
      requires Valid()
      modifies this
      ensures Valid() && payments == old(payments) && nextPaymentId == old(nextPaymentId)
      ensures !DeclarationRequestValid(req) ==>
        reply == BadRequest(InvalidModel) && declarations == old(declarations)
      ensures DeclarationRequestValid(req) && FindByYear(old(declarations), req.financialYear.value).Some? ==>
        reply == Conflict("Declaration for " + req.financialYear.value + " already exists") &&
        declarations == old(declarations)
      ensures DeclarationRequestValid(req) && FindByYear(old(declarations), req.financialYear.value).None? &&
              !RequestDatesStorable(req) ==>
        reply == ServerError("Declaration creation failed") && declarations == old(declarations) &&
        nextDeclarationId == old(nextDeclarationId)
      ensures DeclarationRequestValid(req) && FindByYear(old(declarations), req.financialYear.value).None? &&
              RequestDatesStorable(req) ==>
        reply == Created(old(nextDeclarationId)) &&
        nextDeclarationId == old(nextDeclarationId) + 1 &&
        declarations == old(declarations) + [NewDeclaration(
          old(nextDeclarationId), DeclarationNumber(req.financialYear.value, now), req.financialYear.value,
          req.rate, req.totalAmount, req.declarationDate, req.recordDate, req.paymentDate, req.notes,
          SystemUser, now)]
    {
      if !DeclarationRequestValid(req) {
        return BadRequest(InvalidModel);
      }
      var year := req.financialYear.value;
      if FindByYear(declarations, year).Some? {
        return Conflict("Declaration for " + year + " already exists");
      }
      if !RequestDatesStorable(req) {
        // a DATETIME parameter outside the column's range fails the INSERT
        return ServerError("Declaration creation failed");
      }
      var d := NewDeclaration(nextDeclarationId, DeclarationNumber(year, now), year, req.rate, req.totalAmount,
                              req.declarationDate, req.recordDate, req.paymentDate, req.notes, SystemUser, now);
      declarations := declarations + [d];
      reply := Created(nextDeclarationId);
      nextDeclarationId := nextDeclarationId + 1;
    }

    /** PUT declarations/financial-year/{year}, with a NULL payment date
        stored as NULL (see UpdateDeclarationAsWritten). */
    method UpdateDeclaration(route: string, req: DividendDeclarationRequest) returns (reply: Reply<string>)
      requires Valid()
      modifies this
      ensures Valid() && payments == old(payments)
      ensures nextDeclarationId == old(nextDeclarationId) && nextPaymentId == old(nextPaymentId)
      ensures !DeclarationRequestValid(req) ==>
        reply == BadRequest(InvalidModel) && declarations == old(declarations)
      ensures DeclarationRequestValid(req) ==>
        (reply, declarations) == UpdateDeclarationOutcome(old(declarations), route, req)
    {
      if !DeclarationRequestValid(req) {
        return BadRequest(InvalidModel);
      }
      if !EqualsIgnoreCase(req.financialYear.value, route) {
        return BadRequest("Financial year in URL doesn't match request body");
      }
      if FindByYear(declarations, route).None? {
        return NotFound("Dividend declaration not found");
      }
      if !RequestDatesStorable(req) {
        return ServerError("Failed to update dividend declaration");
      }
      if CountWhere(declarations, PendingForYear(route)) == 0 {
        return Conflict("Dividend declaration cannot be modified - it may already be processed");
      }
      UpdateKeepsDeclarationsOk(declarations, nextDeclarationId, PendingForYear(route), UpdateWith(req));
      declarations := UpdateWhere(declarations, PendingForYear(route), UpdateWith(req));
      reply := Ok("Dividend declaration updated successfully");
    }

    /** POST declarations/{id}/approve, as ApproveOutcome describes it. */
    method ApproveDeclaration(id: int, lots: seq<Share>, members: map<int, MemberRow>, now: DateTime,
                              insertFails: bool) returns (reply: Reply<string>)
      requires Valid()
      modifies this
      ensures Valid() && nextDeclarationId == old(nextDeclarationId)
      ensures (reply, declarations, payments, nextPaymentId) ==
        ApproveOutcome(old(declarations), old(payments), old(nextPaymentId), id, lots, members, now, insertFails)
    {
      ApproveKeepsOk(declarations, payments, nextDeclarationId, nextPaymentId, id, lots, members, now, insertFails);
      var outcome := ApproveOutcome(declarations, payments, nextPaymentId, id, lots, members, now, insertFails);
      reply, declarations, payments, nextPaymentId := outcome.0, outcome.1, outcome.2, outcome.3;
    }

    /** POST declarations/{id}/process: only an Approved declaration; any
        other status, a missing one included, is a bad request. */
    method ProcessDeclaration(id: int, now: DateTime) returns (reply: Reply<string>)
      requires Valid()
      modifies this
      ensures Valid() && payments == old(payments)
      ensures nextDeclarationId == old(nextDeclarationId) && nextPaymentId == old(nextPaymentId)
      ensures StatusText(FindDeclaration(old(declarations), id)) != Approved ==>
        reply == BadRequest("Declaration cannot be processed in its current status (" +
                            StatusText(FindDeclaration(old(declarations), id)) + ")") &&
        declarations == old(declarations)
      ensures StatusText(FindDeclaration(old(declarations), id)) == Approved ==>
        reply == Ok("Dividend declaration marked as processed") &&
        declarations == UpdateWhere(old(declarations), DeclarationWithId(id), ProcessWith(now))
    {
      var currentStatus := StatusText(FindDeclaration(declarations, id));
      if currentStatus != Approved {
        return BadRequest("Declaration cannot be processed in its current status (" + currentStatus + ")");
      }
      UpdateKeepsDeclarationsOk(declarations, nextDeclarationId, DeclarationWithId(id), ProcessWith(now));
      declarations := UpdateWhere(declarations, DeclarationWithId(id), ProcessWith(now));
      reply := Ok("Dividend declaration marked as processed");
    }

    /** DELETE declarations/{id}: only a Pending declaration; any other
        status, a missing one included, is a bad request. */
    method DeleteDeclaration(id: int) returns (reply: Reply<string>)
      requires Valid()
      modifies this
      ensures Valid() && payments == old(payments)
      ensures nextDeclarationId == old(nextDeclarationId) && nextPaymentId == old(nextPaymentId)
      ensures StatusText(FindDeclaration(old(declarations), id)) != Pending ==>
        reply == BadRequest("Declaration cannot be deleted in its current status (" +
                            StatusText(FindDeclaration(old(declarations), id)) + ")") &&
        declarations == old(declarations)
      ensures StatusText(FindDeclaration(old(declarations), id)) == Pending ==>
        reply == Ok("Dividend declaration deleted successfully") &&
        declarations == DeleteWhere(old(declarations), DeclarationWithId(id))
    {
      var currentStatus := StatusText(FindDeclaration(declarations, id));
      if currentStatus != Pending {
        return BadRequest("Declaration cannot be deleted in its current status (" + currentStatus + ")");
      }
      DeleteKeepsOk(declarations, nextDeclarationId, DeclarationWithId(id));
      declarations := DeleteWhere(declarations, DeclarationWithId(id));
      reply := Ok("Dividend declaration deleted successfully");
    }

    /** The batch is rolled back: an UPDATE fails, either at the injected
        fault position or, for a payment date outside the DATETIME range,
        at the first one. */
    static predicate BatchFails(req: ProcessDividendPaymentsRequest, faultAt: Option<nat>) {
      (faultAt.Some? && faultAt.value < |req.dividendIds|) ||
      (!Calendar.Valid(req.paymentDate) && |req.dividendIds| > 0)
    }

    /** POST payments/process. The loop runs in a transaction; the database
        raising an error at the `faultAt`-th id rolls the batch back. */
    method ProcessPayments(req: ProcessDividendPaymentsRequest, now: DateTime, faultAt: Option<nat>)
      returns (reply: Reply<(string, int)>)
      requires Valid()
      modifies this
      ensures Valid() && declarations == old(declarations)
      ensures nextDeclarationId == old(nextDeclarationId) && nextPaymentId == old(nextPaymentId)
      ensures BatchFails(req, faultAt) ==>
        reply == ServerError("Failed to process payments") && payments == old(payments)
      ensures !BatchFails(req, faultAt) ==>
        reply == Ok((BatchReference(req, now), |req.dividendIds|)) &&
        payments == BatchApply(old(payments), req.dividendIds, req.paymentMethods, BatchReference(req, now), req.paymentDate)
    {
      var batchRef := BatchReference(req, now);
      var saved := payments;
      var ids := req.dividendIds;
      var i := 0;
      while i < |ids|
        invariant 0 <= i <= |ids|
        invariant faultAt.Some? ==> i <= faultAt.value
        invariant !Calendar.Valid(req.paymentDate) ==> i == 0
        invariant saved == old(payments) && declarations == old(declarations)
        invariant nextDeclarationId == old(nextDeclarationId) && nextPaymentId == old(nextPaymentId)
        invariant PaymentsOk(payments, nextPaymentId)
        invariant BatchApply(payments, ids[i..], req.paymentMethods, batchRef, req.paymentDate) ==
                  BatchApply(saved, ids, req.paymentMethods, batchRef, req.paymentDate)
      {
        if faultAt == Some(i) || !Calendar.Valid(req.paymentDate) {
          // the failing UPDATE is rolled back with every earlier one
          payments := saved;
          return ServerError("Failed to process payments");
        }
        var dividendId := ids[i];
        assert ids[i..][1..] == ids[i + 1..];
        UpdateKeepsPaymentsOk(payments, nextPaymentId, DividendWithId(dividendId),
                              PayInBatch(req.paymentMethods, batchRef, req.paymentDate));
        payments := UpdateWhere(payments, DividendWithId(dividendId),
                                PayInBatch(req.paymentMethods, batchRef, req.paymentDate));
        i := i + 1;
      }
      reply := Ok((batchRef, |ids|));
    }

    /** POST payments/{id}/process: only a Pending payment of a known member
        becomes Paid. */
    method ProcessSinglePayment(id: int, req: ProcessDividendPaymentRequest, members: map<int, MemberRow>,
                                now: DateTime, nowText: string) returns (reply: Reply<string>)
      requires Valid()
      modifies this
      ensures Valid() && declarations == old(declarations)
      ensures nextDeclarationId == old(nextDeclarationId) && nextPaymentId == old(nextPaymentId)
      ensures !PaymentRequestValid(req) ==> reply == BadRequest(InvalidModel) && payments == old(payments)
      ensures PaymentRequestValid(req) && !Calendar.Valid(req.paymentDate) ==>
        reply == ServerError("Failed to process payment") && payments == old(payments)
      ensures PaymentRequestValid(req) && Calendar.Valid(req.paymentDate) &&
              CountWhere(old(payments), PendingPaymentOf(id, members)) == 0 ==>
        reply == NotFound("Payment not found or already processed") && payments == old(payments)
      ensures PaymentRequestValid(req) && Calendar.Valid(req.paymentDate) &&
              CountWhere(old(payments), PendingPaymentOf(id, members)) > 0 ==>
        reply == Ok(SinglePaymentReference(id, now)) &&
        payments == UpdateWhere(old(payments), PendingPaymentOf(id, members),
                                PaySinglyWith(members, req, SinglePaymentReference(id, now), nowText))
    {
      if !PaymentRequestValid(req) {
        return BadRequest(InvalidModel);
      }
      var paymentReference := SinglePaymentReference(id, now);
      if !Calendar.Valid(req.paymentDate) {
        return ServerError("Failed to process payment");
      }
      if CountWhere(payments, PendingPaymentOf(id, members)) == 0 {
        return NotFound("Payment not found or already processed");
      }
      UpdateKeepsPaymentsOk(payments, nextPaymentId, PendingPaymentOf(id, members),
                            PaySinglyWith(members, req, paymentReference, nowText));
      payments := UpdateWhere(payments, PendingPaymentOf(id, members),
                              PaySinglyWith(members, req, paymentReference, nowText));
      reply := Ok(paymentReference);
    }

    /** POST payments/{id}/fail: only a Pending payment becomes Failed. */
    method MarkPaymentFailed(id: int, remarks: Option<string>, nowText: string) returns (reply: Reply<string>)
      requires Valid()
      modifies this
      ensures Valid() && declarations == old(declarations)
      ensures nextDeclarationId == old(nextDeclarationId) && nextPaymentId == old(nextPaymentId)
      ensures CountWhere(old(payments), PendingWithId(id)) == 0 ==>
        reply == NotFound("Payment not found or already processed") && payments == old(payments)
      ensures CountWhere(old(payments), PendingWithId(id)) > 0 ==>
        reply == Ok("Payment marked as failed") &&
        payments == UpdateWhere(old(payments), PendingWithId(id), FailWith(remarks, nowText))
    {
      if CountWhere(payments, PendingWithId(id)) == 0 {
        return NotFound("Payment not found or already processed");
      }
      UpdateKeepsPaymentsOk(payments, nextPaymentId, PendingWithId(id), FailWith(remarks, nowText));
      payments := UpdateWhere(payments, PendingWithId(id), FailWith(remarks, nowText));
      reply := Ok("Payment marked as failed");
    }
  }
}
