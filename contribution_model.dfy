/** The contribution record (Models/Contribution.cs): its validation
    attributes and defaults, the receipt number of the list view, and the
    status the read queries show for a stored status. */
module ContributionModel {
  import opened Wrappers
  import opened Text
  import opened Calendar

  /** The body of POST add and PUT update. */
  datatype Contribution = Contribution(
    contributionId: int,
    memberId: int,
    contributionType: Option<string>,
    amount: real,
    dateContributed: DateTime,
    paymentMethod: Option<string>,
    transactionRef: Option<string>,
    createdBy: Option<int>,
    status: Option<string>,
    remarks: Option<string>,
    createdDate: DateTime)

  /** What a body binds to when it names only the member and the amount:
      no type, status "Pending", both dates the time of binding. */
  function DefaultContribution(memberId: int, amount: real, now: DateTime): Contribution {
    Contribution(0, memberId, None, amount, now, None, None, None, Some("Pending"), None, now)
  }

  /** The validation attributes: a type that is present, not blank and at
      most 50 characters; an amount of at least 0.01; and the length limits
      50, 100, 20 and 255 on the optional texts. */
  predicate ContributionValid(c: Contribution) {
    RequiredString(c.contributionType) && WithinLength(c.contributionType, 50) &&
    c.amount >= 0.01 &&
    WithinLength(c.paymentMethod, 50) && WithinLength(c.transactionRef, 100) &&
    WithinLength(c.status, 20) && WithinLength(c.remarks, 255)
  }

  /** A body without a type is refused, whatever else it holds; naming a
      type of ordinary length makes the defaults acceptable. */
  lemma TypeIsRequired(memberId: int, amount: real, now: DateTime, kind: string)
    ensures !ContributionValid(DefaultContribution(memberId, amount, now))
    ensures 0 < |kind| <= 50 && !IsBlank(kind) && amount >= 0.01 ==>
      ContributionValid(DefaultContribution(memberId, amount, now).(contributionType := Some(kind)))
  {
  }

  // ---------------------------------------------------------------------
  // Receipt numbers

  /** ReceiptNumber: "CT-" and the id in at least three digits. */
  function ReceiptNumber(id: int): string {
    "CT-" + FormatD(id, 3)
  }

  /** The receipt starts with "CT-" and the id can be read back from it. */
  lemma ReceiptNumberRoundTrip(id: int)
    ensures |ReceiptNumber(id)| >= 6 && ReceiptNumber(id)[..3] == "CT-"
    ensures ParseInt(ReceiptNumber(id)[3..]) == Some(id)
  {
    FormatDLength(id, 3);
    FormatDRoundTrip(id, 3);
    assert ReceiptNumber(id)[3..] == FormatD(id, 3);
  }

  /** Distinct contributions have distinct receipts. */
  lemma ReceiptNumberInjective(a: int, b: int)
    requires ReceiptNumber(a) == ReceiptNumber(b)
    ensures a == b
  {
    assert ReceiptNumber(a)[3..] == FormatD(a, 3);
    assert ReceiptNumber(b)[3..] == FormatD(b, 3);
    FormatDInjective(a, b, 3);
  }

  /** Ids below 1000 give receipts of exactly six characters. */
  lemma ReceiptNumberWidth(id: int)
    requires 0 <= id < 1000
    ensures |ReceiptNumber(id)| == 6 && AllDigits(ReceiptNumber(id)[3..])
  {
    assert Pow10(1) == 10 && Pow10(2) == 100 && Pow10(3) == 1000;
    FieldWidth(id, 3);
    assert ReceiptNumber(id)[3..] == FormatD(id, 3);
  }

  // ---------------------------------------------------------------------
  // Status

  /** `CASE WHEN Status = 'Confirmed' THEN 'Paid' ELSE Status END`: the
      status a reader is shown. */
  function StatusShown(s: string): string {
    if s == "Confirmed" then "Paid" else s
  }

  /** The listing's four-branch CASE, as written. */
  function ListingStatus(s: string): string {
    if s == "Confirmed" then "Paid"
    else if s == "Pending" then "Pending"
    else if s == "Overdue" then "Overdue"
    else s
  }

  /** The four-branch CASE is the one-branch mapping: only "Confirmed"
      changes, and it becomes "Paid". */
  lemma ListingStatusIsShown(s: string)
    ensures ListingStatus(s) == StatusShown(s)
    ensures StatusShown(s) != s <==> s == "Confirmed"
    ensures StatusShown(s) == "Paid" <==> (s == "Confirmed" || s == "Paid")
  {
  }

  /** Mapping a mapped status again changes nothing. */
  lemma StatusShownIdempotent(s: string)
    ensures StatusShown(StatusShown(s)) == StatusShown(s)
    ensures StatusShown(s) != "Confirmed"
  {
  }
}
