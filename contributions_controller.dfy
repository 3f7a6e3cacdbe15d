/** The contributions endpoints (Controllers/ContributionsController.cs):
    the Contributions table as a book object with add, update and delete,
    and the two read queries that show a stored status. */
module ContributionsController {
  import opened Wrappers
  import opened Text
  import opened Calendar
  import opened Tables
  import opened ContributionModel

  /** A row of the Contributions table. CreatedBy is never written by these
      endpoints, so it is not kept. */
  datatype ContributionRow = ContributionRow(
    contributionId: int,
    memberId: int,
    contributionType: string,
    amount: real,
    dateContributed: DateTime,
    paymentMethod: Option<string>,
    transactionRef: Option<string>,
    status: string,
    remarks: Option<string>,
    createdDate: DateTime)

  /** A contribution as the read endpoints return it. */
  datatype ContributionView = ContributionView(
    contributionId: int,
    receiptNumber: string,
    memberId: int,
    memberName: string,
    kind: string,
    amount: real,
    date: DateTime,
    status: string,
    paymentMethod: Option<string>,
    transactionRef: Option<string>,
    remarks: Option<string>)

  function RowKey(): ContributionRow -> int { (r: ContributionRow) => r.contributionId }

  function RowWithId(id: int): ContributionRow -> bool { (r: ContributionRow) => r.contributionId == id }

  // ---------------------------------------------------------------------
  // Writing

  /** `Status ?? "Pending"`: add stores the given status as it is. */
  function AddedStatus(s: Option<string>): string { s.GetOr("Pending") }

  /** The row the INSERT writes; the id in the body is ignored. */
  function NewRow(id: int, c: Contribution): ContributionRow {
    ContributionRow(id, c.memberId, c.contributionType.GetOr(""), c.amount, c.dateContributed,
                    c.paymentMethod, c.transactionRef, AddedStatus(c.status), c.remarks, c.createdDate)
  }

  /** The UPDATE's SET list: every column the body carries, the status
      mapped "Confirmed" to "Paid"; the id and CreatedDate stay. */
  function UpdatedRow(r: ContributionRow, c: Contribution, status: string): ContributionRow {
    r.(memberId := c.memberId, contributionType := c.contributionType.GetOr(""), amount := c.amount,
       dateContributed := c.dateContributed, paymentMethod := c.paymentMethod,
       transactionRef := c.transactionRef, status := StatusShown(status), remarks := c.remarks)
  }

  function UpdateWith(c: Contribution, status: string): ContributionRow -> ContributionRow {
    (r: ContributionRow) => UpdatedRow(r, c, status)
  }

  /** Add and update disagree on "Confirmed": add stores it as given,
      update stores "Paid"; a missing status on add is stored "Pending". */
  lemma AddAndUpdateStatus(id: int, c: Contribution, r: ContributionRow)
    requires c.status == Some("Confirmed")
    ensures NewRow(id, c).status == "Confirmed"
    ensures UpdatedRow(r, c, c.status.value).status == "Paid"
    ensures NewRow(id, c.(status := None)).status == "Pending"
  {
  }

  /** After an update no row with the id holds "Confirmed", and what the
      reader is shown for such a row is exactly what is stored. */
  lemma UpdateStoresShownStatus(rows: seq<ContributionRow>, id: int, c: Contribution, status: string)
    ensures var r := UpdateWhere(rows, RowWithId(id), UpdateWith(c, status));
      forall i :: 0 <= i < |rows| && rows[i].contributionId == id ==>
        r[i].status != "Confirmed" && StatusShown(r[i].status) == r[i].status &&
        r[i].status == StatusShown(status)
  {
    var r := UpdateWhere(rows, RowWithId(id), UpdateWith(c, status));
    forall i | 0 <= i < |rows| && rows[i].contributionId == id
      ensures r[i].status != "Confirmed" && StatusShown(r[i].status) == r[i].status
      ensures r[i].status == StatusShown(status)
    {
      assert r[i] == UpdatedRow(rows[i], c, status);
      StatusShownIdempotent(status);
    }
  }

  // ---------------------------------------------------------------------
  // Reading

  /** A row joined with its member's name, as the listing shows it. */
  function ListingView(r: ContributionRow, name: string): ContributionView {
    ContributionView(r.contributionId, ReceiptNumber(r.contributionId), r.memberId, name,
                     r.contributionType, r.amount, r.dateContributed, ListingStatus(r.status),
                     r.paymentMethod, r.transactionRef, r.remarks)
  }

  /** GET get-all: the rows whose member exists, each with its name and
      mapped status. */
  function GetAllContributions(rows: seq<ContributionRow>, members: map<int, string>): (r: seq<ContributionView>)
    ensures |r| <= |rows|
    ensures forall v :: v in r <==>
      exists i :: 0 <= i < |rows| && rows[i].memberId in members &&
                  v == ListingView(rows[i], members[rows[i].memberId])
  {
    if rows == [] then []
    else
      var rest := GetAllContributions(rows[1..], members);
      assert forall i :: 1 <= i < |rows| ==> rows[i] == rows[1..][i - 1];
      if rows[0].memberId in members then [ListingView(rows[0], members[rows[0].memberId])] + rest
      else rest
  }

  /** The first row with the id whose member exists. */
  function FindJoined(rows: seq<ContributionRow>, members: map<int, string>, id: int): (r: Option<ContributionRow>)
    ensures r.Some? <==> exists i :: 0 <= i < |rows| && rows[i].contributionId == id && rows[i].memberId in members
    ensures r.Some? ==> r.value in rows && r.value.contributionId == id && r.value.memberId in members
  {
    if rows == [] then None
    else if rows[0].contributionId == id && rows[0].memberId in members then Some(rows[0])
    else FindJoined(rows[1..], members, id)
  }

  /** GET get/{id} as written: the query selects `c.*` and then the mapped
      status under the same name, and reading the column by name returns the
      first of the two, the stored status. */
  function GetContributionByIdAsWritten(rows: seq<ContributionRow>, members: map<int, string>, id: int)
    : Reply<ContributionView>
  {
    match FindJoined(rows, members, id)
    case None => NotFound("Contribution not found.")
    case Some(r) => Ok(ListingView(r, members[r.memberId]).(status := r.status))
  }

  /** GET get/{id} with the mapped status, as the query's CASE intends. */
  function GetContributionById(rows: seq<ContributionRow>, members: map<int, string>, id: int)
    : Reply<ContributionView>
  {
    match FindJoined(rows, members, id)
    case None => NotFound("Contribution not found.")
    case Some(r) => Ok(ListingView(r, members[r.memberId]))
  }

  /** A confirmed contribution reads "Paid" in the listing but "Confirmed"
      from the single fetch as written. */
  lemma SingleFetchShowsConfirmed(memberId: int, name: string, now: DateTime)
    ensures var row := ContributionRow(1, memberId, "Monthly", 100.0, now, None, None, "Confirmed", None, now);
      var members := map[memberId := name];
      GetAllContributions([row], members)[0].status == "Paid" &&
      GetContributionByIdAsWritten([row], members, 1) == Ok(ListingView(row, name).(status := "Confirmed"))
  {
  }

  /** The single fetch finds a contribution exactly when the listing holds
      it, and shows it as the listing does. */
  lemma SingleFetchMatchesListing(rows: seq<ContributionRow>, members: map<int, string>, id: int)
    ensures GetContributionById(rows, members, id).Ok? <==>
      exists v :: v in GetAllContributions(rows, members) && v.contributionId == id
    ensures GetContributionById(rows, members, id).Ok? ==>
      GetContributionById(rows, members, id).value in GetAllContributions(rows, members) &&
      GetContributionById(rows, members, id).value.contributionId == id &&
      GetContributionById(rows, members, id).value.receiptNumber == ReceiptNumber(id)
    ensures !GetContributionById(rows, members, id).Ok? ==>
      GetContributionById(rows, members, id) == NotFound("Contribution not found.")
  {
    var all := GetAllContributions(rows, members);
    match FindJoined(rows, members, id)
    case None =>
    case Some(r) =>
      var i :| 0 <= i < |rows| && rows[i] == r;
      assert ListingView(rows[i], members[rows[i].memberId]) in all;
  }

  /** The two agree on every contribution that is not "Confirmed". */
  lemma AsWrittenAgreesOtherwise(rows: seq<ContributionRow>, members: map<int, string>, id: int)
    requires FindJoined(rows, members, id).Some? ==> FindJoined(rows, members, id).value.status != "Confirmed"
    ensures GetContributionByIdAsWritten(rows, members, id) == GetContributionById(rows, members, id)
  {
    match FindJoined(rows, members, id)
    case None =>
    case Some(r) =>
      ListingStatusIsShown(r.status);
  }

  // ---------------------------------------------------------------------
  // The book

  class ContributionBook {
    var rows: seq<ContributionRow>
    var nextId: int

    ghost predicate Valid()
      reads this
    {
      DistinctKeys(rows, RowKey()) && KeysBelow(rows, RowKey(), nextId)
    }

    constructor ()
      ensures Valid() && rows == [] && nextId == 1
    {
      rows := [];
      nextId := 1;
    }

    /** POST api/contributions/add. */
    method AddContribution(c: Contribution) returns (reply: Reply<int>)
      requires Valid()
      modifies this
      ensures Valid()
      ensures !ContributionValid(c) ==>
        reply == BadRequest(InvalidModel) && rows == old(rows) && nextId == old(nextId)
      ensures ContributionValid(c) && !(Calendar.Valid(c.dateContributed) && Calendar.Valid(c.createdDate)) ==>
        reply == ServerError("Failed to add contribution") && rows == old(rows) && nextId == old(nextId)
      ensures ContributionValid(c) && Calendar.Valid(c.dateContributed) && Calendar.Valid(c.createdDate) ==>
        reply == Ok(old(nextId)) && nextId == old(nextId) + 1 && rows == old(rows) + [NewRow(old(nextId), c)]
    {
      if !ContributionValid(c) {
        return BadRequest(InvalidModel);
      }
      if !(Calendar.Valid(c.dateContributed) && Calendar.Valid(c.createdDate)) {
        // a DATETIME parameter outside the column's range fails the INSERT
        return ServerError("Failed to add contribution");
      }
      var r := NewRow(nextId, c);
      AppendKeepsKeys(rows, r, RowKey(), nextId);
      rows := rows + [r];
      reply := Ok(nextId);
      nextId := nextId + 1;
    }

    /** PUT api/contributions/update/{id}. A null status reaches the command
        as a parameter without a value, which the database refuses, whether
        or not the row exists; so does a contribution date outside the
        DATETIME range. */
    method UpdateContribution(id: int, c: Contribution) returns (reply: Reply<string>)
      requires Valid()
      modifies this
      ensures Valid() && nextId == old(nextId)
      ensures !ContributionValid(c) ==> reply == BadRequest(InvalidModel) && rows == old(rows)
      ensures ContributionValid(c) && (c.status.None? || !Calendar.Valid(c.dateContributed)) ==>
        reply == ServerError("Failed to update contribution.") && rows == old(rows)
      ensures ContributionValid(c) && c.status.Some? && Calendar.Valid(c.dateContributed) &&
              CountWhere(old(rows), RowWithId(id)) == 0 ==>
        reply == NotFound("Contribution not found.") && rows == old(rows)
      ensures ContributionValid(c) && c.status.Some? && Calendar.Valid(c.dateContributed) &&
              CountWhere(old(rows), RowWithId(id)) > 0 ==>
        reply == Ok("Contribution updated successfully.") &&
        rows == UpdateWhere(old(rows), RowWithId(id), UpdateWith(c, c.status.value))
    {
      if !ContributionValid(c) {
        return BadRequest(InvalidModel);
      }
      if c.status.None? || !Calendar.Valid(c.dateContributed) {
        return ServerError("Failed to update contribution.");
      }
      if CountWhere(rows, RowWithId(id)) == 0 {
        return NotFound("Contribution not found.");
      }
      var f := UpdateWith(c, c.status.value);
      assert forall r :: RowKey()(f(r)) == RowKey()(r);
      UpdateKeepsKeys(rows, RowWithId(id), f, RowKey(), nextId);
      rows := UpdateWhere(rows, RowWithId(id), f);
      reply := Ok("Contribution updated successfully.");
    }

    /** DELETE api/contributions/delete/{id}. */
    method DeleteContribution(id: int) returns (reply: Reply<string>)
      requires Valid()
      modifies this
      ensures Valid() && nextId == old(nextId)
      ensures CountWhere(old(rows), RowWithId(id)) == 0 ==>
        reply == NotFound("Contribution not found.") && rows == old(rows)
      ensures CountWhere(old(rows), RowWithId(id)) > 0 ==>
        reply == Ok("Contribution deleted successfully.") && rows == DeleteWhere(old(rows), RowWithId(id))
    {
      if CountWhere(rows, RowWithId(id)) == 0 {
        return NotFound("Contribution not found.");
      }
      DeleteKeepsKeys(rows, RowWithId(id), RowKey(), nextId);
      rows := DeleteWhere(rows, RowWithId(id));
      reply := Ok("Contribution deleted successfully.");
    }
  }
}
