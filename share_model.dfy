/** The share lot entity and the request bodies of the shares endpoints,
    with the constraints their validation attributes state and their
    default values (Models/Shares.cs). */
module ShareModel {
  import opened Wrappers
  import opened Text
  import opened Calendar

  /** int.MaxValue, the upper end of every [Range(1, int.MaxValue)]. */
  const IntMax: int := 0x7FFF_FFFF

  /** Lot statuses written by the shares endpoints. */
  const Active := "Active"
  const Transferred := "Transferred"
  const Cancelled := "Cancelled"

  /** ShareTypes.All, in its declared order. */
  const ShareTypesAll: seq<string> := ["Ordinary", "Preference", "Non-Voting", "Redeemable", "Employee"]

  /** One row of the Shares table: a lot of units bought by one member. */
  datatype Share = Share(
    shareId: int,
    memberId: int,
    units: int,
    unitPrice: real,
    purchaseDate: DateTime,
    status: string,
    shareType: string,
    remarks: Option<string>,
    createdDate: DateTime)

  /** The attributes on Share: Units in [1, int.MaxValue], UnitPrice at
      least 0.01, Status at most 20 characters, ShareType required and at
      most 50, Remarks at most 255. */
  predicate ShareValid(s: Share) {
    1 <= s.units <= IntMax &&
    s.unitPrice >= 0.01 &&
    |s.status| <= 20 &&
    RequiredString(Some(s.shareType)) && |s.shareType| <= 50 &&
    WithinLength(s.remarks, 255)
  }

  /** `new Share { ... }` with the fields the caller sets; Status and
      ShareType keep their initialisers. */
  function NewShare(shareId: int, memberId: int, units: int, unitPrice: real,
                    purchaseDate: DateTime, createdDate: DateTime): (s: Share)
    ensures s.status == Active && s.shareType == ShareTypesAll[0]
    ensures s.shareId == shareId && s.memberId == memberId && s.units == units
    ensures s.remarks == None
    ensures s.unitPrice == unitPrice && s.purchaseDate == purchaseDate && s.createdDate == createdDate
  {
    Share(shareId, memberId, units, unitPrice, purchaseDate, Active, "Ordinary", None, createdDate)
  }

  /** A share built with its default Status and ShareType passes validation
      exactly when its units and price are in range. */
  lemma NewShareValid(shareId: int, memberId: int, units: int, unitPrice: real,
                      purchaseDate: DateTime, createdDate: DateTime)
    ensures ShareValid(NewShare(shareId, memberId, units, unitPrice, purchaseDate, createdDate))
        <==> 1 <= units <= IntMax && unitPrice >= 0.01
  {
    assert !IsWhiteSpace("Ordinary"[0]);
  }

  /** Body of POST api/shares/add. A field left out of the JSON keeps its
      initialiser; an explicit null is None. */
  datatype SharePurchaseDto = SharePurchaseDto(
    memberId: int,
    units: int,
    unitPrice: real,
    purchaseDate: DateTime,
    shareType: Option<string>,
    status: Option<string>,
    remarks: Option<string>)

  predicate PurchaseDtoValid(p: SharePurchaseDto) {
    1 <= p.units <= IntMax && p.unitPrice >= 0.01 && RequiredString(p.shareType)
  }

  /** Body of POST api/shares/transfer. */
  datatype ShareTransferDto = ShareTransferDto(
    fromMemberId: int,
    toMemberId: int,
    units: int,
    shareType: Option<string>,
    remarks: Option<string>)

  predicate TransferDtoValid(t: ShareTransferDto) {
    1 <= t.units <= IntMax && RequiredString(t.shareType)
  }

  /** A transfer body in which only the members and the units were sent. */
  function DefaultTransferDto(fromMemberId: int, toMemberId: int, units: int): ShareTransferDto {
    ShareTransferDto(fromMemberId, toMemberId, units, Some("Ordinary"), None)
  }

  /** The default ShareType passes [Required]: such a body is valid exactly
      when its units are in [1, int.MaxValue], and its lots are Ordinary. */
  lemma DefaultTransferDtoValid(fromMemberId: int, toMemberId: int, units: int)
    ensures TransferDtoValid(DefaultTransferDto(fromMemberId, toMemberId, units)) <==> 1 <= units <= IntMax
    ensures DefaultTransferDto(fromMemberId, toMemberId, units).shareType == Some(ShareTypesAll[0])
  {
    assert !IsWhiteSpace("Ordinary"[0]);
  }

  /** Body of PUT api/shares/update/{id}. Status starts as "", which
      [Required] rejects, so an update must always name a status. */
  datatype ShareUpdateDto = ShareUpdateDto(
    units: int,
    unitPrice: real,
    purchaseDate: DateTime,
    status: Option<string>,
    shareType: Option<string>,
    remarks: Option<string>)

  predicate UpdateDtoValid(u: ShareUpdateDto) {
    1 <= u.units <= IntMax && u.unitPrice >= 0.01 &&
    RequiredString(u.status) && RequiredString(u.shareType)
  }

  /** Purchase and update bodies carry the same bounds on Units and UnitPrice. */
  lemma PurchaseAndUpdateShareBounds(p: SharePurchaseDto, u: ShareUpdateDto)
    requires p.units == u.units && p.unitPrice == u.unitPrice
    requires RequiredString(p.shareType) && RequiredString(u.shareType) && RequiredString(u.status)
    ensures PurchaseDtoValid(p) <==> UpdateDtoValid(u)
    ensures PurchaseDtoValid(p) <==> 1 <= p.units <= IntMax && p.unitPrice >= 0.01
  {
  }

  /** An update body built without naming a status is refused. */
  lemma UpdateNeedsStatus(u: ShareUpdateDto)
    requires u.status == Some("")
    ensures !UpdateDtoValid(u)
  {
  }

  /** ShareTypes.All lists five distinct types and starts with the default. */
  lemma ShareTypesDistinct()
    ensures |ShareTypesAll| == 5 && ShareTypesAll[0] == "Ordinary"
    ensures forall i, j :: 0 <= i < j < |ShareTypesAll| ==> ShareTypesAll[i] != ShareTypesAll[j]
  {
  }
}
