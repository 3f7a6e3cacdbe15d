/** The writing side of the shares endpoints (Controllers/SharesController.cs):
    the Shares table as a ledger object whose actions add, update, cancel
    and transfer lots, with the proof that a transfer moves exactly the
    requested units from the sender to the recipient. */
module SharesController {
  import opened Wrappers
  import opened Text
  import opened Calendar
  import opened ShareModel
  import opened Fifo

  // ---------------------------------------------------------------------
  // Row-level updates

  /** UPDATE Shares SET f WHERE ShareId = id (Tables.UpdateWhere on the
      share id, unrolled here so that the proofs below see rows directly). */
  function MapWhere(lots: seq<Share>, id: int, f: Share -> Share): (r: seq<Share>)
    ensures |r| == |lots|
    ensures forall i :: 0 <= i < |lots| ==> r[i] == if lots[i].shareId == id then f(lots[i]) else lots[i]
  {
    if lots == [] then []
    else [if lots[0].shareId == id then f(lots[0]) else lots[0]] + MapWhere(lots[1..], id, f)
  }

  /** How many rows carry the id. */
  function CountId(lots: seq<Share>, id: int): nat {
    if lots == [] then 0 else (if lots[0].shareId == id then 1 else 0) + CountId(lots[1..], id)
  }

  /** The ids stay below the next identity value and no two rows share one. */
  predicate TableOk(lots: seq<Share>, nextId: int) {
    PositiveUnits(lots) && DistinctIds(lots) &&
    forall i :: 0 <= i < |lots| ==> lots[i].shareId < nextId
  }

  /** The remark suffix: the request's remark, or "" when it is null or empty. */
  function RemarkTail(remarks: Option<string>): string {
    if IsNullOrEmpty(remarks) then "" else remarks.value
  }

  function SenderRemark(e: TransferInfo, req: ShareTransferDto): string {
    "Transferred " + IntToString(e.unitsToTransfer) + " units to member " +
    IntToString(req.toMemberId) + ". " + RemarkTail(req.remarks)
  }

  function RecipientRemark(req: ShareTransferDto): string {
    "Transferred from member " + IntToString(req.fromMemberId) + ". " + RemarkTail(req.remarks)
  }

  /** The UPDATE on a source lot: a lot taken whole becomes Transferred and
      keeps its units; otherwise its units drop by the take. */
  function ConsumeLot(s: Share, e: TransferInfo, req: ShareTransferDto): Share {
    if e.unitsToTransfer == e.originalUnits
    then s.(status := Transferred, remarks := Some(SenderRemark(e, req)))
    else s.(units := s.units - e.unitsToTransfer, remarks := Some(SenderRemark(e, req)))
  }

  /** The INSERT of the recipient's lot: the take, the source lot's price,
      the request's share type, bought now. */
  function RecipientLot(id: int, e: TransferInfo, req: ShareTransferDto, now: DateTime): Share {
    Share(id, req.toMemberId, e.unitsToTransfer, e.unitPrice, now, Active,
          req.shareType.GetOr(""), Some(RecipientRemark(req)), now)
  }

  /** One pass of the transfer loop: nothing for an empty take, else the
      UPDATE on the source lot and the INSERT for the recipient. */
  function ApplyEntry(lots: seq<Share>, nextId: int, e: TransferInfo, req: ShareTransferDto,
                      now: DateTime): (seq<Share>, int) {
    if e.unitsToTransfer > 0
    then (MapWhere(lots, e.shareId, s => ConsumeLot(s, e, req)) + [RecipientLot(nextId, e, req, now)], nextId + 1)
    else (lots, nextId)
  }

  /** The whole plan applied entry by entry: the table and the next identity value. */
  function ApplyPlan(lots: seq<Share>, nextId: int, plan: seq<TransferInfo>, req: ShareTransferDto,
                     now: DateTime): (seq<Share>, int)
    decreases |plan|
  {
    if plan == [] then (lots, nextId)
    else
      var (lots1, next1) := ApplyEntry(lots, nextId, plan[0], req, now);
      ApplyPlan(lots1, next1, plan[1..], req, now)
  }

  /** The plan a transfer request gets from GetSharesForTransfer. */
  function TransferPlan(lots: seq<Share>, req: ShareTransferDto): seq<TransferInfo> {
    FifoPlan(FifoQueue(lots, req.fromMemberId), req.units)
  }

  function CancelRemark(nowText: string, remarks: Option<string>): string {
    "Cancelled on " + nowText + ". " + RemarkTail(remarks)
  }

  /** The row written by CancelShare: WHERE ... AND Status = 'Active'. */
  function CancelLot(s: Share, remark: string): Share {
    if s.status == Active then s.(status := Cancelled, remarks := Some(remark)) else s
  }

  /** The row written by UpdateShare; an empty remark is stored as NULL. */
  function UpdatedLot(s: Share, dto: ShareUpdateDto): Share {
    s.(units := dto.units, unitPrice := dto.unitPrice, purchaseDate := dto.purchaseDate,
       status := dto.status.GetOr(""), shareType := dto.shareType.GetOr(""),
       remarks := if IsNullOrEmpty(dto.remarks) then None else dto.remarks)
  }

  predicate HasId(lots: seq<Share>, id: int) {
    exists i :: 0 <= i < |lots| && lots[i].shareId == id
  }

  predicate HasActiveId(lots: seq<Share>, id: int) {
    exists i :: 0 <= i < |lots| && lots[i].shareId == id && lots[i].status == Active
  }

  // ---------------------------------------------------------------------
  // The ledger

  class ShareLedger {
    /** The Shares table, in insertion order. */
    var lots: seq<Share>
    /** The next value of the ShareId identity column. */
    var nextId: int

    ghost predicate Valid()
      reads this
    {
      TableOk(lots, nextId)
    }

    constructor ()
      ensures Valid() && lots == [] && nextId == 1
    {
      lots := [];
      nextId := 1;
    }

    /** POST api/shares/add. */
    method AddShare(dto: SharePurchaseDto, members: set<int>, now: DateTime) returns (reply: Reply<int>)
      requires Valid()
      modifies this
      ensures Valid()
      ensures !PurchaseDtoValid(dto) ==> reply == BadRequest(InvalidModel) && lots == old(lots) && nextId == old(nextId)
      ensures PurchaseDtoValid(dto) && dto.memberId !in members ==>
        reply == BadRequest("Specified member does not exist") && lots == old(lots) && nextId == old(nextId)
      ensures PurchaseDtoValid(dto) && dto.memberId in members && !Calendar.Valid(dto.purchaseDate) ==>
        reply == ServerError("Failed to record share purchase") && lots == old(lots) && nextId == old(nextId)
      ensures PurchaseDtoValid(dto) && dto.memberId in members && Calendar.Valid(dto.purchaseDate) ==>
        reply == Ok(old(nextId)) && nextId == old(nextId) + 1 &&
        lots == old(lots) + [Share(old(nextId), dto.memberId, dto.units, dto.unitPrice, dto.purchaseDate,
                                   dto.status.GetOr(Active), dto.shareType.value,
                                   if IsNullOrEmpty(dto.remarks) then None else dto.remarks, now)]
    {
      if !PurchaseDtoValid(dto) {
        return BadRequest(InvalidModel);
      }
      if dto.memberId !in members {
        return BadRequest("Specified member does not exist");
      }
      if !Calendar.Valid(dto.purchaseDate) {
        // a DATETIME parameter outside the column's range fails the INSERT
        return ServerError("Failed to record share purchase");
      }
      var share := Share(nextId, dto.memberId, dto.units, dto.unitPrice, dto.purchaseDate,
                         dto.status.GetOr(Active), dto.shareType.value,
                         if IsNullOrEmpty(dto.remarks) then None else dto.remarks, now);
      lots := lots + [share];
      reply := Ok(nextId);
      nextId := nextId + 1;
    }

    /** PUT api/shares/update/{id}. */
    method UpdateShare(id: int, dto: ShareUpdateDto) returns (reply: Reply<string>)
      requires Valid()
      modifies this
      ensures Valid()
      ensures !UpdateDtoValid(dto) ==> reply == BadRequest(InvalidModel) && lots == old(lots) && nextId == old(nextId)
      ensures UpdateDtoValid(dto) && !Calendar.Valid(dto.purchaseDate) ==>
        reply == ServerError("Failed to update share") && lots == old(lots) && nextId == old(nextId)
      ensures UpdateDtoValid(dto) && Calendar.Valid(dto.purchaseDate) && !HasId(old(lots), id) ==>
        reply == NotFound("Share not found.") && lots == old(lots) && nextId == old(nextId)
      ensures UpdateDtoValid(dto) && Calendar.Valid(dto.purchaseDate) && HasId(old(lots), id) ==>
        reply == Ok("Share updated successfully") && nextId == old(nextId) &&
        lots == MapWhere(old(lots), id, s => UpdatedLot(s, dto))
    {
      if !UpdateDtoValid(dto) {
        return BadRequest(InvalidModel);
      }
      if !Calendar.Valid(dto.purchaseDate) {
        return ServerError("Failed to update share");
      }
      if !HasId(lots, id) {
        return NotFound("Share not found.");
      }
      lots := MapWhere(lots, id, s => UpdatedLot(s, dto));
      reply := Ok("Share updated successfully");
    }

    /** DELETE api/shares/cancel/{id}: only an Active lot is cancelled. */
    method CancelShare(id: int, remarks: Option<string>, nowText: string) returns (reply: Reply<string>)
      requires Valid()
      modifies this
      ensures Valid() && nextId == old(nextId) && |lots| == |old(lots)|
      ensures !HasActiveId(old(lots), id) ==>
        reply == NotFound("Share not found or not active.") && lots == old(lots)
      ensures HasActiveId(old(lots), id) ==> reply == Ok("Share cancelled successfully")
      ensures forall i :: 0 <= i < |lots| ==>
        lots[i] == if old(lots)[i].shareId == id && old(lots)[i].status == Active
                   then old(lots)[i].(status := Cancelled, remarks := Some(CancelRemark(nowText, remarks)))
                   else old(lots)[i]
    {
      if !HasActiveId(lots, id) {
        return NotFound("Share not found or not active.");
      }
      var remark := CancelRemark(nowText, remarks);
      lots := MapWhere(lots, id, s => CancelLot(s, remark));
      reply := Ok("Share cancelled successfully");
    }

    /** POST api/shares/transfer. The checks run in the source's order:
        the request body, the sender's balance, then the two members. The
        database raising an error while the plan is applied is modelled by
        `faultAt`, the index of the entry at which it happens; the
        transaction then rolls every change back. */
    method TransferShares(req: ShareTransferDto, members: set<int>, now: DateTime, faultAt: Option<nat>)
      returns (reply: Reply<string>)
      requires Valid()
      modifies this
      ensures Valid()
      ensures !TransferDtoValid(req) ==> reply == BadRequest(InvalidModel) && lots == old(lots) && nextId == old(nextId)
      ensures TransferDtoValid(req) && ActiveBalance(old(lots), req.fromMemberId) < req.units ==>
        reply == BadRequest("Insufficient shares to transfer") && lots == old(lots) && nextId == old(nextId)
      ensures TransferDtoValid(req) && ActiveBalance(old(lots), req.fromMemberId) >= req.units ==>
        if req.fromMemberId !in members then
          reply == BadRequest("From member does not exist") && lots == old(lots) && nextId == old(nextId)
        else if req.toMemberId !in members then
          reply == BadRequest("To member does not exist") && lots == old(lots) && nextId == old(nextId)
        else if faultAt.Some? && faultAt.value < |TransferPlan(old(lots), req)| then
          reply == ServerError("Failed to transfer shares") && lots == old(lots) && nextId == old(nextId)
        else
          reply == Ok("Shares transferred successfully") &&
          (lots, nextId) == ApplyPlan(old(lots), old(nextId), TransferPlan(old(lots), req), req, now)
    {
      if !TransferDtoValid(req) {
        return BadRequest(InvalidModel);
      }
      var fromMemberShares := ActiveBalance(lots, req.fromMemberId);
      if fromMemberShares < req.units {
        return BadRequest("Insufficient shares to transfer");
      }
      if req.fromMemberId !in members {
        return BadRequest("From member does not exist");
      }
      if req.toMemberId !in members {
        return BadRequest("To member does not exist");
      }
      var sharesToTransfer := SharesForTransfer(lots, req.fromMemberId, req.units);
      TransferKeepsTable(lots, nextId, req, now);
      var savedLots, savedNext := lots, nextId;
      var i := 0;
      while i < |sharesToTransfer|
        invariant 0 <= i <= |sharesToTransfer|
        invariant ApplyPlan(lots, nextId, sharesToTransfer[i..], req, now) ==
                  ApplyPlan(savedLots, savedNext, sharesToTransfer, req, now)
        invariant faultAt.Some? ==> i <= faultAt.value
        invariant savedLots == old(lots) && savedNext == old(nextId)
        invariant sharesToTransfer == TransferPlan(old(lots), req)
      {
        if faultAt == Some(i) {
          lots, nextId := savedLots, savedNext;
          return ServerError("Failed to transfer shares");
        }
        var share := sharesToTransfer[i];
        assert sharesToTransfer[i..][1..] == sharesToTransfer[i + 1..];
        if share.unitsToTransfer > 0 {
          lots := MapWhere(lots, share.shareId, s => ConsumeLot(s, share, req));
          lots := lots + [RecipientLot(nextId, share, req, now)];
          nextId := nextId + 1;
        }
        i := i + 1;
      }
      reply := Ok("Shares transferred successfully");
    }
  }

  // ---------------------------------------------------------------------
  // Counting rows

  lemma {:induction false} CountIdAppend(a: seq<Share>, b: seq<Share>, id: int)
    ensures CountId(a + b, id) == CountId(a, id) + CountId(b, id)
  {
    if a == [] {
      assert a + b == b;
    } else {
      assert (a + b)[0] == a[0];
      assert (a + b)[1..] == a[1..] + b;
      CountIdAppend(a[1..], b, id);
    }
  }

  /** A map that keeps every row's id keeps every count. */
  lemma {:induction false} CountIdMapWhere(lots: seq<Share>, id: int, f: Share -> Share, d: int)
    requires forall s :: f(s).shareId == s.shareId
    ensures CountId(MapWhere(lots, id, f), d) == CountId(lots, d)
  {
    if lots != [] {
      CountIdMapWhere(lots[1..], id, f, d);
    }
  }

  lemma {:induction false} CountIdAbsent(lots: seq<Share>, d: int)
    requires forall i :: 0 <= i < |lots| ==> lots[i].shareId != d
    ensures CountId(lots, d) == 0
  {
    if lots != [] {
      CountIdAbsent(lots[1..], d);
    }
  }

  /** In a table with distinct ids, each row's id is carried by that row alone. */
  lemma {:induction false} CountIdDistinct(lots: seq<Share>, k: int)
    requires DistinctIds(lots) && 0 <= k < |lots|
    ensures CountId(lots, lots[k].shareId) == 1
  {
    if k == 0 {
      CountIdAbsent(lots[1..], lots[0].shareId);
    } else {
      assert DistinctIds(lots[1..]);
      CountIdDistinct(lots[1..], k - 1);
      assert lots[1..][k - 1] == lots[k];
    }
  }

  // ---------------------------------------------------------------------
  // One plan entry

  /** The entry names a lot that the table holds exactly once, as an Active
      lot of `from` with the units the plan read, and takes some but not
      more than all of them. */
  predicate HoldsLot(lots: seq<Share>, e: TransferInfo, from: int) {
    CountId(lots, e.shareId) == 1 &&
    0 < e.unitsToTransfer <= e.originalUnits &&
    forall i :: 0 <= i < |lots| && lots[i].shareId == e.shareId ==>
      IsActiveLotOf(lots[i], from) && lots[i].units == e.originalUnits
  }

  /** Every entry holds its lot, the ids are below the identity counter, and
      no lot appears twice in the plan. */
  predicate PlanFits(lots: seq<Share>, nextId: int, plan: seq<TransferInfo>, from: int) {
    (forall j :: 0 <= j < |plan| ==> HoldsLot(lots, plan[j], from) && plan[j].shareId < nextId) &&
    (forall j, k :: 0 <= j < k < |plan| ==> plan[j].shareId != plan[k].shareId)
  }

  /** A lot taken whole becomes Transferred with its units unchanged; a lot
      taken in part stays Active with its units reduced by the take, at
      least 1 left. Id, member, price, dates and type are kept. */
  lemma ConsumeLotEffect(s: Share, e: TransferInfo, req: ShareTransferDto)
    requires s.units == e.originalUnits && 0 < e.unitsToTransfer <= e.originalUnits
    ensures var c := ConsumeLot(s, e, req);
      c.shareId == s.shareId && c.memberId == s.memberId && c.unitPrice == s.unitPrice &&
      c.purchaseDate == s.purchaseDate && c.shareType == s.shareType && c.createdDate == s.createdDate &&
      c.remarks == Some(SenderRemark(e, req)) &&
      (e.unitsToTransfer == e.originalUnits ==> c.status == Transferred && c.units == s.units) &&
      (e.unitsToTransfer < e.originalUnits ==> c.status == s.status && c.units == s.units - e.unitsToTransfer >= 1)
  {
  }

  /** What one row contributes to a member's Active balance. */
  function Holding(s: Share, m: int): int {
    if IsActiveLotOf(s, m) then s.units else 0
  }

  lemma ActiveBalanceCons(lots: seq<Share>, m: int)
    requires lots != []
    ensures ActiveBalance(lots, m) == Holding(lots[0], m) + ActiveBalance(lots[1..], m)
  {
  }

  lemma ConsumeLotHolding(s: Share, e: TransferInfo, req: ShareTransferDto, from: int, m: int)
    requires 0 < e.unitsToTransfer <= e.originalUnits
    requires IsActiveLotOf(s, from) && s.units == e.originalUnits
    ensures Holding(ConsumeLot(s, e, req), m) == Holding(s, m) - (if m == from then e.unitsToTransfer else 0)
  {
  }

  /** The UPDATE of one entry lowers the sender's Active balance by the take
      when a row has the entry's id, and no other member's balance. */
  lemma {:induction false} ConsumeBalance(lots: seq<Share>, e: TransferInfo, req: ShareTransferDto, from: int, m: int)
    requires 0 < e.unitsToTransfer <= e.originalUnits
    requires CountId(lots, e.shareId) <= 1
    requires forall i :: 0 <= i < |lots| && lots[i].shareId == e.shareId ==>
      IsActiveLotOf(lots[i], from) && lots[i].units == e.originalUnits
    ensures ActiveBalance(MapWhere(lots, e.shareId, s => ConsumeLot(s, e, req)), m) ==
      ActiveBalance(lots, m) - (if m == from && CountId(lots, e.shareId) == 1 then e.unitsToTransfer else 0)
  {
    if lots != [] {
      var f := s => ConsumeLot(s, e, req);
      var r := MapWhere(lots, e.shareId, f);
      var rest := lots[1..];
      assert r[1..] == MapWhere(rest, e.shareId, f);
      assert forall i :: 0 <= i < |rest| && rest[i].shareId == e.shareId ==>
        IsActiveLotOf(rest[i], from) && rest[i].units == e.originalUnits by {
        forall i | 0 <= i < |rest| ensures rest[i] == lots[i + 1] { }
      }
      ConsumeBalance(rest, e, req, from, m);
      ActiveBalanceCons(lots, m);
      ActiveBalanceCons(r, m);
      if lots[0].shareId == e.shareId {
        ConsumeLotHolding(lots[0], e, req, from, m);
      }
    }
  }

  lemma {:induction false} TableOkMapWhere(lots: seq<Share>, nextId: int, id: int, f: Share -> Share)
    requires TableOk(lots, nextId)
    requires forall s :: f(s).shareId == s.shareId
    requires forall i :: 0 <= i < |lots| && lots[i].shareId == id ==> f(lots[i]).units >= 1
    ensures TableOk(MapWhere(lots, id, f), nextId)
  {
  }

  /** One entry keeps the table well formed, and the later entries of a
      fitting plan still fit. */
  lemma ApplyEntryFits(lots: seq<Share>, nextId: int, plan: seq<TransferInfo>, req: ShareTransferDto,
                       now: DateTime, from: int)
    requires plan != [] && TableOk(lots, nextId) && PlanFits(lots, nextId, plan, from)
    ensures var (lots1, next1) := ApplyEntry(lots, nextId, plan[0], req, now);
      TableOk(lots1, next1) && PlanFits(lots1, next1, plan[1..], from)
  {
    var e := plan[0];
    var f := s => ConsumeLot(s, e, req);
    var consumed := MapWhere(lots, e.shareId, f);
    TableOkMapWhere(lots, nextId, e.shareId, f);
    var lots1 := consumed + [RecipientLot(nextId, e, req, now)];
    forall j | 0 <= j < |plan[1..]| ensures HoldsLot(lots1, plan[1..][j], from) {
      var d := plan[1..][j];
      assert d == plan[j + 1];
      CountIdAppend(consumed, [RecipientLot(nextId, e, req, now)], d.shareId);
      CountIdMapWhere(lots, e.shareId, f, d.shareId);
    }
  }

  // ---------------------------------------------------------------------
  // The whole plan

  /** Applying a fitting plan keeps the table well formed and advances the
      identity counter by one per entry. */
  lemma {:induction false} ApplyPlanKeepsTable(lots: seq<Share>, nextId: int, plan: seq<TransferInfo>,
                                               req: ShareTransferDto, now: DateTime, from: int)
    requires TableOk(lots, nextId) && PlanFits(lots, nextId, plan, from)
    ensures TableOk(ApplyPlan(lots, nextId, plan, req, now).0, ApplyPlan(lots, nextId, plan, req, now).1)
    ensures ApplyPlan(lots, nextId, plan, req, now).1 == nextId + |plan|
    decreases |plan|
  {
    if plan != [] {
      ApplyEntryFits(lots, nextId, plan, req, now, from);
      var (lots1, next1) := ApplyEntry(lots, nextId, plan[0], req, now);
      ApplyPlanKeepsTable(lots1, next1, plan[1..], req, now, from);
    }
  }

  /** Conservation: a fitting plan lowers the sender's Active balance by its
      total take and raises the recipient's by the same amount; every
      other member's balance is unchanged. */
  lemma {:induction false} ApplyPlanBalance(lots: seq<Share>, nextId: int, plan: seq<TransferInfo>,
                                            req: ShareTransferDto, now: DateTime, from: int, m: int)
    requires TableOk(lots, nextId) && PlanFits(lots, nextId, plan, from)
    ensures ActiveBalance(ApplyPlan(lots, nextId, plan, req, now).0, m) ==
      ActiveBalance(lots, m) - (if m == from then SumTakes(plan) else 0)
                             + (if m == req.toMemberId then SumTakes(plan) else 0)
    decreases |plan|
  {
    if plan != [] {
      var e := plan[0];
      ApplyEntryFits(lots, nextId, plan, req, now, from);
      var consumed := MapWhere(lots, e.shareId, s => ConsumeLot(s, e, req));
      var recipient := RecipientLot(nextId, e, req, now);
      ConsumeBalance(lots, e, req, from, m);
      ActiveBalanceAppend(consumed, [recipient], m);
      assert ActiveBalance([recipient], m) == if m == req.toMemberId then e.unitsToTransfer else 0;
      var (lots1, next1) := ApplyEntry(lots, nextId, e, req, now);
      ApplyPlanBalance(lots1, next1, plan[1..], req, now, from, m);
    }
  }

  /** Applying a fitting plan appends one new Active lot per entry, for the
      recipient, with the entry's take and price and the request's share
      type, numbered from the identity counter on. */
  lemma {:induction false} ApplyPlanAppends(lots: seq<Share>, nextId: int, plan: seq<TransferInfo>,
                                            req: ShareTransferDto, now: DateTime, from: int)
    requires TableOk(lots, nextId) && PlanFits(lots, nextId, plan, from)
    ensures |ApplyPlan(lots, nextId, plan, req, now).0| == |lots| + |plan|
    ensures forall j :: 0 <= j < |plan| ==>
      ApplyPlan(lots, nextId, plan, req, now).0[|lots| + j] == RecipientLot(nextId + j, plan[j], req, now)
    decreases |plan|
  {
    if plan != [] {
      var e := plan[0];
      ApplyEntryFits(lots, nextId, plan, req, now, from);
      var (lots1, next1) := ApplyEntry(lots, nextId, e, req, now);
      ApplyPlanAppends(lots1, next1, plan[1..], req, now, from);
      ApplyPlanOldRows(lots1, next1, plan[1..], req, now, from);
      var r := ApplyPlan(lots, nextId, plan, req, now).0;
      assert r == ApplyPlan(lots1, next1, plan[1..], req, now).0;
      assert lots1[|lots|] == RecipientLot(nextId, e, req, now);
      forall j | 0 <= j < |plan| ensures r[|lots| + j] == RecipientLot(nextId + j, plan[j], req, now) {
        if j == 0 {
          assert NotInPlan(plan[1..], lots1[|lots|].shareId) by {
            forall k | 0 <= k < |plan[1..]| ensures plan[1..][k].shareId != lots1[|lots|].shareId {
              assert plan[1..][k] == plan[k + 1];
            }
          }
        } else {
          assert plan[1..][j - 1] == plan[j];
        }
      }
    }
  }

  predicate NotInPlan(plan: seq<TransferInfo>, id: int) {
    forall j :: 0 <= j < |plan| ==> plan[j].shareId != id
  }

  /** Applying a fitting plan leaves the table's old rows in place, each
      consumed by the entry naming it, or untouched when no entry names it. */
  lemma {:induction false} ApplyPlanOldRows(lots: seq<Share>, nextId: int, plan: seq<TransferInfo>,
                                            req: ShareTransferDto, now: DateTime, from: int)
    requires TableOk(lots, nextId) && PlanFits(lots, nextId, plan, from)
    ensures |ApplyPlan(lots, nextId, plan, req, now).0| >= |lots|
    ensures forall i, j :: 0 <= i < |lots| && 0 <= j < |plan| && plan[j].shareId == lots[i].shareId ==>
      ApplyPlan(lots, nextId, plan, req, now).0[i] == ConsumeLot(lots[i], plan[j], req)
    ensures forall i :: 0 <= i < |lots| && NotInPlan(plan, lots[i].shareId) ==>
      ApplyPlan(lots, nextId, plan, req, now).0[i] == lots[i]
    decreases |plan|
  {
    if plan != [] {
      var e := plan[0];
      ApplyEntryFits(lots, nextId, plan, req, now, from);
      var (lots1, next1) := ApplyEntry(lots, nextId, e, req, now);
      ApplyPlanOldRows(lots1, next1, plan[1..], req, now, from);
      var r := ApplyPlan(lots, nextId, plan, req, now).0;
      assert r == ApplyPlan(lots1, next1, plan[1..], req, now).0;
      forall i, j | 0 <= i < |lots| && 0 <= j < |plan| && plan[j].shareId == lots[i].shareId
        ensures r[i] == ConsumeLot(lots[i], plan[j], req)
      {
        assert lots1[i].shareId == lots[i].shareId;
        if j == 0 {
          assert NotInPlan(plan[1..], lots1[i].shareId) by {
            forall k | 0 <= k < |plan[1..]| ensures plan[1..][k].shareId != lots1[i].shareId {
              assert plan[1..][k] == plan[k + 1];
            }
          }
        } else {
          assert plan[1..][j - 1] == plan[j];
        }
      }
      forall i | 0 <= i < |lots| && NotInPlan(plan, lots[i].shareId) ensures r[i] == lots[i] {
        assert lots1[i].shareId == lots[i].shareId;
        assert NotInPlan(plan[1..], lots1[i].shareId) by {
          forall k | 0 <= k < |plan[1..]| ensures plan[1..][k].shareId != lots1[i].shareId {
            assert plan[1..][k] == plan[k + 1];
          }
        }
      }
    }
  }

  // ---------------------------------------------------------------------
  // The transfer as the endpoint performs it

  /** The FIFO plan read from a well-formed table fits that table. */
  lemma TransferPlanFits(lots: seq<Share>, nextId: int, req: ShareTransferDto)
    requires TableOk(lots, nextId)
    ensures PlanFits(lots, nextId, TransferPlan(lots, req), req.fromMemberId)
  {
    var from := req.fromMemberId;
    var q := FifoQueue(lots, from);
    var plan := TransferPlan(lots, req);
    FifoQueueCorrect(lots, from);
    FifoQueueWellFormed(lots, from);
    FifoPlanShape(q, req.units);
    forall j | 0 <= j < |plan| ensures HoldsLot(lots, plan[j], from) && plan[j].shareId < nextId {
      assert q[j] in q;
      var k :| 0 <= k < |lots| && lots[k] == q[j];
      CountIdDistinct(lots, k);
    }
  }

  lemma TransferKeepsTable(lots: seq<Share>, nextId: int, req: ShareTransferDto, now: DateTime)
    requires TableOk(lots, nextId)
    ensures TableOk(ApplyPlan(lots, nextId, TransferPlan(lots, req), req, now).0,
                    ApplyPlan(lots, nextId, TransferPlan(lots, req), req, now).1)
  {
    TransferPlanFits(lots, nextId, req);
    ApplyPlanKeepsTable(lots, nextId, TransferPlan(lots, req), req, now, req.fromMemberId);
  }

  /** A transfer that passes its checks moves exactly the requested units:
      the sender's Active balance drops by n, the recipient's rises by n,
      and every other member's stays as it was (for a member sending to
      themself the two cancel out). */
  lemma TransferConservesUnits(lots: seq<Share>, nextId: int, req: ShareTransferDto, now: DateTime, m: int)
    requires TableOk(lots, nextId) && TransferDtoValid(req)
    requires ActiveBalance(lots, req.fromMemberId) >= req.units
    ensures ActiveBalance(ApplyPlan(lots, nextId, TransferPlan(lots, req), req, now).0, m) ==
      ActiveBalance(lots, m) - (if m == req.fromMemberId then req.units else 0)
                             + (if m == req.toMemberId then req.units else 0)
  {
    var q := FifoQueue(lots, req.fromMemberId);
    FifoQueueCorrect(lots, req.fromMemberId);
    FifoQueueWellFormed(lots, req.fromMemberId);
    FifoPlanSum(q, req.units);
    TransferPlanFits(lots, nextId, req);
    ApplyPlanBalance(lots, nextId, TransferPlan(lots, req), req, now, req.fromMemberId, m);
  }

  /** A new lot of the recipient: the given id, Active, the entry's take
      and price, and the request's share type. */
  predicate IsRecipientLot(s: Share, id: int, e: TransferInfo, req: ShareTransferDto) {
    s.shareId == id && s.memberId == req.toMemberId && s.status == Active &&
    s.units == e.unitsToTransfer && s.unitPrice == e.unitPrice && Some(s.shareType) == req.shareType
  }

  /** The recipient gets one new Active lot per lot the plan takes from,
      with that take, the source lot's price, and the request's type; the
      new lots' units add up to the requested n. */
  lemma TransferRecipientLots(lots: seq<Share>, nextId: int, req: ShareTransferDto, now: DateTime)
    requires TableOk(lots, nextId) && TransferDtoValid(req)
    requires ActiveBalance(lots, req.fromMemberId) >= req.units
    ensures var plan := TransferPlan(lots, req);
      var r := ApplyPlan(lots, nextId, plan, req, now).0;
      |r| == |lots| + |plan| && SumTakes(plan) == req.units &&
      forall j :: 0 <= j < |plan| ==> IsRecipientLot(r[|lots| + j], nextId + j, plan[j], req)
  {
    var q := FifoQueue(lots, req.fromMemberId);
    FifoQueueCorrect(lots, req.fromMemberId);
    FifoQueueWellFormed(lots, req.fromMemberId);
    FifoPlanSum(q, req.units);
    TransferPlanFits(lots, nextId, req);
    var plan := TransferPlan(lots, req);
    ApplyPlanAppends(lots, nextId, plan, req, now, req.fromMemberId);
    assert req.shareType.GetOr("") == req.shareType.value;
    var r := ApplyPlan(lots, nextId, plan, req, now).0;
    forall j | 0 <= j < |plan|
      ensures IsRecipientLot(r[|lots| + j], nextId + j, plan[j], req)
    {
      assert r[|lots| + j] == RecipientLot(nextId + j, plan[j], req, now);
    }
  }
}
