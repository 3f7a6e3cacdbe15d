/** The reading side of a share transfer (Controllers/SharesController.cs):
    a member's Active balance, the member's Active lots in purchase-date
    order, and the first-in-first-out plan that says how many units to take
    from each of them. */
module Fifo {
  import opened Wrappers
  import opened Calendar
  import opened ShareModel

  /** One entry of the transfer plan (ShareTransferInfo). */
  datatype TransferInfo = TransferInfo(
    shareId: int,
    originalUnits: int,
    unitsToTransfer: int,
    unitPrice: real,
    shareType: string)

  predicate IsActiveLotOf(s: Share, m: int) {
    s.memberId == m && s.status == Active
  }

  predicate PositiveUnits(s: seq<Share>) {
    forall i :: 0 <= i < |s| ==> s[i].units >= 1
  }

  predicate DistinctIds(s: seq<Share>) {
    forall i, j :: 0 <= i < j < |s| ==> s[i].shareId != s[j].shareId
  }

  predicate SortedByDate(s: seq<Share>) {
    forall i, j :: 0 <= i < j < |s| ==> NotAfter(s[i].purchaseDate, s[j].purchaseDate)
  }

  function SumUnits(s: seq<Share>): int {
    if s == [] then 0 else s[0].units + SumUnits(s[1..])
  }

  function SumTakes(plan: seq<TransferInfo>): int {
    if plan == [] then 0 else plan[0].unitsToTransfer + SumTakes(plan[1..])
  }

  /** GetMemberActiveShares: SUM(Units) over the member's Active lots, read
      as 0 when the sum is NULL because there are none. */
  function ActiveBalance(lots: seq<Share>, m: int): int {
    if lots == [] then 0
    else (if IsActiveLotOf(lots[0], m) then lots[0].units else 0) + ActiveBalance(lots[1..], m)
  }

  /** WHERE MemberId = @MemberId AND Status = 'Active', in table order. */
  function ActiveLotsOf(lots: seq<Share>, m: int): (r: seq<Share>)
    ensures |r| <= |lots|
    ensures forall x :: x in r <==> x in lots && IsActiveLotOf(x, m)
  {
    if lots == [] then []
    else (if IsActiveLotOf(lots[0], m) then [lots[0]] else []) + ActiveLotsOf(lots[1..], m)
  }

  /** Puts x before the first lot that is not older than it (stable insertion). */
  function InsertByDate(x: Share, s: seq<Share>): seq<Share> {
    if s == [] || NotAfter(x.purchaseDate, s[0].purchaseDate) then [x] + s
    else [s[0]] + InsertByDate(x, s[1..])
  }

  /** ORDER BY PurchaseDate. Lots bought at the same instant keep their
      table order. */
  function SortByDate(s: seq<Share>): seq<Share> {
    if s == [] then [] else InsertByDate(s[0], SortByDate(s[1..]))
  }

  /** The rows GetSharesForTransfer reads, in the order it reads them. */
  function FifoQueue(lots: seq<Share>, m: int): seq<Share> {
    SortByDate(ActiveLotsOf(lots, m))
  }

  function TakeFrom(s: Share, take: int): TransferInfo {
    TransferInfo(s.shareId, s.units, take, s.unitPrice, s.shareType)
  }

  /** The loop of GetSharesForTransfer as a function of the rows it reads:
      take min(available, remaining) from each lot, oldest first, and stop
      once nothing remains. */
  function FifoPlan(queue: seq<Share>, remaining: int): seq<TransferInfo> {
    if queue == [] || remaining <= 0 then []
    else
      var take := Min(queue[0].units, remaining);
      [TakeFrom(queue[0], take)] + FifoPlan(queue[1..], remaining - take)
  }

  /** GetSharesForTransfer. */
  method SharesForTransfer(lots: seq<Share>, memberId: int, unitsToTransfer: int)
    returns (shares: seq<TransferInfo>)
    ensures shares == FifoPlan(FifoQueue(lots, memberId), unitsToTransfer)
  {
    var rows := FifoQueue(lots, memberId);
    shares := [];
    var remaining := unitsToTransfer;
    var i := 0;
    while i < |rows| && remaining > 0
      invariant 0 <= i <= |rows|
      invariant shares + FifoPlan(rows[i..], remaining) == FifoPlan(rows, unitsToTransfer)
    {
      var units := Min(rows[i].units, remaining);
      assert rows[i..][1..] == rows[i + 1..];
      shares := shares + [TakeFrom(rows[i], units)];
      remaining := remaining - units;
      i := i + 1;
    }
  }

  // ---------------------------------------------------------------------
  // The balance

  /** The Active balance is the sum of units of the member's Active lots. */
  lemma {:induction false} ActiveBalanceIsSum(lots: seq<Share>, m: int)
    ensures ActiveBalance(lots, m) == SumUnits(ActiveLotsOf(lots, m))
  {
    if lots != [] {
      ActiveBalanceIsSum(lots[1..], m);
      if IsActiveLotOf(lots[0], m) {
        assert ActiveLotsOf(lots, m) == [lots[0]] + ActiveLotsOf(lots[1..], m);
      } else {
        assert ActiveLotsOf(lots, m) == ActiveLotsOf(lots[1..], m);
      }
    }
  }

  /** A member with no Active lot has balance 0 (the NULL sum); with lots
      of at least one unit each, a positive balance means an Active lot. */
  lemma {:induction false} ActiveBalanceZero(lots: seq<Share>, m: int)
    requires PositiveUnits(lots)
    ensures ActiveBalance(lots, m) >= 0
    ensures ActiveBalance(lots, m) == 0 <==> forall i :: 0 <= i < |lots| ==> !IsActiveLotOf(lots[i], m)
  {
    if lots != [] {
      ActiveBalanceZero(lots[1..], m);
      if forall i :: 0 <= i < |lots[1..]| ==> !IsActiveLotOf(lots[1..][i], m) {
        assert forall i :: 1 <= i < |lots| ==> !IsActiveLotOf(lots[i], m) by {
          forall i | 1 <= i < |lots| ensures !IsActiveLotOf(lots[i], m) {
            assert lots[i] == lots[1..][i - 1];
          }
        }
      }
    }
  }

  lemma {:induction false} ActiveBalanceAppend(a: seq<Share>, b: seq<Share>, m: int)
    ensures ActiveBalance(a + b, m) == ActiveBalance(a, m) + ActiveBalance(b, m)
  {
    if a != [] {
      assert (a + b)[0] == a[0];
      assert (a + b)[1..] == a[1..] + b;
      ActiveBalanceAppend(a[1..], b, m);
    } else {
      assert a + b == b;
    }
  }

  // ---------------------------------------------------------------------
  // Sorting by purchase date

  lemma {:induction false} InsertByDatePermutes(x: Share, s: seq<Share>)
    ensures multiset(InsertByDate(x, s)) == multiset(s) + multiset{x}
    ensures SumUnits(InsertByDate(x, s)) == x.units + SumUnits(s)
  {
    if s != [] && !NotAfter(x.purchaseDate, s[0].purchaseDate) {
      InsertByDatePermutes(x, s[1..]);
      assert s == [s[0]] + s[1..];
    }
  }

  /** No lot of s was bought before d. */
  predicate NoneBefore(d: DateTime, s: seq<Share>) {
    forall j :: 0 <= j < |s| ==> NotAfter(d, s[j].purchaseDate)
  }

  /** No lot of s carries the id. */
  predicate IdAbsent(id: int, s: seq<Share>) {
    forall j :: 0 <= j < |s| ==> s[j].shareId != id
  }

  lemma ConsSorted(h: Share, t: seq<Share>)
    requires SortedByDate(t) && NoneBefore(h.purchaseDate, t)
    ensures SortedByDate([h] + t)
  {
    var r := [h] + t;
    forall i, j | 0 <= i < j < |r| ensures NotAfter(r[i].purchaseDate, r[j].purchaseDate) {
      assert r[j] == t[j - 1];
      if i > 0 {
        assert r[i] == t[i - 1];
      }
    }
  }

  lemma ConsDistinct(h: Share, t: seq<Share>)
    requires DistinctIds(t) && IdAbsent(h.shareId, t)
    ensures DistinctIds([h] + t)
  {
    var r := [h] + t;
    forall i, j | 0 <= i < j < |r| ensures r[i].shareId != r[j].shareId {
      assert r[j] == t[j - 1];
      if i > 0 {
        assert r[i] == t[i - 1];
      }
    }
  }

  lemma {:induction false} InsertByDateNoneBefore(d: DateTime, x: Share, s: seq<Share>)
    requires NoneBefore(d, s) && NotAfter(d, x.purchaseDate)
    ensures NoneBefore(d, InsertByDate(x, s))
  {
    if s != [] && !NotAfter(x.purchaseDate, s[0].purchaseDate) {
      InsertByDateNoneBefore(d, x, s[1..]);
      var r := InsertByDate(x, s[1..]);
      forall j | 0 <= j < |[s[0]] + r| ensures NotAfter(d, ([s[0]] + r)[j].purchaseDate) {
        if j > 0 {
          assert ([s[0]] + r)[j] == r[j - 1];
        }
      }
    } else {
      forall j | 0 <= j < |[x] + s| ensures NotAfter(d, ([x] + s)[j].purchaseDate) {
        if j > 0 {
          assert ([x] + s)[j] == s[j - 1];
        }
      }
    }
  }

  lemma {:induction false} InsertByDateIdAbsent(id: int, x: Share, s: seq<Share>)
    requires IdAbsent(id, s) && x.shareId != id
    ensures IdAbsent(id, InsertByDate(x, s))
  {
    if s != [] && !NotAfter(x.purchaseDate, s[0].purchaseDate) {
      InsertByDateIdAbsent(id, x, s[1..]);
      var r := InsertByDate(x, s[1..]);
      forall j | 0 <= j < |[s[0]] + r| ensures ([s[0]] + r)[j].shareId != id {
        if j > 0 {
          assert ([s[0]] + r)[j] == r[j - 1];
        }
      }
    } else {
      forall j | 0 <= j < |[x] + s| ensures ([x] + s)[j].shareId != id {
        if j > 0 {
          assert ([x] + s)[j] == s[j - 1];
        }
      }
    }
  }

  lemma {:induction false} InsertByDateSorted(x: Share, s: seq<Share>)
    requires SortedByDate(s)
    ensures SortedByDate(InsertByDate(x, s))
  {
    if s == [] || NotAfter(x.purchaseDate, s[0].purchaseDate) {
      assert NoneBefore(x.purchaseDate, s) by {
        forall j | 0 <= j < |s| ensures NotAfter(x.purchaseDate, s[j].purchaseDate) {
          if j > 0 {
            assert NotAfter(s[0].purchaseDate, s[j].purchaseDate);
          }
        }
      }
      ConsSorted(x, s);
    } else {
      InsertByDateSorted(x, s[1..]);
      assert NoneBefore(s[0].purchaseDate, s[1..]) by {
        forall j | 0 <= j < |s[1..]| ensures NotAfter(s[0].purchaseDate, s[1..][j].purchaseDate) {
          assert s[1..][j] == s[j + 1];
        }
      }
      InsertByDateNoneBefore(s[0].purchaseDate, x, s[1..]);
      ConsSorted(s[0], InsertByDate(x, s[1..]));
    }
  }

  lemma {:induction false} InsertByDateDistinct(x: Share, s: seq<Share>)
    requires DistinctIds(s)
    requires forall i :: 0 <= i < |s| ==> s[i].shareId != x.shareId
    ensures DistinctIds(InsertByDate(x, s))
  {
    if s == [] || NotAfter(x.purchaseDate, s[0].purchaseDate) {
      ConsDistinct(x, s);
    } else {
      InsertByDateDistinct(x, s[1..]);
      assert IdAbsent(s[0].shareId, s[1..]) by {
        forall j | 0 <= j < |s[1..]| ensures s[1..][j].shareId != s[0].shareId {
          assert s[1..][j] == s[j + 1];
        }
      }
      InsertByDateIdAbsent(s[0].shareId, x, s[1..]);
      ConsDistinct(s[0], InsertByDate(x, s[1..]));
    }
  }

  /** ORDER BY PurchaseDate returns the same lots with the same units in all. */
  lemma {:induction false} SortByDatePermutes(s: seq<Share>)
    ensures multiset(SortByDate(s)) == multiset(s)
    ensures SumUnits(SortByDate(s)) == SumUnits(s)
  {
    if s != [] {
      SortByDatePermutes(s[1..]);
      InsertByDatePermutes(s[0], SortByDate(s[1..]));
      assert s == [s[0]] + s[1..];
    }
  }

  /** ORDER BY PurchaseDate puts the oldest lot first. */
  lemma {:induction false} SortByDateSorted(s: seq<Share>)
    ensures SortedByDate(SortByDate(s))
  {
    if s != [] {
      SortByDateSorted(s[1..]);
      InsertByDateSorted(s[0], SortByDate(s[1..]));
    }
  }

  /** Sorting keeps the share ids distinct. */
  lemma {:induction false} SortByDateDistinct(s: seq<Share>)
    requires DistinctIds(s)
    ensures DistinctIds(SortByDate(s))
  {
    if s != [] {
      assert DistinctIds(s[1..]);
      SortByDateDistinct(s[1..]);
      var t := SortByDate(s[1..]);
      SortByDatePermutes(s[1..]);
      forall i | 0 <= i < |t| ensures t[i].shareId != s[0].shareId {
        assert t[i] in multiset(t);
        assert t[i] in multiset(s[1..]);
        var k :| 0 <= k < |s[1..]| && s[1..][k] == t[i];
        assert s[k + 1] == t[i];
      }
      InsertByDateDistinct(s[0], t);
    }
  }

  lemma {:induction false} ActiveLotsOfDistinct(lots: seq<Share>, m: int)
    requires DistinctIds(lots)
    ensures DistinctIds(ActiveLotsOf(lots, m))
  {
    if lots != [] {
      ActiveLotsOfDistinct(lots[1..], m);
      var rest := ActiveLotsOf(lots[1..], m);
      forall i | 0 <= i < |rest| ensures rest[i].shareId != lots[0].shareId {
        assert rest[i] in lots[1..];
        var k :| 0 <= k < |lots[1..]| && lots[1..][k] == rest[i];
        assert lots[k + 1] == rest[i];
      }
    }
  }

  /** The rows of the FIFO query are exactly the member's Active lots,
      ordered by purchase date, with the member's balance as their sum. */
  lemma FifoQueueCorrect(lots: seq<Share>, m: int)
    ensures forall x :: x in FifoQueue(lots, m) <==> x in lots && IsActiveLotOf(x, m)
    ensures SortedByDate(FifoQueue(lots, m))
    ensures SumUnits(FifoQueue(lots, m)) == ActiveBalance(lots, m)
  {
    var a := ActiveLotsOf(lots, m);
    SortByDatePermutes(a);
    SortByDateSorted(a);
    ActiveBalanceIsSum(lots, m);
    var q := FifoQueue(lots, m);
    forall x ensures x in q <==> x in a {
      assert x in q <==> x in multiset(q);
      assert x in a <==> x in multiset(a);
    }
  }

  /** The queue inherits distinct ids and positive units from the table. */
  lemma FifoQueueWellFormed(lots: seq<Share>, m: int)
    requires DistinctIds(lots) && PositiveUnits(lots)
    ensures DistinctIds(FifoQueue(lots, m)) && PositiveUnits(FifoQueue(lots, m))
  {
    ActiveLotsOfDistinct(lots, m);
    SortByDateDistinct(ActiveLotsOf(lots, m));
    FifoQueueCorrect(lots, m);
    var q := FifoQueue(lots, m);
    forall i | 0 <= i < |q| ensures q[i].units >= 1 {
      assert q[i] in q;
      var k :| 0 <= k < |lots| && lots[k] == q[i];
    }
  }

  // ---------------------------------------------------------------------
  // The plan

  /** Each entry takes between 1 and all of the units of the lot at the
      same position of the queue, carrying its id and price, and every entry
      but the last takes its lot whole: at most one lot is split. */
  lemma {:induction false} FifoPlanShape(queue: seq<Share>, n: int)
    requires PositiveUnits(queue)
    ensures |FifoPlan(queue, n)| <= |queue|
    ensures forall i :: 0 <= i < |FifoPlan(queue, n)| ==>
      FifoPlan(queue, n)[i] == TakeFrom(queue[i], FifoPlan(queue, n)[i].unitsToTransfer) &&
      0 < FifoPlan(queue, n)[i].unitsToTransfer <= FifoPlan(queue, n)[i].originalUnits
    ensures forall i :: 0 <= i < |FifoPlan(queue, n)| - 1 ==>
      FifoPlan(queue, n)[i].unitsToTransfer == FifoPlan(queue, n)[i].originalUnits
  {
    if queue != [] && n > 0 {
      var take := Min(queue[0].units, n);
      FifoPlanShape(queue[1..], n - take);
      var rest := FifoPlan(queue[1..], n - take);
      assert FifoPlan(queue, n) == [TakeFrom(queue[0], take)] + rest;
      assert forall i :: 1 <= i < |queue| ==> queue[i] == queue[1..][i - 1];
    }
  }

  /** The plan takes min(n, available) units in all; in particular exactly
      n when the member holds at least n. */
  lemma {:induction false} FifoPlanSum(queue: seq<Share>, n: int)
    requires PositiveUnits(queue) && n >= 0
    ensures SumTakes(FifoPlan(queue, n)) == Min(n, SumUnits(queue))
  {
    if queue != [] {
      assert PositiveUnits(queue[1..]);
      var take := Min(queue[0].units, n);
      FifoPlanSum(queue[1..], n - take);
      assert SumUnits(queue[1..]) >= 0 by {
        UnitsNonNegative(queue[1..]);
      }
    }
  }

  lemma {:induction false} UnitsNonNegative(s: seq<Share>)
    requires PositiveUnits(s)
    ensures SumUnits(s) >= |s|
  {
    if s != [] {
      assert PositiveUnits(s[1..]);
      UnitsNonNegative(s[1..]);
    }
  }

  /** The loop stops as soon as the remainder reaches 0: before each entry
      fewer than n units have been planned. */
  lemma {:induction false} FifoPlanStopsAtZero(queue: seq<Share>, n: int)
    requires PositiveUnits(queue)
    ensures forall i :: 0 <= i < |FifoPlan(queue, n)| ==> SumTakes(FifoPlan(queue, n)[..i]) < n
  {
    if queue != [] && n > 0 {
      var take := Min(queue[0].units, n);
      assert PositiveUnits(queue[1..]);
      FifoPlanStopsAtZero(queue[1..], n - take);
      var plan := FifoPlan(queue, n);
      var rest := FifoPlan(queue[1..], n - take);
      forall i | 0 <= i < |plan| ensures SumTakes(plan[..i]) < n {
        if i > 0 {
          assert plan[..i] == [plan[0]] + rest[..i - 1];
          assert SumTakes(plan[..i]) == take + SumTakes(rest[..i - 1]);
        }
      }
    }
  }
}
