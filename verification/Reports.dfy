/** Report figures over the rows of a house, with an optional range of dates. */
module Reports {
  import opened Basics
  import opened Records
  import Lifecycle
  import opened Engine
  import opened Invariants
  import Bidding
  import BidLaws
  import Settlement
  import opened Houses

  // ---- Date ranges ----

  /** The local zone is three hours ahead of UTC all year. */
  const UTC_OFFSET: int := 3 * 60 * MINUTE

  /** The instant at which local day `day` begins. */
  function Midnight(day: int): Time {
    day * DAY - UTC_OFFSET
  }

  datatype Range = Range(start: Option<Time>, end: Option<Time>)

  /** From the first moment of `dateFrom` up to, not including, the first moment after `dateTo`. */
  function Bounds(dateFrom: Option<int>, dateTo: Option<int>): Range {
    Range(if dateFrom.None? then None else Some(Midnight(dateFrom.value)),
          if dateTo.None? then None else Some(Midnight(dateTo.value + 1)))
  }

  predicate InRange(t: Time, r: Range) {
    (r.start.Some? ==> r.start.value <= t) && (r.end.Some? ==> t < r.end.value)
  }

  /** The local day an instant falls on. */
  function LocalDay(t: Time): int {
    (t + 10_800_000_000) / 86_400_000_000
  }

  /** A range of dates takes in exactly the instants of its local days, the first and the last included. */
  lemma RangesAreLocalDays(t: Time, dateFrom: Option<int>, dateTo: Option<int>)
    ensures InRange(t, Bounds(dateFrom, dateTo)) <==>
              (dateFrom.Some? ==> dateFrom.value <= LocalDay(t)) && (dateTo.Some? ==> LocalDay(t) <= dateTo.value)
  {
    var d := LocalDay(t);
    assert Midnight(d) <= t < Midnight(d + 1);
    if dateFrom.Some? { MidnightsRise(dateFrom.value, d); MidnightsRise(d + 1, dateFrom.value); }
    if dateTo.Some? { MidnightsRise(d + 1, dateTo.value + 1); MidnightsRise(dateTo.value + 1, d); }
  }

  lemma MidnightsRise(a: int, b: int)
    ensures a <= b ==> Midnight(a) <= Midnight(b)
  {
  }

  // ---- Figures ----

  datatype Figure =
    | TotalAuctions
    | WithStatus(status: Status)
    | FinishedCount
    | SoldCount
    | SalesValue
    | BidCount
    | PaymentCount(of: PaymentStatus)
    | PaymentTotal(of: PaymentStatus)
    | CategoryTotal(category: string)
    | CategorySold(category: string)
    | CategoryValue(category: string)
    | DisputesTotal
    | DisputesActive

  predicate IsSold(l: Lot) {
    l.status in Lifecycle.FINISHED && l.winner.Some?
  }

  /** A sum over a null price counts as nothing. */
  function Price(l: Lot): Cents {
    if l.finalPrice.Some? then l.finalPrice.value else 0
  }

  function AcceptedIn(bids: seq<Bid>, r: Range): nat {
    if bids == [] then 0
    else
      var b := bids[|bids| - 1];
      AcceptedIn(bids[..|bids| - 1], r) + if b.status.Accepted? && InRange(b.time, r) then 1 else 0
  }

  function DisputesIn(disputes: seq<Dispute>, activeOnly: bool, r: Range): nat {
    if disputes == [] then 0
    else
      var d := disputes[|disputes| - 1];
      DisputesIn(disputes[..|disputes| - 1], activeOnly, r)
      + if (activeOnly ==> d.Active()) && InRange(d.createdAt, r) then 1 else 0
  }

  /** What one lot adds to a figure. Each table is filtered by its own creation times. */
  function Share(l: Lot, f: Figure, r: Range): int {
    var listed := InRange(l.createdAt, r);
    match f
    case TotalAuctions => if listed then 1 else 0
    case WithStatus(s) => if listed && l.status == s then 1 else 0
    case FinishedCount => if listed && l.status in Lifecycle.FINISHED then 1 else 0
    case SoldCount => if listed && IsSold(l) then 1 else 0
    case SalesValue => if listed && IsSold(l) then Price(l) else 0
    case BidCount => AcceptedIn(l.bids, r)
    case PaymentCount(s) =>
      if l.payment.Some? && l.payment.value.status == s && InRange(l.payment.value.createdAt, r) then 1 else 0
    case PaymentTotal(s) =>
      if l.payment.Some? && l.payment.value.status == s && InRange(l.payment.value.createdAt, r)
      then l.payment.value.amount else 0
    case CategoryTotal(c) => if listed && l.category == c then 1 else 0
    case CategorySold(c) => if listed && l.category == c && IsSold(l) then 1 else 0
    case CategoryValue(c) => if listed && l.category == c && IsSold(l) then Price(l) else 0
    case DisputesTotal => DisputesIn(l.disputes, false, r)
    case DisputesActive => DisputesIn(l.disputes, true, r)
  }

  function Total(lots: House, f: Figure, r: Range): int {
    if lots == [] then 0
    else Total(lots[..|lots| - 1], f, r) + Share(lots[|lots| - 1], f, r)
  }

  // ---- The summary ----

  datatype StatusLine = StatusLine(status: Status, n: int)
  datatype PaymentLine = PaymentLine(status: PaymentStatus, n: int, total: Cents)
  datatype CategoryLine = CategoryLine(category: string, total: int, sold: int, value: Cents)

  datatype Summary = Summary(
    totalAuctions: int, statusRows: seq<StatusLine>,
    finishedCount: int, soldCount: int, unsoldCount: int, salesValue: Cents, bidCount: int,
    paymentRows: seq<PaymentLine>, collected: Cents, outstanding: Cents,
    categoryRows: seq<CategoryLine>, disputesTotal: int, disputesActive: int)

  /** All statuses, in the order of their declaration. */
  const STATUSES: seq<Status> := [
    Draft, Submitted, Approved, Status.Rejected, Scheduled, Live,
    Paused, Closed, Settled, Completed, Cancelled, Disputed]

  const PAYMENT_STATUSES: seq<PaymentStatus> := [Pending, Paid, Failed, Refunded]

  /** One row for each status some auction of the range has. */
  function StatusRows(statuses: seq<Status>, lots: House, r: Range): seq<StatusLine> {
    if statuses == [] then []
    else
      var s := statuses[|statuses| - 1];
      var n := Total(lots, WithStatus(s), r);
      StatusRows(statuses[..|statuses| - 1], lots, r) + if n != 0 then [StatusLine(s, n)] else []
  }

  /** The categories of the auctions in range, each once. */
  function Categories(lots: House, r: Range): (names: seq<string>)
    ensures forall i, j :: 0 <= i < j < |names| ==> names[i] != names[j]
    ensures forall c :: c in names <==>
              exists i :: 0 <= i < |lots| && InRange(lots[i].createdAt, r) && lots[i].category == c
  {
    if lots == [] then []
    else
      var l := lots[|lots| - 1];
      var names := Categories(lots[..|lots| - 1], r);
      assert forall i :: 0 <= i < |lots| - 1 ==> lots[..|lots| - 1][i] == lots[i];
      if InRange(l.createdAt, r) && l.category !in names then names + [l.category] else names
  }

  function CategoryRow(name: string, lots: House, r: Range): CategoryLine {
    CategoryLine(name, Total(lots, CategoryTotal(name), r), Total(lots, CategorySold(name), r),
                 Total(lots, CategoryValue(name), r))
  }

  function RowsFor(names: seq<string>, lots: House, r: Range): (rows: seq<CategoryLine>)
    ensures |rows| == |names|
  {
    if names == [] then []
    else RowsFor(names[..|names| - 1], lots, r) + [CategoryRow(names[|names| - 1], lots, r)]
  }

  /** One row for each category in range. */
  function CategoryRows(lots: House, r: Range): seq<CategoryLine> {
    RowsFor(Categories(lots, r), lots, r)
  }

  function PaymentRows(statuses: seq<PaymentStatus>, lots: House, r: Range): (rows: seq<PaymentLine>)
    ensures |rows| == |statuses|
  {
    if statuses == [] then []
    else
      var s := statuses[|statuses| - 1];
      PaymentRows(statuses[..|statuses| - 1], lots, r)
      + [PaymentLine(s, Total(lots, PaymentCount(s), r), Total(lots, PaymentTotal(s), r))]
  }

  // ---- Adjacent ranges ----

  /** `a` ends where `b` begins. */
  predicate Adjacent(a: Range, b: Range) {
    && a.end.Some? && b.start == a.end
    && (a.start.Some? ==> a.start.value <= a.end.value)
    && (b.end.Some? ==> b.start.value <= b.end.value)
  }

  function Joined(a: Range, b: Range): Range {
    Range(a.start, b.end)
  }

  lemma InOneOfThem(t: Time, a: Range, b: Range)
    requires Adjacent(a, b)
    ensures InRange(t, Joined(a, b)) <==> InRange(t, a) || InRange(t, b)
    ensures !(InRange(t, a) && InRange(t, b))
  {
  }

  lemma {:induction false} AcceptedInAdds(bids: seq<Bid>, a: Range, b: Range)
    requires Adjacent(a, b)
    ensures AcceptedIn(bids, a) + AcceptedIn(bids, b) == AcceptedIn(bids, Joined(a, b))
  {
    if bids != [] {
      AcceptedInAdds(bids[..|bids| - 1], a, b);
      InOneOfThem(bids[|bids| - 1].time, a, b);
    }
  }

  lemma {:induction false} DisputesInAdds(disputes: seq<Dispute>, activeOnly: bool, a: Range, b: Range)
    requires Adjacent(a, b)
    ensures DisputesIn(disputes, activeOnly, a) + DisputesIn(disputes, activeOnly, b)
         == DisputesIn(disputes, activeOnly, Joined(a, b))
  {
    if disputes != [] {
      DisputesInAdds(disputes[..|disputes| - 1], activeOnly, a, b);
      InOneOfThem(disputes[|disputes| - 1].createdAt, a, b);
    }
  }

  lemma ShareAdds(l: Lot, f: Figure, a: Range, b: Range)
    requires Adjacent(a, b)
    ensures Share(l, f, a) + Share(l, f, b) == Share(l, f, Joined(a, b))
  {
    InOneOfThem(l.createdAt, a, b);
    if l.payment.Some? { InOneOfThem(l.payment.value.createdAt, a, b); }
    AcceptedInAdds(l.bids, a, b);
    DisputesInAdds(l.disputes, false, a, b);
    DisputesInAdds(l.disputes, true, a, b);
  }

  lemma {:induction false} TotalAdds(lots: House, f: Figure, a: Range, b: Range)
    requires Adjacent(a, b)
    ensures Total(lots, f, a) + Total(lots, f, b) == Total(lots, f, Joined(a, b))
  {
    hide Share;
    if lots != [] {
      TotalAdds(lots[..|lots| - 1], f, a, b);
      ShareAdds(lots[|lots| - 1], f, a, b);
    }
  }

  /**
   * Half-open bounds: every count and every sum of the report over two adjacent ranges of dates adds up
   * to that of the joined range, whichever of the outer ends are left open.
   */
  lemma AdjacentDatesAdd(lots: House, f: Figure, dateFrom: Option<int>, middle: int, dateTo: Option<int>)
    requires dateFrom.Some? ==> dateFrom.value <= middle + 1
    requires dateTo.Some? ==> middle <= dateTo.value
    ensures Total(lots, f, Bounds(dateFrom, Some(middle))) + Total(lots, f, Bounds(Some(middle + 1), dateTo))
         == Total(lots, f, Bounds(dateFrom, dateTo))
  {
    TotalAdds(lots, f, Bounds(dateFrom, Some(middle)), Bounds(Some(middle + 1), dateTo));
  }

  // ---- Partitions ----

  /** The sum of the `n` column. */
  function StatusSum(rows: seq<StatusLine>): int {
    if rows == [] then 0 else StatusSum(rows[..|rows| - 1]) + rows[|rows| - 1].n
  }

  /** Summing a figure over several statuses or categories at once. */
  function SumTotals(lots: House, fs: seq<Figure>, r: Range): int {
    if fs == [] then 0 else SumTotals(lots, fs[..|fs| - 1], r) + Total(lots, fs[|fs| - 1], r)
  }

  function SumShares(l: Lot, fs: seq<Figure>, r: Range): int {
    if fs == [] then 0 else SumShares(l, fs[..|fs| - 1], r) + Share(l, fs[|fs| - 1], r)
  }

  lemma {:induction false} SumsExchange(lots: House, fs: seq<Figure>, r: Range)
    requires lots != []
    ensures SumTotals(lots, fs, r)
         == SumTotals(lots[..|lots| - 1], fs, r) + SumShares(lots[|lots| - 1], fs, r)
  {
    hide Share;
    if fs != [] { SumsExchange(lots, fs[..|fs| - 1], r); }
  }

  lemma {:induction false} SumOfNothing(fs: seq<Figure>, r: Range)
    ensures SumTotals([], fs, r) == 0
  {
    if fs != [] { SumOfNothing(fs[..|fs| - 1], r); }
  }

  /** If every lot's shares of `fs` add up to its share of `f`, the totals of `fs` add up to that of `f`. */
  lemma {:induction false} SharesPartition(lots: House, fs: seq<Figure>, f: Figure, r: Range)
    requires forall i :: 0 <= i < |lots| ==> SumShares(lots[i], fs, r) == Share(lots[i], f, r)
    ensures SumTotals(lots, fs, r) == Total(lots, f, r)
  {
    hide Share;
    if lots == [] {
      SumOfNothing(fs, r);
    } else {
      var n := |lots| - 1;
      SumsExchange(lots, fs, r);
      assert forall i :: 0 <= i < n ==> lots[..n][i] == lots[i];
      SharesPartition(lots[..n], fs, f, r);
    }
  }

  function StatusFigures(statuses: seq<Status>): (fs: seq<Figure>)
    ensures |fs| == |statuses|
  {
    if statuses == [] then []
    else StatusFigures(statuses[..|statuses| - 1]) + [WithStatus(statuses[|statuses| - 1])]
  }

  /** Leaving out the rows that count nothing does not change the sum of the rows. */
  lemma {:induction false} StatusSumIsSumOfTotals(statuses: seq<Status>, lots: House, r: Range)
    ensures StatusSum(StatusRows(statuses, lots, r)) == SumTotals(lots, StatusFigures(statuses), r)
  {
    if statuses != [] {
      var n := |statuses| - 1;
      StatusSumIsSumOfTotals(statuses[..n], lots, r);
      assert StatusFigures(statuses)[..n] == StatusFigures(statuses[..n]);
      var before := StatusRows(statuses[..n], lots, r);
      var line := StatusLine(statuses[n], Total(lots, WithStatus(statuses[n]), r));
      assert (before + [line])[..|before|] == before;
      assert StatusRows(statuses, lots, r) == if line.n != 0 then before + [line] else before;
      assert StatusSum(before + [line]) == StatusSum(before) + line.n;
    }
  }

  lemma {:induction false} OneStatusEach(l: Lot, statuses: seq<Status>, r: Range)
    requires forall i, j :: 0 <= i < j < |statuses| ==> statuses[i] != statuses[j]
    ensures SumShares(l, StatusFigures(statuses), r)
         == if InRange(l.createdAt, r) && l.status in statuses then 1 else 0
  {
    if statuses != [] {
      var n := |statuses| - 1;
      OneStatusEach(l, statuses[..n], r);
      assert StatusFigures(statuses)[..n] == StatusFigures(statuses[..n]);
      assert l.status in statuses <==> l.status in statuses[..n] || l.status == statuses[n];
    }
  }

  /** The status rows partition the auctions of the range. */
  lemma StatusRowsPartition(lots: House, r: Range)
    ensures StatusSum(StatusRows(STATUSES, lots, r)) == Total(lots, TotalAuctions, r)
  {
    StatusSumIsSumOfTotals(STATUSES, lots, r);
    forall i | 0 <= i < |lots|
      ensures SumShares(lots[i], StatusFigures(STATUSES), r) == Share(lots[i], TotalAuctions, r)
    {
      OneStatusEach(lots[i], STATUSES, r);
      EveryStatusIsListed(lots[i].status);
    }
    SharesPartition(lots, StatusFigures(STATUSES), TotalAuctions, r);
  }

  lemma EveryStatusIsListed(s: Status)
    ensures s in STATUSES
  {
  }

  datatype Column = TotalColumn | SoldColumn | ValueColumn

  function Cell(column: Column, name: string): Figure {
    match column
    case TotalColumn => CategoryTotal(name)
    case SoldColumn => CategorySold(name)
    case ValueColumn => CategoryValue(name)
  }

  function Whole(column: Column): Figure {
    match column
    case TotalColumn => TotalAuctions
    case SoldColumn => SoldCount
    case ValueColumn => SalesValue
  }

  function ColumnFigures(column: Column, names: seq<string>): (fs: seq<Figure>)
    ensures |fs| == |names|
  {
    if names == [] then []
    else ColumnFigures(column, names[..|names| - 1]) + [Cell(column, names[|names| - 1])]
  }

  lemma CellIsWholeOrNothing(l: Lot, column: Column, name: string, r: Range)
    ensures Share(l, Cell(column, name), r) == if l.category == name then Share(l, Whole(column), r) else 0
  {
  }

  lemma {:induction false} OneCategoryEach(l: Lot, column: Column, names: seq<string>, r: Range)
    requires forall i, j :: 0 <= i < j < |names| ==> names[i] != names[j]
    ensures SumShares(l, ColumnFigures(column, names), r)
         == if l.category in names then Share(l, Whole(column), r) else 0
  {
    hide Share;
    if names != [] {
      var n := |names| - 1;
      OneCategoryEach(l, column, names[..n], r);
      CellIsWholeOrNothing(l, column, names[n], r);
      assert ColumnFigures(column, names)[..n] == ColumnFigures(column, names[..n]);
      assert l.category in names <==> l.category in names[..n] || l.category == names[n];
    }
  }

  /** The sum of one column of the category rows. */
  function ColumnSum(rows: seq<CategoryLine>, column: Column): int {
    if rows == [] then 0
    else
      var row := rows[|rows| - 1];
      ColumnSum(rows[..|rows| - 1], column) +
      match column
      case TotalColumn => row.total
      case SoldColumn => row.sold
      case ValueColumn => row.value
  }

  lemma {:induction false} ColumnSumIsSumOfTotals(names: seq<string>, column: Column, lots: House, r: Range)
    ensures ColumnSum(RowsFor(names, lots, r), column) == SumTotals(lots, ColumnFigures(column, names), r)
  {
    if names != [] {
      var n := |names| - 1;
      ColumnSumIsSumOfTotals(names[..n], column, lots, r);
      assert ColumnFigures(column, names)[..n] == ColumnFigures(column, names[..n]);
      assert RowsFor(names, lots, r)[..n] == RowsFor(names[..n], lots, r);
    }
  }

  /**
   * The category rows partition the auctions of the range, those sold, and their value: each column adds
   * up to the corresponding figure of the whole report.
   */
  lemma CategoryRowsPartition(lots: House, column: Column, r: Range)
    ensures ColumnSum(CategoryRows(lots, r), column) == Total(lots, Whole(column), r)
  {
    var names := Categories(lots, r);
    ColumnSumIsSumOfTotals(names, column, lots, r);
    forall i | 0 <= i < |lots|
      ensures SumShares(lots[i], ColumnFigures(column, names), r) == Share(lots[i], Whole(column), r)
    {
      OneCategoryEach(lots[i], column, names, r);
      if InRange(lots[i].createdAt, r) { assert lots[i].category in names; }
    }
    SharesPartition(lots, ColumnFigures(column, names), Whole(column), r);
  }

  // ---- Conservation of money ----

  const PAYMENT_TOTALS: seq<Figure> := [
    PaymentTotal(Pending), PaymentTotal(Paid), PaymentTotal(Failed), PaymentTotal(Refunded)]

  const PAYMENT_COUNTS: seq<Figure> := [
    PaymentCount(Pending), PaymentCount(Paid), PaymentCount(Failed), PaymentCount(Refunded)]

  lemma SumOfFour(l: Lot, a: Figure, b: Figure, c: Figure, d: Figure, r: Range)
    ensures SumShares(l, [a, b, c, d], r) == Share(l, a, r) + Share(l, b, r) + Share(l, c, r) + Share(l, d, r)
  {
    hide Share;
    var f1, f2, f3, f4 := [a], [a, b], [a, b, c], [a, b, c, d];
    assert f4[..3] == f3 && f3[..2] == f2 && f2[..1] == f1 && f1[..0] == [];
    assert SumShares(l, f1, r) == Share(l, a, r);
    assert SumShares(l, f2, r) == Share(l, a, r) + Share(l, b, r);
    assert SumShares(l, f3, r) == Share(l, a, r) + Share(l, b, r) + Share(l, c, r);
  }

  lemma TotalOfFour(lots: House, a: Figure, b: Figure, c: Figure, d: Figure, r: Range)
    ensures SumTotals(lots, [a, b, c, d], r)
         == Total(lots, a, r) + Total(lots, b, r) + Total(lots, c, r) + Total(lots, d, r)
  {
    var f1, f2, f3, f4 := [a], [a, b], [a, b, c], [a, b, c, d];
    assert f4[..3] == f3 && f3[..2] == f2 && f2[..1] == f1 && f1[..0] == [];
    assert SumTotals(lots, f1, r) == Total(lots, a, r);
    assert SumTotals(lots, f2, r) == Total(lots, a, r) + Total(lots, b, r);
    assert SumTotals(lots, f3, r) == Total(lots, a, r) + Total(lots, b, r) + Total(lots, c, r);
  }

  /** On one lot: sold exactly when there is a payment, at exactly its amount. */
  lemma SaleIsPayment(l: Lot, now: Time)
    requires Inv(l, now)
    ensures var all := Bounds(None, None);
            && SumShares(l, PAYMENT_TOTALS, all) == Share(l, SalesValue, all)
            && SumShares(l, PAYMENT_COUNTS, all) == Share(l, SoldCount, all)
  {
    var all := Bounds(None, None);
    SumOfFour(l, PaymentTotal(Pending), PaymentTotal(Paid), PaymentTotal(Failed), PaymentTotal(Refunded), all);
    SumOfFour(l, PaymentCount(Pending), PaymentCount(Paid), PaymentCount(Failed), PaymentCount(Refunded), all);
  }

  /**
   * Every sale is accounted for. Over a whole reachable house the reported sales value equals the sum of
   * pending, paid, failed and refunded payments, and the number of sales that of payments.
   */
  lemma MoneyIsConserved(house: House, now: Time)
    requires ReachableHouse(house, now)
    ensures var all := Bounds(None, None);
            Total(house, SalesValue, all)
            == Total(house, PaymentTotal(Pending), all) + Total(house, PaymentTotal(Paid), all)
               + Total(house, PaymentTotal(Failed), all) + Total(house, PaymentTotal(Refunded), all)
    ensures var all := Bounds(None, None);
            Total(house, SoldCount, all)
            == Total(house, PaymentCount(Pending), all) + Total(house, PaymentCount(Paid), all)
               + Total(house, PaymentCount(Failed), all) + Total(house, PaymentCount(Refunded), all)
  {
    hide Share;
    hide Inv;
    var all := Bounds(None, None);
    HouseInv(house, now);
    forall i | 0 <= i < |house|
      ensures SumShares(house[i], PAYMENT_TOTALS, all) == Share(house[i], SalesValue, all)
      ensures SumShares(house[i], PAYMENT_COUNTS, all) == Share(house[i], SoldCount, all)
    {
      SaleIsPayment(house[i], now);
    }
    SharesPartition(house, PAYMENT_TOTALS, SalesValue, all);
    SharesPartition(house, PAYMENT_COUNTS, SoldCount, all);
    TotalOfFour(house, PaymentTotal(Pending), PaymentTotal(Paid), PaymentTotal(Failed), PaymentTotal(Refunded), all);
    TotalOfFour(house, PaymentCount(Pending), PaymentCount(Paid), PaymentCount(Failed), PaymentCount(Refunded), all);
  }

  // ---- The summary as it is built ----

  function PaymentSum(rows: seq<PaymentLine>): Cents {
    if rows == [] then 0 else PaymentSum(rows[..|rows| - 1]) + rows[|rows| - 1].total
  }

  function PaymentCountSum(rows: seq<PaymentLine>): int {
    if rows == [] then 0 else PaymentCountSum(rows[..|rows| - 1]) + rows[|rows| - 1].n
  }

  lemma {:induction false} PaymentSums(statuses: seq<PaymentStatus>, counts: seq<Figure>, totals: seq<Figure>,
                                       lots: House, r: Range)
    requires |counts| == |statuses| == |totals|
    requires forall i :: 0 <= i < |statuses| ==>
                           counts[i] == PaymentCount(statuses[i]) && totals[i] == PaymentTotal(statuses[i])
    ensures PaymentCountSum(PaymentRows(statuses, lots, r)) == SumTotals(lots, counts, r)
    ensures PaymentSum(PaymentRows(statuses, lots, r)) == SumTotals(lots, totals, r)
  {
    if statuses != [] {
      var n := |statuses| - 1;
      PaymentSums(statuses[..n], counts[..n], totals[..n], lots, r);
      assert PaymentRows(statuses, lots, r)[..n] == PaymentRows(statuses[..n], lots, r);
    }
  }

  /** Without dates, on a reachable house, the sales of the report are its payment rows taken together. */
  lemma SalesArePayments(house: House, now: Time)
    requires ReachableHouse(house, now)
    ensures var all := Bounds(None, None);
            && Total(house, SalesValue, all) == PaymentSum(PaymentRows(PAYMENT_STATUSES, house, all))
            && Total(house, SoldCount, all) == PaymentCountSum(PaymentRows(PAYMENT_STATUSES, house, all))
  {
    hide ReachableHouse;
    hide Share;
    var all := Bounds(None, None);
    PaymentSums(PAYMENT_STATUSES, PAYMENT_COUNTS, PAYMENT_TOTALS, house, all);
    MoneyIsConserved(house, now);
    TotalOfFour(house, PaymentTotal(Pending), PaymentTotal(Paid), PaymentTotal(Failed), PaymentTotal(Refunded), all);
    TotalOfFour(house, PaymentCount(Pending), PaymentCount(Paid), PaymentCount(Failed), PaymentCount(Refunded), all);
  }

  /** Groups the auctions in range by status. */
  method GroupByStatus(lots: House, r: Range) returns (byStatus: map<Status, int>)
    ensures forall s :: s in byStatus ==> byStatus[s] == Total(lots, WithStatus(s), r) && byStatus[s] > 0
    ensures forall s :: s !in byStatus ==> Total(lots, WithStatus(s), r) == 0
  {
    byStatus := map[];
    for i := 0 to |lots|
      invariant forall s :: s in byStatus ==> byStatus[s] == Total(lots[..i], WithStatus(s), r) && byStatus[s] > 0
      invariant forall s :: s !in byStatus ==> Total(lots[..i], WithStatus(s), r) == 0
    {
      assert lots[..i + 1][..i] == lots[..i];
      var s := lots[i].status;
      if InRange(lots[i].createdAt, r) {
        byStatus := byStatus[s := (if s in byStatus then byStatus[s] else 0) + 1];
      }
    }
    assert lots[..|lots|] == lots;
  }

  /** The statuses that occur, in the order of their declaration. */
  method CountByStatus(lots: House, r: Range) returns (rows: seq<StatusLine>)
    ensures rows == StatusRows(STATUSES, lots, r)
  {
    hide Share;
    var byStatus := GroupByStatus(lots, r);
    rows := [];
    for k := 0 to |STATUSES|
      invariant rows == StatusRows(STATUSES[..k], lots, r)
    {
      assert STATUSES[..k + 1][..k] == STATUSES[..k];
      if STATUSES[k] in byStatus {
        rows := rows + [StatusLine(STATUSES[k], byStatus[STATUSES[k]])];
      }
    }
    assert STATUSES[..|STATUSES|] == STATUSES;
  }

  lemma {:induction false} NothingInOtherCategories(lots: House, name: string, r: Range)
    requires name !in Categories(lots, r)
    ensures CategoryRow(name, lots, r) == CategoryLine(name, 0, 0, 0)
  {
    if lots != [] {
      var n := |lots| - 1;
      NothingInOtherCategories(lots[..n], name, r);
    }
  }

  /** One more auction in range adds to the row of its category and to no other. */
  lemma OneMoreInCategory(lots: House, n: nat, name: string, r: Range)
    requires n < |lots|
    ensures var before := CategoryRow(name, lots[..n], r);
            var l := lots[n];
            CategoryRow(name, lots[..n + 1], r) ==
            if !InRange(l.createdAt, r) || l.category != name then before
            else
              CategoryLine(name, before.total + 1, before.sold + (if IsSold(l) then 1 else 0),
                           before.value + if IsSold(l) then Price(l) else 0)
  {
    assert lots[..n + 1][..n] == lots[..n];
  }

  /** One more auction names its category if that is in range and new. */
  lemma OneMoreCategory(lots: House, n: nat, r: Range)
    requires n < |lots|
    ensures var names := Categories(lots[..n], r);
            var l := lots[n];
            Categories(lots[..n + 1], r)
            == if InRange(l.createdAt, r) && l.category !in names then names + [l.category] else names
  {
    assert lots[..n + 1][..n] == lots[..n];
  }

  /** The sums of each category in range, and the categories in order of first appearance. */
  method CategoryGroups(lots: House, r: Range) returns (names: seq<string>, groups: map<string, CategoryLine>)
    ensures names == Categories(lots, r)
    ensures forall c :: c in names ==> c in groups && groups[c] == CategoryRow(c, lots, r)
  {
    hide CategoryRow;
    hide Categories;
    hide Total;
    hide Share;
    names, groups := [], map[];
    NoCategories(r);
    for i := 0 to |lots|
      invariant names == Categories(lots[..i], r)
      invariant forall c :: c in groups <==> c in names
      invariant forall c :: c in groups ==> groups[c] == CategoryRow(c, lots[..i], r)
    {
      var l := lots[i];
      var c := l.category;
      OneMoreCategory(lots, i, r);
      forall name { OneMoreInCategory(lots, i, name, r); }
      if InRange(l.createdAt, r) {
        if c !in groups {
          NothingInOtherCategories(lots[..i], c, r);
          names := names + [c];
          groups := groups[c := CategoryLine(c, 0, 0, 0)];
        }
        var g := groups[c];
        groups := groups[c := CategoryLine(c, g.total + 1, g.sold + (if IsSold(l) then 1 else 0),
                                           g.value + if IsSold(l) then Price(l) else 0)];
      }
    }
    assert lots[..|lots|] == lots;
  }

  lemma NoCategories(r: Range)
    ensures Categories([], r) == []
  {
  }

  /** Groups the auctions in range by category. */
  method GroupByCategory(lots: House, r: Range) returns (rows: seq<CategoryLine>)
    ensures rows == CategoryRows(lots, r)
  {
    hide CategoryRow;
    hide Categories;
    var names, groups := CategoryGroups(lots, r);
    rows := [];
    for k := 0 to |names|
      invariant rows == RowsFor(names[..k], lots, r)
    {
      assert names[..k + 1][..k] == names[..k];
      assert names[k] in names;
      rows := rows + [groups[names[k]]];
    }
    assert names[..|names|] == names;
  }

  method AggregatePayments(lots: House, s: PaymentStatus, r: Range) returns (n: int, total: Cents)
    ensures n == Total(lots, PaymentCount(s), r) && total == Total(lots, PaymentTotal(s), r)
  {
    n, total := 0, 0;
    for i := 0 to |lots|
      invariant n == Total(lots[..i], PaymentCount(s), r) && total == Total(lots[..i], PaymentTotal(s), r)
    {
      assert lots[..i + 1][..i] == lots[..i];
      var p := lots[i].payment;
      if p.Some? && p.value.status == s && InRange(p.value.createdAt, r) {
        n, total := n + 1, total + p.value.amount;
      }
    }
    assert lots[..|lots|] == lots;
  }

  method CountSales(lots: House, r: Range) returns (all: int, finished: int, sold: int, value: Cents)
    ensures all == Total(lots, TotalAuctions, r) && finished == Total(lots, FinishedCount, r)
    ensures sold == Total(lots, SoldCount, r) && value == Total(lots, SalesValue, r)
    ensures 0 <= sold <= finished <= all
  {
    all, finished, sold, value := 0, 0, 0, 0;
    for i := 0 to |lots|
      invariant all == Total(lots[..i], TotalAuctions, r) && finished == Total(lots[..i], FinishedCount, r)
      invariant sold == Total(lots[..i], SoldCount, r) && value == Total(lots[..i], SalesValue, r)
      invariant 0 <= sold <= finished <= all
    {
      assert lots[..i + 1][..i] == lots[..i];
      var l := lots[i];
      if InRange(l.createdAt, r) {
        all := all + 1;
        if l.status in Lifecycle.FINISHED {
          finished := finished + 1;
          if l.winner.Some? {
            sold, value := sold + 1, value + Price(l);
          }
        }
      }
    }
    assert lots[..|lots|] == lots;
  }

  method CountActivity(lots: House, r: Range) returns (bidCount: int, disputes: int, active: int)
    ensures bidCount == Total(lots, BidCount, r)
    ensures disputes == Total(lots, DisputesTotal, r) && active == Total(lots, DisputesActive, r)
  {
    bidCount, disputes, active := 0, 0, 0;
    for i := 0 to |lots|
      invariant bidCount == Total(lots[..i], BidCount, r)
      invariant disputes == Total(lots[..i], DisputesTotal, r) && active == Total(lots[..i], DisputesActive, r)
    {
      assert lots[..i + 1][..i] == lots[..i];
      bidCount := bidCount + AcceptedIn(lots[i].bids, r);
      disputes := disputes + DisputesIn(lots[i].disputes, false, r);
      active := active + DisputesIn(lots[i].disputes, true, r);
    }
    assert lots[..|lots|] == lots;
  }

  /** The figures of a summary, each as a total over the rows in range. */
  ghost predicate Shows(s: Summary, lots: House, r: Range) {
    && s.totalAuctions == Total(lots, TotalAuctions, r)
    && s.statusRows == StatusRows(STATUSES, lots, r)
    && s.finishedCount == Total(lots, FinishedCount, r)
    && s.soldCount == Total(lots, SoldCount, r)
    && s.salesValue == Total(lots, SalesValue, r)
    && s.bidCount == Total(lots, BidCount, r)
    && s.paymentRows == PaymentRows(PAYMENT_STATUSES, lots, r)
    && s.collected == Total(lots, PaymentTotal(Paid), r)
    && s.outstanding == Total(lots, PaymentTotal(Pending), r)
    && s.categoryRows == CategoryRows(lots, r)
    && s.disputesTotal == Total(lots, DisputesTotal, r)
    && s.disputesActive == Total(lots, DisputesActive, r)
  }

  /** Its rows add up to its printed totals, and sold and unsold auctions to the finished ones. */
  ghost predicate AddsUp(s: Summary) {
    && StatusSum(s.statusRows) == s.totalAuctions
    && ColumnSum(s.categoryRows, TotalColumn) == s.totalAuctions
    && ColumnSum(s.categoryRows, SoldColumn) == s.soldCount
    && ColumnSum(s.categoryRows, ValueColumn) == s.salesValue
    && s.soldCount + s.unsoldCount == s.finishedCount
    && 0 <= s.soldCount && 0 <= s.unsoldCount && s.finishedCount <= s.totalAuctions
  }

  /** Every sale of the summary is a payment of the summary, and at its amount. */
  ghost predicate Balances(s: Summary) {
    s.salesValue == PaymentSum(s.paymentRows) && s.soldCount == PaymentCountSum(s.paymentRows)
  }

  method BuildSummary(lots: House, dateFrom: Option<int>, dateTo: Option<int>) returns (s: Summary)
    ensures Shows(s, lots, Bounds(dateFrom, dateTo))
    ensures AddsUp(s)
    ensures forall now :: ReachableHouse(lots, now) && dateFrom.None? && dateTo.None? ==> Balances(s)
  {
    hide Share;
    hide ReachableHouse;
    hide StatusRows;
    var r := Bounds(dateFrom, dateTo);
    var statusRows := CountByStatus(lots, r);
    var all, finished, sold, value := CountSales(lots, r);
    var bidCount, disputes, active := CountActivity(lots, r);
    var paymentRows := [];
    for i := 0 to |PAYMENT_STATUSES|
      invariant paymentRows == PaymentRows(PAYMENT_STATUSES[..i], lots, r)
    {
      assert PAYMENT_STATUSES[..i + 1][..i] == PAYMENT_STATUSES[..i];
      var n, total := AggregatePayments(lots, PAYMENT_STATUSES[i], r);
      paymentRows := paymentRows + [PaymentLine(PAYMENT_STATUSES[i], n, total)];
    }
    assert PAYMENT_STATUSES[..|PAYMENT_STATUSES|] == PAYMENT_STATUSES;
    var categoryRows := GroupByCategory(lots, r);
    var _, collected := AggregatePayments(lots, Paid, r);
    var _, outstanding := AggregatePayments(lots, Pending, r);
    s := Summary(
      all, statusRows, finished, sold, finished - sold, value, bidCount, paymentRows, collected, outstanding,
      categoryRows, disputes, active);
    StatusRowsPartition(lots, r);
    CategoryRowsPartition(lots, TotalColumn, r);
    CategoryRowsPartition(lots, SoldColumn, r);
    CategoryRowsPartition(lots, ValueColumn, r);
    forall now | ReachableHouse(lots, now) && dateFrom.None? && dateTo.None? ensures Balances(s) {
      SalesArePayments(lots, now);
    }
  }
  // ---- The figures on the rows ----

  ghost function CountedBids(bids: seq<Bid>, r: Range): set<nat> {
    set i: nat | i < |bids| && bids[i].status.Accepted? && InRange(bids[i].time, r)
  }

  lemma CountedBidsGrow(bids: seq<Bid>, r: Range)
    requires bids != []
    ensures var n := |bids| - 1;
            && CountedBids(bids, r)
               == CountedBids(bids[..n], r) + (if bids[n].status.Accepted? && InRange(bids[n].time, r) then {n} else {})
            && n !in CountedBids(bids[..n], r)
  {
    hide InRange;
    var n := |bids| - 1;
    assert forall i :: 0 <= i < n ==> bids[..n][i] == bids[i];
  }

  lemma {:induction false} BidsAreCounted(bids: seq<Bid>, r: Range)
    ensures AcceptedIn(bids, r) == |CountedBids(bids, r)|
  {
    hide InRange;
    if bids == [] {
      assert CountedBids(bids, r) == {};
    } else {
      BidsAreCounted(bids[..|bids| - 1], r);
      CountedBidsGrow(bids, r);
    }
  }

  /** The auctions, and their payments, that a figure counts. */
  predicate IsCounted(l: Lot, f: Figure, r: Range) {
    match f
    case TotalAuctions => InRange(l.createdAt, r)
    case WithStatus(s) => InRange(l.createdAt, r) && l.status == s
    case FinishedCount => InRange(l.createdAt, r) && l.status in {Closed, Settled, Completed, Disputed}
    case SoldCount => InRange(l.createdAt, r) && l.status in {Closed, Settled, Completed, Disputed} && l.winner.Some?
    case CategoryTotal(c) => InRange(l.createdAt, r) && l.category == c
    case CategorySold(c) =>
      && InRange(l.createdAt, r) && l.category == c
      && l.status in {Closed, Settled, Completed, Disputed} && l.winner.Some?
    case PaymentCount(s) => l.payment.Some? && l.payment.value.status == s && InRange(l.payment.value.createdAt, r)
    case _ => false
  }

  predicate IsHeadCount(f: Figure) {
    f.TotalAuctions? || f.WithStatus? || f.FinishedCount? || f.SoldCount? || f.CategoryTotal? || f.CategorySold? ||
    f.PaymentCount?
  }

  lemma CountedOnce(l: Lot, f: Figure, r: Range)
    requires IsHeadCount(f)
    ensures Share(l, f, r) == if IsCounted(l, f, r) then 1 else 0
  {
    hide InRange;
  }

  ghost function CountedRows(lots: House, f: Figure, r: Range): set<nat> {
    set i: nat | i < |lots| && IsCounted(lots[i], f, r)
  }

  lemma CountedRowsGrow(lots: House, f: Figure, r: Range)
    requires lots != []
    ensures var n := |lots| - 1;
            && CountedRows(lots, f, r) == CountedRows(lots[..n], f, r) + (if IsCounted(lots[n], f, r) then {n} else {})
            && n !in CountedRows(lots[..n], f, r)
  {
    hide IsCounted;
    var n := |lots| - 1;
    assert forall i :: 0 <= i < n ==> lots[..n][i] == lots[i];
  }

  /** Each count of auctions or payments is the number of rows that meet its conditions. */
  lemma {:induction false} HeadCountsAreExact(lots: House, f: Figure, r: Range)
    requires IsHeadCount(f)
    ensures Total(lots, f, r) == |CountedRows(lots, f, r)|
  {
    hide Share;
    hide IsCounted;
    if lots == [] {
      assert CountedRows(lots, f, r) == {};
    } else {
      var n := |lots| - 1;
      HeadCountsAreExact(lots[..n], f, r);
      CountedOnce(lots[n], f, r);
      CountedRowsGrow(lots, f, r);
    }
  }

  /** Each row of the report says of its own status or category what it shows, and none that occurs is left out. */
  lemma RowsSayWhatTheyShow(lots: House, r: Range)
    ensures forall line :: line in StatusRows(STATUSES, lots, r) <==>
                             line.n == |CountedRows(lots, WithStatus(line.status), r)| && line.n > 0
    ensures forall line :: line in CategoryRows(lots, r) ==>
              && line.total == |CountedRows(lots, CategoryTotal(line.category), r)|
              && line.sold == |CountedRows(lots, CategorySold(line.category), r)|
              && line.value == Total(lots, CategoryValue(line.category), r)
    ensures forall line :: line in PaymentRows(PAYMENT_STATUSES, lots, r) <==>
              && line.n == |CountedRows(lots, PaymentCount(line.status), r)|
              && line.total == Total(lots, PaymentTotal(line.status), r)
  {
    hide IsCounted;
    hide Share;
    StatusRowsAre(STATUSES, lots, r);
    CategoryRowsAre(Categories(lots, r), lots, r);
    PaymentRowsAre(PAYMENT_STATUSES, lots, r);
    forall s: Status ensures s in STATUSES { EveryStatusIsListed(s); }
    forall s: PaymentStatus ensures s in PAYMENT_STATUSES { EveryPaymentStatusIsListed(s); }
    forall f | IsHeadCount(f) ensures Total(lots, f, r) == |CountedRows(lots, f, r)| {
      HeadCountsAreExact(lots, f, r);
    }
  }

  lemma EveryPaymentStatusIsListed(s: PaymentStatus)
    ensures s in PAYMENT_STATUSES
  {
  }

  lemma {:induction false} StatusRowsAre(statuses: seq<Status>, lots: House, r: Range)
    ensures forall line :: line in StatusRows(statuses, lots, r) <==>
              line.status in statuses && line.n == Total(lots, WithStatus(line.status), r) && line.n != 0
  {
    if statuses != [] {
      var n := |statuses| - 1;
      StatusRowsAre(statuses[..n], lots, r);
      assert forall s :: s in statuses <==> s in statuses[..n] || s == statuses[n];
    }
  }

  lemma {:induction false} CategoryRowsAre(names: seq<string>, lots: House, r: Range)
    ensures forall line :: line in RowsFor(names, lots, r) <==>
              line.category in names && line == CategoryRow(line.category, lots, r)
  {
    if names != [] {
      var n := |names| - 1;
      CategoryRowsAre(names[..n], lots, r);
      assert forall c :: c in names <==> c in names[..n] || c == names[n];
    }
  }

  lemma {:induction false} PaymentRowsAre(statuses: seq<PaymentStatus>, lots: House, r: Range)
    ensures forall line :: line in PaymentRows(statuses, lots, r) <==>
              && line.status in statuses
              && line.n == Total(lots, PaymentCount(line.status), r)
              && line.total == Total(lots, PaymentTotal(line.status), r)
  {
    if statuses != [] {
      var n := |statuses| - 1;
      PaymentRowsAre(statuses[..n], lots, r);
      assert forall s :: s in statuses <==> s in statuses[..n] || s == statuses[n];
    }
  }

  // ---- The report follows the services ----

  /** Changing one auction changes a figure by what that auction adds to it. */
  lemma {:induction false} OneAuctionChanged(lots: House, i: nat, l: Lot, f: Figure, r: Range)
    requires i < |lots|
    ensures Total(lots[i := l], f, r) == Total(lots, f, r) + Share(l, f, r) - Share(lots[i], f, r)
  {
    hide Share;
    var n := |lots| - 1;
    if i == n {
      assert lots[i := l][..n] == lots[..n];
    } else {
      OneAuctionChanged(lots[..n], i, l, f, r);
      assert lots[i := l][..n] == lots[..n][i := l];
    }
  }

  /** By how much a call on auction `i` changes a figure. */
  function Change(lots: House, i: nat, now: Time, op: Op, f: Figure, r: Range): int
    requires i < |lots|
  {
    Total(lots[i := Step(lots[i], now, op)], f, r) - Total(lots, f, r)
  }

  /** What moving a payment of `amount` from one status to another does to the payment rows. */
  ghost predicate PaymentMoves(
    lots: House, i: nat, now: Time, op: Op, from: PaymentStatus, to: PaymentStatus, amount: Cents, r: Range)
    requires i < |lots|
  {
    forall s ::
      && Change(lots, i, now, op, PaymentTotal(s), r) == (if s == from then -amount else if s == to then amount else 0)
      && Change(lots, i, now, op, PaymentCount(s), r) == (if s == from then -1 else if s == to then 1 else 0)
  }

  lemma PaymentShares(l: Lot, l': Lot, from: PaymentStatus, to: PaymentStatus, s: PaymentStatus, r: Range)
    requires from != to && l.payment.Some? && l'.payment.Some?
    requires var p, q := l.payment.value, l'.payment.value;
             && p.status == from && q.status == to && q.amount == p.amount && q.createdAt == p.createdAt
             && InRange(p.createdAt, r)
    ensures var amount := l.payment.value.amount;
            && Share(l', PaymentTotal(s), r) - Share(l, PaymentTotal(s), r)
               == (if s == from then -amount else if s == to then amount else 0)
            && Share(l', PaymentCount(s), r) - Share(l, PaymentCount(s), r)
               == (if s == from then -1 else if s == to then 1 else 0)
  {
    hide InRange;
  }

  lemma PaymentMoved(
    lots: House, i: nat, now: Time, op: Op, from: PaymentStatus, to: PaymentStatus, amount: Cents, r: Range)
    requires i < |lots| && from != to
    requires var p, q := lots[i].payment, Step(lots[i], now, op).payment;
             && p.Some? && p.value.status == from && p.value.amount == amount && InRange(p.value.createdAt, r)
             && q.Some? && q.value.status == to && q.value.amount == amount && q.value.createdAt == p.value.createdAt
    ensures PaymentMoves(lots, i, now, op, from, to, amount, r)
  {
    hide Apply;
    hide Step;
    hide InRange;
    hide Share;
    forall s
      ensures Change(lots, i, now, op, PaymentTotal(s), r)
           == (if s == from then -amount else if s == to then amount else 0)
      ensures Change(lots, i, now, op, PaymentCount(s), r) == (if s == from then -1 else if s == to then 1 else 0)
    {
      PaymentShares(lots[i], Step(lots[i], now, op), from, to, s, r);
      OneAuctionChanged(lots, i, Step(lots[i], now, op), PaymentTotal(s), r);
      OneAuctionChanged(lots, i, Step(lots[i], now, op), PaymentCount(s), r);
    }
  }

  /** Recording a payment moves it from the pending row to the paid or the failed one. */
  lemma ReportFollowsRecording(lots: House, i: nat, now: Time, op: Op, r: Range)
    requires i < |lots| && (op.MarkPaid? || op.MarkFailed?) && Apply(lots[i], now, op).Ok?
    ensures lots[i].payment.Some?
    ensures InRange(lots[i].payment.value.createdAt, r) ==>
              PaymentMoves(lots, i, now, op, Pending, if op.MarkPaid? then Paid else Failed,
                           lots[i].payment.value.amount, r)
  {
    var l := lots[i];
    assert l.payment.Some? && l.payment.value.status == Pending;
    var to := if op.MarkPaid? then Paid else Failed;
    if InRange(l.payment.value.createdAt, r) {
      PaymentMoved(lots, i, now, op, Pending, to, l.payment.value.amount, r);
    }
  }

  /** A refund moves the payment from the paid row to the refunded one. */
  lemma ReportFollowsRefund(lots: House, i: nat, now: Time, op: Op, r: Range)
    requires i < |lots| && op.ResolveDispute? && op.refund && Apply(lots[i], now, op).Ok?
    ensures lots[i].payment.Some?
    ensures InRange(lots[i].payment.value.createdAt, r) ==>
              PaymentMoves(lots, i, now, op, Paid, Refunded, lots[i].payment.value.amount, r)
  {
    hide Strip;
    hide Settlement.RefundReason;
    hide Settlement.Shortened;
    var l := lots[i];
    assert l.payment.Some? && l.payment.value.status == Paid;
    if InRange(l.payment.value.createdAt, r) {
      PaymentMoved(lots, i, now, op, Paid, Refunded, l.payment.value.amount, r);
    }
  }

  /** Closing an auction of the range makes it finished, and sold at the price of the last accepted bid or not sold. */
  lemma ReportFollowsClosing(lots: House, i: nat, now: Time, who: Option<User>, why: Reason, r: Range)
    requires i < |lots| && Reachable(lots[i], now) && lots[i].status == Live
    ensures var op := CloseAuction(who, why);
            var listed := if InRange(lots[i].createdAt, r) then 1 else 0;
            var billed := if InRange(now, r) then 1 else 0;
            var sold := if BidLaws.WillSell(lots[i]) then 1 else 0;
            var price := if BidLaws.WillSell(lots[i])
                         then lots[i].bids[BidLaws.LastAccepted(lots[i].bids).value].amount else 0;
            && Change(lots, i, now, op, TotalAuctions, r) == 0
            && Change(lots, i, now, op, FinishedCount, r) == listed
            && Change(lots, i, now, op, SoldCount, r) == listed * sold
            && Change(lots, i, now, op, SalesValue, r) == listed * price
            && Change(lots, i, now, op, PaymentCount(Pending), r) == billed * sold
            && Change(lots, i, now, op, PaymentTotal(Pending), r) == billed * price
  {
    hide Reachable;
    hide InRange;
    hide Share;
    hide Apply;
    hide BidLaws.WillSell;
    var l := lots[i];
    var op := CloseAuction(who, why);
    var l' := Step(l, now, op);
    ClosedRows(l, now, who, why);
    ClosedShares(l, l', if BidLaws.WillSell(l) then l'.finalPrice else None, now, r);
    hide Step;
    forall f { OneAuctionChanged(lots, i, l', f, r); }
  }

  lemma ClosedShares(l: Lot, l': Lot, price: Option<Cents>, now: Time, r: Range)
    requires l.status == Live && l.winner.None? && l.payment.None?
    requires l'.status == Closed && l'.createdAt == l.createdAt && l'.finalPrice == price
    requires l'.winner.Some? <==> price.Some?
    requires l'.payment
          == if price.Some? then Some(Payment(price.value, Pending, "", "", "", None, None, now)) else None
    ensures var listed := if InRange(l.createdAt, r) then 1 else 0;
            var billed := if InRange(now, r) then 1 else 0;
            var sold := if price.Some? then 1 else 0;
            var amount := if price.Some? then price.value else 0;
            && Share(l', TotalAuctions, r) - Share(l, TotalAuctions, r) == 0
            && Share(l', FinishedCount, r) - Share(l, FinishedCount, r) == listed
            && Share(l', SoldCount, r) - Share(l, SoldCount, r) == listed * sold
            && Share(l', SalesValue, r) - Share(l, SalesValue, r) == listed * amount
            && Share(l', PaymentCount(Pending), r) - Share(l, PaymentCount(Pending), r) == billed * sold
            && Share(l', PaymentTotal(Pending), r) - Share(l, PaymentTotal(Pending), r) == billed * amount
  {
    hide InRange;
  }

  lemma LiveIsUnsold(l: Lot, now: Time)
    requires Reachable(l, now) && l.status == Live
    ensures l.winner.None? && l.payment.None?
  {
    hide Reachable;
    ReachableInv(l, now);
  }

  lemma ClosedRows(l: Lot, now: Time, who: Option<User>, why: Reason)
    requires Reachable(l, now) && l.status == Live
    ensures var l' := Step(l, now, CloseAuction(who, why));
            && l.winner.None? && l.payment.None?
            && l'.status == Closed && l'.createdAt == l.createdAt
            && (l'.winner.Some? <==> BidLaws.WillSell(l))
            && l'.finalPrice == (if BidLaws.WillSell(l)
                                 then Some(l.bids[BidLaws.LastAccepted(l.bids).value].amount) else None)
            && l'.payment == (if BidLaws.WillSell(l)
                              then Some(Payment(l'.finalPrice.value, Pending, "", "", "", None, None, now)) else None)
  {
    hide Reachable;
    hide Inv;
    hide Bidding.CloseAuction;
    hide BidLaws.WillSell;
    BidLaws.ClosingOutcome(l, now, who, why);
    BidLaws.LeadersAgree(l, now);
    LiveIsUnsold(l, now);
    WillSellHasLeader(l);
  }

  lemma WillSellHasLeader(l: Lot)
    ensures BidLaws.WillSell(l) ==> BidLaws.LastAccepted(l.bids).Some?
  {
  }

  /** A bid adds one to the accepted bids of the range, and an invalidation takes it out again. */
  lemma ReportFollowsBids(lots: House, i: nat, now: Time, op: Op, r: Range)
    requires i < |lots| && (op.PlaceBid? || op.InvalidateBid?) && Apply(lots[i], now, op).Ok?
    ensures op.PlaceBid? ==> Change(lots, i, now, op, BidCount, r) == if InRange(now, r) then 1 else 0
    ensures op.InvalidateBid? ==>
              && op.k < |lots[i].bids|
              && var bid := lots[i].bids[op.k];
                 Change(lots, i, now, op, BidCount, r)
                 == if bid.status.Accepted? && InRange(bid.time, r) then -1 else 0
  {
    hide InRange;
    var l := lots[i];
    OneAuctionChanged(lots, i, Step(l, now, op), BidCount, r);
    if op.PlaceBid? {
      var bids := Step(l, now, op).bids;
      assert bids[..|bids| - 1] == l.bids;
    } else {
      InvalidatedIsNotCounted(l.bids, op.k, Step(l, now, op).bids[op.k].status, r);
    }
  }

  lemma {:induction false} InvalidatedIsNotCounted(bids: seq<Bid>, k: nat, status: BidStatus, r: Range)
    requires k < |bids| && status.Invalidated?
    ensures AcceptedIn(bids[k := bids[k].(status := status)], r)
         == AcceptedIn(bids, r) - if bids[k].status.Accepted? && InRange(bids[k].time, r) then 1 else 0
  {
    hide InRange;
    var n := |bids| - 1;
    var bids' := bids[k := bids[k].(status := status)];
    if k == n {
      assert bids'[..n] == bids[..n];
    } else {
      InvalidatedIsNotCounted(bids[..n], k, status, r);
      assert bids'[..n] == bids[..n][k := bids[k].(status := status)];
    }
  }

  lemma OpenedRow(l: Lot, now: Time, op: Op)
    requires op.OpenDispute? && Apply(l, now, op).Ok?
    ensures var n, disputes := |l.disputes|, Step(l, now, op).disputes;
            && |disputes| == n + 1 && disputes[..n] == l.disputes
            && disputes[n].createdAt == now && disputes[n].Active()
  {
  }

  lemma ResolvedRow(l: Lot, now: Time, op: Op)
    requires op.ResolveDispute? && Apply(l, now, op).Ok?
    ensures op.k < |l.disputes| == |Step(l, now, op).disputes| && l.disputes[op.k].Active()
    ensures var status := Step(l, now, op).disputes[op.k].status;
            status.Resolved? && Step(l, now, op).disputes == l.disputes[op.k := l.disputes[op.k].(status := status)]
  {
    hide Strip;
    hide Settlement.Shortened;
    hide Settlement.RefundReason;
  }

  /** A dispute opened counts as raised and as active, and resolving it makes it no longer active. */
  lemma ReportFollowsDisputes(lots: House, i: nat, now: Time, op: Op, r: Range)
    requires i < |lots| && (op.OpenDispute? || op.ResolveDispute?) && Apply(lots[i], now, op).Ok?
    ensures op.OpenDispute? ==>
              && Change(lots, i, now, op, DisputesTotal, r) == (if InRange(now, r) then 1 else 0)
              && Change(lots, i, now, op, DisputesActive, r) == (if InRange(now, r) then 1 else 0)
    ensures op.ResolveDispute? ==>
              && op.k < |lots[i].disputes|
              && Change(lots, i, now, op, DisputesTotal, r) == 0
              && Change(lots, i, now, op, DisputesActive, r)
                 == if InRange(lots[i].disputes[op.k].createdAt, r) then -1 else 0
  {
    hide InRange;
    hide Apply;
    var l := lots[i];
    var l' := Step(l, now, op);
    OneAuctionChanged(lots, i, l', DisputesTotal, r);
    OneAuctionChanged(lots, i, l', DisputesActive, r);
    if op.OpenDispute? {
      OpenedRow(l, now, op);
      assert l'.disputes[..|l.disputes|] == l.disputes;
    } else {
      ResolvedRow(l, now, op);
      ResolvedIsNotActive(l.disputes, op.k, l'.disputes[op.k].status, r);
    }
  }

  lemma {:induction false} ResolvedIsNotActive(disputes: seq<Dispute>, k: nat, status: DisputeStatus, r: Range)
    requires k < |disputes| && disputes[k].Active() && status.Resolved?
    ensures var disputes' := disputes[k := disputes[k].(status := status)];
            && DisputesIn(disputes', false, r) == DisputesIn(disputes, false, r)
            && DisputesIn(disputes', true, r)
               == DisputesIn(disputes, true, r) - if InRange(disputes[k].createdAt, r) then 1 else 0
  {
    hide InRange;
    var n := |disputes| - 1;
    var disputes' := disputes[k := disputes[k].(status := status)];
    if k == n {
      assert disputes'[..n] == disputes[..n];
    } else {
      ResolvedIsNotActive(disputes[..n], k, status, r);
      assert disputes'[..n] == disputes[..n][k := disputes[k].(status := status)];
    }
  }}
