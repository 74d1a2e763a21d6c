/** The two read-only reports of the sales service: the summary of one day,
    with its per-seller breakdown, and the dashboard figures (all-time
    totals, two calendar-month windows and the most recent sales). */
module SaleStatistics {
  import opened Common
  import opened SaleModel
  import opened SaleQuery
  import opened SellerModel

  // ---------------------------------------------------------------------------
  // getDailySalesSummary
  // ---------------------------------------------------------------------------

  /** One entry of `sellers_summary`: a seller's count and sums for the day. */
  datatype SellerDaySummary = SellerDaySummary(sellerId: nat, salesCount: nat, totalAmount: Cents, totalCommission: Cents)

  datatype DailySummary = DailySummary(
    date: Date,
    totalAmount: Cents,
    totalCommission: Cents,
    salesCount: nat,
    sellersSummary: seq<SellerDaySummary>)

  /** `groupBy('seller_id')->map(…)`: one entry per seller, in the order of
      each seller's first row; the entry sums all of that seller's rows. */
  function GroupBySeller(rows: seq<Sale>): (groups: seq<SellerDaySummary>)
    ensures |groups| <= |rows|
    decreases |rows|
  {
    if rows == [] then []
    else
      var k := rows[0].sellerId;
      var t := TotalsOf(Where(rows, SellerIs(k)));
      [SellerDaySummary(k, t.count, t.amount, t.commission)] + GroupBySeller(Where(rows[1..], SellerIsNot(k)))
  }

  /** `getDailySalesSummary($date)`. */
  function DailySalesSummary(sales: seq<Sale>, date: Date): (d: DailySummary)
    ensures d.date == date && d.salesCount <= |sales|
  {
    var rows := Where(sales, DateIs(date));
    var t := TotalsOf(rows);
    DailySummary(date, t.amount, t.commission, t.count, GroupBySeller(rows))
  }

  /** The sums of a list of per-seller entries. */
  function SumGroups(groups: seq<SellerDaySummary>): Totals
  {
    if groups == [] then Totals(0, 0, 0)
    else Totals(groups[0].salesCount, groups[0].totalAmount, groups[0].totalCommission).Plus(SumGroups(groups[1..]))
  }

  function GroupIds(groups: seq<SellerDaySummary>): seq<nat>
  {
    if groups == [] then [] else [groups[0].sellerId] + GroupIds(groups[1..])
  }

  /** The rows of the seller a group is about are all gone from the rows left for the others. */
  lemma HeadGroupRows(rows: seq<Sale>)
    requires rows != []
    ensures Where(rows, SellerIsNot(rows[0].sellerId)) == Where(rows[1..], SellerIsNot(rows[0].sellerId))
  {
  }

  /** The per-seller counts and sums add up to the day's count and sums. */
  lemma {:induction false} GroupsAddUp(rows: seq<Sale>)
    ensures SumGroups(GroupBySeller(rows)) == TotalsOf(rows)
    decreases |rows|
  {
    if rows != [] {
      var k := rows[0].sellerId;
      var rest := Where(rows[1..], SellerIsNot(k));
      GroupsAddUp(rest);
      TotalsSplitBySeller(rows, k);
      HeadGroupRows(rows);
    }
  }

  /** Each seller with a row gets exactly one entry, and only they do. */
  lemma {:induction false} GroupIdsAreSellers(rows: seq<Sale>)
    ensures forall k :: k in GroupIds(GroupBySeller(rows)) <==> exists s :: s in rows && s.sellerId == k
    ensures forall i, j :: 0 <= i < j < |GroupIds(GroupBySeller(rows))| ==>
              GroupIds(GroupBySeller(rows))[i] != GroupIds(GroupBySeller(rows))[j]
    decreases |rows|
  {
    if rows != [] {
      GroupIdsAreSellers(Where(rows[1..], SellerIsNot(rows[0].sellerId)));
      GroupIdsStep(rows);
    }
  }

  /** The entries of a grouping name each seller with a row once, and no one else. */
  ghost predicate GroupIdsExact(rows: seq<Sale>)
  {
    && (forall k :: k in GroupIds(GroupBySeller(rows)) <==> exists s :: s in rows && s.sellerId == k)
    && (forall i, j :: 0 <= i < j < |GroupIds(GroupBySeller(rows))| ==>
          GroupIds(GroupBySeller(rows))[i] != GroupIds(GroupBySeller(rows))[j])
  }

  /** The step of GroupIdsAreSellers: the first row's seller heads the ids, in
      front of the ids of the rows of the other sellers. */
  lemma GroupIdsStep(rows: seq<Sale>)
    requires rows != []
    requires GroupIdsExact(Where(rows[1..], SellerIsNot(rows[0].sellerId)))
    ensures GroupIdsExact(rows)
  {
    var k := rows[0].sellerId;
    var rest := Where(rows[1..], SellerIsNot(k));
    WhereMembers(rows[1..], SellerIsNot(k));
    var ids := GroupIds(GroupBySeller(rows));
    var restIds := GroupIds(GroupBySeller(rest));
    assert ids == [k] + restIds;
    ConsIdsMembers(rows, rest, restIds);
    assert k !in restIds;
    ConsIdsDistinct(k, restIds);
  }

  /** Putting the first row's seller in front of the sellers of the other
      sellers' rows gives the sellers of all rows. */
  lemma ConsIdsMembers(rows: seq<Sale>, rest: seq<Sale>, restIds: seq<nat>)
    requires rows != []
    requires forall s :: s in rest <==> s in rows[1..] && s.sellerId != rows[0].sellerId
    requires forall j :: j in restIds <==> exists s :: s in rest && s.sellerId == j
    ensures forall j :: j in [rows[0].sellerId] + restIds <==> exists s :: s in rows && s.sellerId == j
  {
    var k := rows[0].sellerId;
    var ids := [k] + restIds;
    forall j | j in ids ensures exists s :: s in rows && s.sellerId == j {
      if j == k {
        assert rows[0] in rows;
      } else {
        var s :| s in rest && s.sellerId == j;
        assert s in rows[1..];
      }
    }
    forall j | exists s :: s in rows && s.sellerId == j ensures j in ids {
      var s :| s in rows && s.sellerId == j;
      if j != k {
        var i :| 0 <= i < |rows| && rows[i] == s;
        assert s in rows[1..] by { assert rows[1..][i - 1] == s; }
      }
    }
  }

  /** An id in front of distinct ids that do not hold it gives distinct ids. */
  lemma ConsIdsDistinct(k: nat, restIds: seq<nat>)
    requires k !in restIds
    requires forall i, j :: 0 <= i < j < |restIds| ==> restIds[i] != restIds[j]
    ensures var ids := [k] + restIds; forall i, j :: 0 <= i < j < |ids| ==> ids[i] != ids[j]
  {
    var ids := [k] + restIds;
    forall i, j | 0 <= i < j < |ids| ensures ids[i] != ids[j] {
      if i == 0 {
        assert ids[j] == restIds[j - 1];
      } else {
        assert ids[i] == restIds[i - 1] && ids[j] == restIds[j - 1];
      }
    }
  }

  /** Every entry holds the count and sums of all rows of its seller. */
  lemma {:induction false} GroupEntrySums(rows: seq<Sale>, i: nat)
    requires i < |GroupBySeller(rows)|
    ensures var g := GroupBySeller(rows)[i];
            TotalsOf(Where(rows, SellerIs(g.sellerId))) == Totals(g.salesCount, g.totalAmount, g.totalCommission)
    decreases |rows|
  {
    if i > 0 {
      var k := rows[0].sellerId;
      var rest := Where(rows[1..], SellerIsNot(k));
      GroupEntrySums(rest, i - 1);
      LaterGroupNotHead(rows, i);
      var j := GroupBySeller(rows)[i].sellerId;
      HeadGroupRows(rows);
      WhereOtherSeller(rows, k, j);
    }
  }

  /** An entry after the first is the matching entry of the other sellers'
      groups, and is about another seller than the first. */
  lemma LaterGroupNotHead(rows: seq<Sale>, i: nat)
    requires 0 < i < |GroupBySeller(rows)|
    ensures var rest := Where(rows[1..], SellerIsNot(rows[0].sellerId));
            && i - 1 < |GroupBySeller(rest)|
            && GroupBySeller(rows)[i] == GroupBySeller(rest)[i - 1]
            && GroupBySeller(rows)[i].sellerId != rows[0].sellerId
  {
    var k := rows[0].sellerId;
    var rest := Where(rows[1..], SellerIsNot(k));
    var g := GroupBySeller(rest)[i - 1];
    GroupIdsAreSellers(rest);
    GroupIdsAt(rest, i - 1);
    WhereMembers(rows[1..], SellerIsNot(k));
    var restIds := GroupIds(GroupBySeller(rest));
    assert restIds[i - 1] in restIds;
    var s :| s in rest && s.sellerId == g.sellerId;
  }

  lemma {:induction false} GroupIdsAt(rows: seq<Sale>, i: nat)
    requires i < |GroupBySeller(rows)|
    ensures |GroupIds(GroupBySeller(rows))| == |GroupBySeller(rows)|
    ensures GroupIds(GroupBySeller(rows))[i] == GroupBySeller(rows)[i].sellerId
    decreases |rows|
  {
    GroupIdsLength(GroupBySeller(rows), i);
  }

  lemma {:induction false} GroupIdsLength(groups: seq<SellerDaySummary>, i: nat)
    requires i < |groups|
    ensures |GroupIds(groups)| == |groups| && GroupIds(groups)[i] == groups[i].sellerId
    decreases |groups|
  {
    if i > 0 {
      GroupIdsLength(groups[1..], i - 1);
    } else if |groups| > 1 {
      GroupIdsLength(groups[1..], 0);
    }
  }

  /** The day's count and sums are those of the rows dated that day, and the
      per-seller entries add up to them. */
  lemma DailySummaryAddsUp(sales: seq<Sale>, date: Date)
    ensures var d := DailySalesSummary(sales, date);
            SumGroups(d.sellersSummary) == Totals(d.salesCount, d.totalAmount, d.totalCommission)
  {
    GroupsAddUp(Where(sales, DateIs(date)));
  }

  /** The entry of a seller in the day's breakdown carries the seller's own
      per-date figures, the ones the seller's commission mail reports. */
  lemma DailyEntryIsSellerFigures(sales: seq<Sale>, date: Date, seller: Seller, i: nat)
    requires i < |DailySalesSummary(sales, date).sellersSummary|
    requires DailySalesSummary(sales, date).sellersSummary[i].sellerId == seller.id
    ensures var g := DailySalesSummary(sales, date).sellersSummary[i];
            g.salesCount == SalesCountForDate(seller, sales, date)
            && g.totalAmount == TotalSalesForDate(seller, sales, date)
            && g.totalCommission == TotalCommissionForDate(seller, sales, date)
  {
    GroupEntrySums(Where(sales, DateIs(date)), i);
    WhereCommute(sales, DateIs(date), SellerIs(seller.id));
  }

  /** A row of another date changes nothing in the summary of `date`. */
  lemma OtherDatesIgnored(a: seq<Sale>, b: seq<Sale>, s: Sale, date: Date)
    requires s.saleDate != date
    ensures DailySalesSummary(a + [s] + b, date) == DailySalesSummary(a + b, date)
  {
    WhereSkip(a, b, s, DateIs(date));
  }

  /** A day without sales: zero count, zero sums, no per-seller entry. */
  lemma EmptyDay(sales: seq<Sale>, date: Date)
    requires forall s :: s in sales ==> s.saleDate != date
    ensures DailySalesSummary(sales, date) == DailySummary(date, 0, 0, 0, [])
  {
    NoRowsNoTotals(sales, DateIs(date));
  }

  /** Three sales by two sellers on the day give two entries, 2 sales and 1 sale. */
  lemma TwoSellersExample()
    ensures var sales := [Sale(1, 1, 100000, 8500, 20, 0), Sale(2, 2, 50000, 4250, 20, 1),
                          Sale(3, 1, 30000, 2550, 20, 2), Sale(4, 2, 70000, 5950, 21, 3)];
            var d := DailySalesSummary(sales, 20);
            d.salesCount == 3 && d.totalAmount == 180000 && d.totalCommission == 15300
            && d.sellersSummary == [SellerDaySummary(1, 2, 130000, 11050), SellerDaySummary(2, 1, 50000, 4250)]
  {
    var sales := [Sale(1, 1, 100000, 8500, 20, 0), Sale(2, 2, 50000, 4250, 20, 1),
                  Sale(3, 1, 30000, 2550, 20, 2), Sale(4, 2, 70000, 5950, 21, 3)];
    var rows := Where(sales, DateIs(20));
    assert rows == sales[..3];
    assert Where(rows[1..], SellerIsNot(1)) == [sales[1]];
  }

  // ---------------------------------------------------------------------------
  // getDashboardStats
  // ---------------------------------------------------------------------------

  /** A calendar month as the inclusive range of its days. */
  datatype MonthWindow = MonthWindow(first: Date, last: Date)

  datatype MonthStats = MonthStats(sellers: nat, sales: nat, revenue: Cents, commission: Cents)

  datatype DashboardStats = DashboardStats(
    totalSellers: nat,
    totalSales: nat,
    totalRevenue: Cents,
    totalCommission: Cents,
    recentSales: seq<Sale>,
    currentMonth: MonthStats,
    previousMonth: MonthStats)

  /** The seller has at least one of the rows. */
  predicate HasSaleIn(sellerId: nat, rows: seq<Sale>)
  {
    exists s :: s in rows && s.sellerId == sellerId
  }

  /** `Seller::whereHas('sales', …)->count()`: the registered sellers with a row. */
  function CountWithSales(sellers: seq<Seller>, rows: seq<Sale>): (n: nat)
    ensures n <= |sellers|
  {
    if sellers == [] then 0
    else (if HasSaleIn(sellers[0].id, rows) then 1 else 0) + CountWithSales(sellers[1..], rows)
  }

  /** The sales of one month window and the number of sellers with one of them. */
  function MonthStatsOf(sellers: seq<Seller>, sales: seq<Sale>, w: MonthWindow): (m: MonthStats)
    ensures m.sellers <= |sellers| && m.sales <= |sales|
  {
    var rows := Where(sales, DateBetween(w.first, w.last));
    var t := TotalsOf(rows);
    MonthStats(CountWithSales(sellers, rows), t.count, t.amount, t.commission)
  }

  const RecentLimit := 20

  /** `orderBy('sale_date','desc')->orderBy('created_at','desc')->limit(20)`. */
  function RecentSales(sales: seq<Sale>): (r: seq<Sale>)
    ensures |r| == if |sales| < RecentLimit then |sales| else RecentLimit
    ensures SortedBy(r, DateThenCreatedDesc)
    ensures forall s :: s in r ==> s in sales
    ensures multiset(r) <= multiset(sales)
  {
    var sorted := SortBy(sales, DateThenCreatedDesc);
    SortBySorted(sales, DateThenCreatedDesc);
    var r := Limit(sorted, RecentLimit);
    assert sorted == r + sorted[|r|..];
    assert multiset(sorted) == multiset(r) + multiset(sorted[|r|..]);
    forall s | s in r ensures s in sales {
      assert s in multiset(sorted);
    }
    assert forall i, j :: 0 <= i < j < |r| ==> r[i] == sorted[i] && r[j] == sorted[j];
    r
  }

  /** `getDashboardStats`, with today's month and the one before given as windows. */
  function Dashboard(sellers: seq<Seller>, sales: seq<Sale>, current: MonthWindow, previous: MonthWindow): (d: DashboardStats)
    ensures d.totalSellers == |sellers| && d.totalSales == |sales|
    ensures |d.recentSales| <= RecentLimit
  {
    var t := TotalsOf(sales);
    DashboardStats(|sellers|, t.count, t.amount, t.commission, RecentSales(sales),
                   MonthStatsOf(sellers, sales, current), MonthStatsOf(sellers, sales, previous))
  }

  /** A sale left out of the recent list is no more recent than any sale in it. */
  lemma RecentAreLatest(sales: seq<Sale>, s: Sale)
    requires s in sales && s !in RecentSales(sales)
    ensures forall r :: r in RecentSales(sales) ==> ListedFirst(r, s, DateThenCreatedDesc)
  {
    var sorted := SortBy(sales, DateThenCreatedDesc);
    SortBySorted(sales, DateThenCreatedDesc);
    assert s in multiset(sorted);
    var j :| 0 <= j < |sorted| && sorted[j] == s;
    var recent := RecentSales(sales);
    assert recent == sorted[..|recent|];
    forall r | r in recent ensures ListedFirst(r, s, DateThenCreatedDesc) {
      var i :| 0 <= i < |recent| && recent[i] == r;
      assert sorted[i] == r;
    }
  }

  /** A sale outside the month window changes nothing in that month's figures. */
  lemma MonthOutsideIgnored(sellers: seq<Seller>, a: seq<Sale>, b: seq<Sale>, s: Sale, w: MonthWindow)
    requires s.saleDate < w.first || s.saleDate > w.last
    ensures MonthStatsOf(sellers, a + [s] + b, w) == MonthStatsOf(sellers, a + b, w)
  {
    WhereSkip(a, b, s, DateBetween(w.first, w.last));
  }

  /** The registered ids, each listed once. */
  predicate DistinctIds(sellers: seq<Seller>)
  {
    forall i, j :: 0 <= i < j < |sellers| ==> sellers[i].id != sellers[j].id
  }

  /** The ids of the registered sellers having one of the rows. */
  function ActiveIds(sellers: seq<Seller>, rows: seq<Sale>): set<nat>
  {
    set i | 0 <= i < |sellers| && HasSaleIn(sellers[i].id, rows) :: sellers[i].id
  }

  /** With distinct ids, the month's seller count is the number of distinct
      registered sellers with at least one sale in the window. */
  lemma {:induction false} CountWithSalesIsDistinct(sellers: seq<Seller>, rows: seq<Sale>)
    requires DistinctIds(sellers)
    ensures CountWithSales(sellers, rows) == |ActiveIds(sellers, rows)|
    decreases |sellers|
  {
    if sellers == [] {
      assert ActiveIds(sellers, rows) == {};
    } else {
      var tail := sellers[1..];
      assert DistinctIds(tail) by {
        forall i, j | 0 <= i < j < |tail| ensures tail[i].id != tail[j].id {
          assert tail[i] == sellers[i + 1] && tail[j] == sellers[j + 1];
        }
      }
      CountWithSalesIsDistinct(tail, rows);
      ActiveIdsCons(sellers, rows);
    }
  }

  /** The active ids of a register are its head's id, when that seller has a
      row, joined to the active ids of the rest, which never hold the head's
      id when ids are distinct. */
  lemma ActiveIdsCons(sellers: seq<Seller>, rows: seq<Sale>)
    requires sellers != [] && DistinctIds(sellers)
    ensures sellers[0].id !in ActiveIds(sellers[1..], rows)
    ensures ActiveIds(sellers, rows)
            == ActiveIds(sellers[1..], rows) + (if HasSaleIn(sellers[0].id, rows) then {sellers[0].id} else {})
  {
    var tail := sellers[1..];
    var head := sellers[0].id;
    var rest := ActiveIds(tail, rows);
    var all := ActiveIds(sellers, rows);
    forall k | k in rest ensures k in all && k != head {
      var i :| 0 <= i < |tail| && HasSaleIn(tail[i].id, rows) && tail[i].id == k;
      assert sellers[i + 1].id == k;
    }
    forall k | k in all && k != head ensures k in rest {
      var i :| 0 <= i < |sellers| && HasSaleIn(sellers[i].id, rows) && sellers[i].id == k;
      assert tail[i - 1].id == k;
    }
  }
}
