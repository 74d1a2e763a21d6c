/** A seller and the three per-date figures it reports about its own sales:
    how many there were on a date, and the sums of their amounts and of their
    stored commissions. */
module SellerModel {
  import opened Common
  import opened SaleModel
  import opened SaleQuery

  datatype Seller = Seller(id: nat, name: string, email: string)

  /** `$seller->sales()->whereDate('sale_date', $date)`: the seller's rows dated `date`. */
  function SalesOn(seller: Seller, sales: seq<Sale>, date: Date): (r: seq<Sale>)
    ensures |r| <= |sales|
  {
    Where(Where(sales, SellerIs(seller.id)), DateIs(date))
  }

  /** The row belongs to the seller and is dated `date`. */
  predicate CountsFor(seller: Seller, date: Date, s: Sale)
  {
    s.sellerId == seller.id && s.saleDate == date
  }

  /** `getSalesCountForDate`. */
  function SalesCountForDate(seller: Seller, sales: seq<Sale>, date: Date): (n: nat)
    ensures n <= |sales|
  {
    TotalsOf(SalesOn(seller, sales, date)).count
  }

  /** `getTotalSalesForDate`: the sum of the stored amounts. */
  function TotalSalesForDate(seller: Seller, sales: seq<Sale>, date: Date): Cents
  {
    TotalsOf(SalesOn(seller, sales, date)).amount
  }

  /** `getTotalCommissionForDate`: the sum of the stored commissions. */
  function TotalCommissionForDate(seller: Seller, sales: seq<Sale>, date: Date): Cents
  {
    TotalsOf(SalesOn(seller, sales, date)).commission
  }

  /** The rows the three figures are taken over are exactly the seller's rows of that date. */
  lemma SalesOnMembers(seller: Seller, sales: seq<Sale>, date: Date)
    ensures forall s :: s in SalesOn(seller, sales, date) <==> s in sales && CountsFor(seller, date, s)
  {
    WhereMembers(sales, SellerIs(seller.id));
    WhereMembers(Where(sales, SellerIs(seller.id)), DateIs(date));
  }

  /** A row of another seller, or of another date, never contributes to any of the three figures. */
  lemma OtherRowsIgnored(seller: Seller, a: seq<Sale>, b: seq<Sale>, s: Sale, date: Date)
    requires !CountsFor(seller, date, s)
    ensures SalesCountForDate(seller, a + [s] + b, date) == SalesCountForDate(seller, a + b, date)
    ensures TotalSalesForDate(seller, a + [s] + b, date) == TotalSalesForDate(seller, a + b, date)
    ensures TotalCommissionForDate(seller, a + [s] + b, date) == TotalCommissionForDate(seller, a + b, date)
  {
    assert SalesOn(seller, a + [s] + b, date) == SalesOn(seller, a + b, date) by {
      var bySeller := SellerIs(seller.id);
      if s.sellerId != seller.id {
        WhereSkip(a, b, s, bySeller);
      } else {
        WhereKeep(a, b, s, bySeller);
        WhereSkip(Where(a, bySeller), Where(b, bySeller), s, DateIs(date));
        WhereConcat(a, b, bySeller);
      }
    }
  }

  /** A row of the seller on that date adds one to the count, its amount to the
      total and its stored commission to the commission total. */
  lemma MatchingRowAdds(seller: Seller, a: seq<Sale>, b: seq<Sale>, s: Sale, date: Date)
    requires CountsFor(seller, date, s)
    ensures SalesCountForDate(seller, a + [s] + b, date) == SalesCountForDate(seller, a + b, date) + 1
    ensures TotalSalesForDate(seller, a + [s] + b, date) == TotalSalesForDate(seller, a + b, date) + s.amount
    ensures TotalCommissionForDate(seller, a + [s] + b, date) == TotalCommissionForDate(seller, a + b, date) + s.commission
  {
    var bySeller, byDate := SellerIs(seller.id), DateIs(date);
    var wa, wb := Where(a, bySeller), Where(b, bySeller);
    WhereKeep(a, b, s, bySeller);
    WhereKeep(wa, wb, s, byDate);
    WhereConcat(a, b, bySeller);
    WhereConcat(wa, wb, byDate);
    var da, db := Where(wa, byDate), Where(wb, byDate);
    TotalsConcat(da + [s], db);
    TotalsConcat(da, [s]);
    TotalsConcat(da, db);
  }

  /** The count is zero exactly when the seller has no row on that date, and
      then both sums are zero as well. */
  lemma ZeroWithoutSales(seller: Seller, sales: seq<Sale>, date: Date)
    ensures SalesCountForDate(seller, sales, date) == 0 <==> forall s :: s in sales ==> !CountsFor(seller, date, s)
    ensures SalesCountForDate(seller, sales, date) == 0 ==>
      TotalSalesForDate(seller, sales, date) == 0 && TotalCommissionForDate(seller, sales, date) == 0
  {
    SalesOnMembers(seller, sales, date);
    var on := SalesOn(seller, sales, date);
    if on != [] {
      assert on[0] in on;
    } else {
      assert TotalsOf(on) == Totals(0, 0, 0);
    }
  }

  /** The commission total adds up what is stored, even when a stored
      commission differs from what the rule gives for the amount. */
  lemma StoredCommissionSummed()
    ensures var seller := Seller(1, "Ana", "ana@example.com");
            var sale := Sale(1, 1, 100000, 1000, 20, 0);
            !CommissionMatchesAmount(sale)
            && TotalCommissionForDate(seller, [sale], 20) == 1000
  {
  }

  /** Three sales of 1000.00, 500.00 and 300.00 on the same day, with one of
      another day, give 3 sales, 1800.00 in total and 153.00 of commission. */
  lemma SameDayExample()
    ensures var seller := Seller(7, "Ana", "ana@example.com");
            var sales := [Sale(1, 7, 100000, CalculateCommission(100000), 20, 0),
                          Sale(2, 7, 50000, CalculateCommission(50000), 20, 1),
                          Sale(3, 7, 30000, CalculateCommission(30000), 20, 2),
                          Sale(4, 7, 90000, CalculateCommission(90000), 19, 3)];
            SalesCountForDate(seller, sales, 20) == 3
            && TotalSalesForDate(seller, sales, 20) == 180000
            && TotalCommissionForDate(seller, sales, 20) == 15300
  {
  }
}
