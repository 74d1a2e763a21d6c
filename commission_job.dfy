/** The job that mails a seller the count and sums of its sales of one day. */
module SendDailyCommissionJob {
  import opened Common
  import opened SaleModel
  import opened SaleQuery
  import opened SellerModel
  import opened Mailing

  /** The mail the job sends: the seller's three per-date figures for `date`. */
  function CommissionPayload(seller: Seller, sales: seq<Sale>, date: Date): CommissionMail
  {
    CommissionMail(seller, date,
                   SalesCountForDate(seller, sales, date),
                   TotalSalesForDate(seller, sales, date),
                   TotalCommissionForDate(seller, sales, date))
  }

  /** `handle`: reads the three figures, then sends exactly one mail, to the seller. */
  method Handle(seller: Seller, date: Date, sales: seq<Sale>, mailer: Mailer)
    modifies mailer
    ensures mailer.outbox == old(mailer.outbox) + [Envelope(seller.email, Commission(CommissionPayload(seller, sales, date)))]
  {
    var salesCount := SalesCountForDate(seller, sales, date);
    var totalAmount := TotalSalesForDate(seller, sales, date);
    var totalCommission := TotalCommissionForDate(seller, sales, date);
    mailer.Send(seller.email, Commission(CommissionMail(seller, date, salesCount, totalAmount, totalCommission)));
  }

  /** A day without sales of the seller gives a mail of 0 sales, 0.00 and 0.00. */
  lemma ZeroSaleDay(seller: Seller, sales: seq<Sale>, date: Date)
    requires forall s :: s in sales ==> s.sellerId != seller.id || s.saleDate != date
    ensures CommissionPayload(seller, sales, date) == CommissionMail(seller, date, 0, 0, 0)
  {
    ZeroWithoutSales(seller, sales, date);
  }

  /** Sales of other days, or of other sellers, leave the mail as it is. */
  lemma OtherSalesExcluded(seller: Seller, a: seq<Sale>, b: seq<Sale>, s: Sale, date: Date)
    requires s.sellerId != seller.id || s.saleDate != date
    ensures CommissionPayload(seller, a + [s] + b, date) == CommissionPayload(seller, a + b, date)
  {
    OtherRowsIgnored(seller, a, b, s, date);
  }

  /** One more sale of the seller on the day counts once more and adds its
      amount and its stored commission. */
  lemma SaleOfTheDayAdds(seller: Seller, a: seq<Sale>, b: seq<Sale>, s: Sale, date: Date)
    requires s.sellerId == seller.id && s.saleDate == date
    ensures var before, after := CommissionPayload(seller, a + b, date), CommissionPayload(seller, a + [s] + b, date);
            after.salesCount == before.salesCount + 1
            && after.totalAmount == before.totalAmount + s.amount
            && after.totalCommission == before.totalCommission + s.commission
  {
    MatchingRowAdds(seller, a, b, s, date);
  }

  /** When every stored commission follows the rule, the mailed commission
      total is the sum of the rule applied to each of the day's amounts. */
  lemma {:induction false} MailedCommissionFollowsRule(seller: Seller, sales: seq<Sale>, date: Date)
    requires forall s :: s in sales ==> CommissionMatchesAmount(s)
    ensures CommissionPayload(seller, sales, date).totalCommission == RuleSum(SalesOn(seller, sales, date))
  {
    var on := SalesOn(seller, sales, date);
    SalesOnMembers(seller, sales, date);
    RuleSumOfMatching(on);
  }

  /** The sum of the rule's commission over the amounts of the rows. */
  function RuleSum(rows: seq<Sale>): Cents
  {
    if rows == [] then 0 else CalculateCommission(rows[0].amount) + RuleSum(rows[1..])
  }

  lemma {:induction false} RuleSumOfMatching(rows: seq<Sale>)
    requires forall s :: s in rows ==> CommissionMatchesAmount(s)
    ensures TotalsOf(rows).commission == RuleSum(rows)
    decreases |rows|
  {
    if rows != [] {
      assert rows[0] in rows;
      forall s | s in rows[1..] ensures CommissionMatchesAmount(s) {
        assert s in rows;
      }
      RuleSumOfMatching(rows[1..]);
    }
  }
}
