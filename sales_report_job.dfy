/** The job that mails an administrator the summary of one day of sales. */
module SendDailySalesReportJob {
  import opened Common
  import opened SaleModel
  import opened SaleQuery
  import opened SaleStatistics
  import opened Mailing

  /** The mail the job sends: date, total amount, count and per-seller
      breakdown of the day's summary. */
  function ReportPayload(sales: seq<Sale>, date: Date): SalesReportMail
  {
    var summary := DailySalesSummary(sales, date);
    SalesReportMail(date, summary.totalAmount, summary.salesCount, summary.sellersSummary)
  }

  /** `handle`: fetches the day's summary, then sends exactly one mail, to the administrator. */
  method Handle(date: Date, adminEmail: string, sales: seq<Sale>, mailer: Mailer)
    modifies mailer
    ensures mailer.outbox == old(mailer.outbox) + [Envelope(adminEmail, Report(ReportPayload(sales, date)))]
  {
    var summary := DailySalesSummary(sales, date);
    mailer.Send(adminEmail, Report(SalesReportMail(date, summary.totalAmount, summary.salesCount, summary.sellersSummary)));
  }

  /** The mailed breakdown adds up to the mailed count and total amount. */
  lemma ReportAddsUp(sales: seq<Sale>, date: Date)
    ensures var m := ReportPayload(sales, date);
            SumGroups(m.sellersSummary).count == m.salesCount
            && SumGroups(m.sellersSummary).amount == m.totalAmount
  {
    DailySummaryAddsUp(sales, date);
  }

  /** The mailed breakdown has one entry per distinct seller with a sale that day. */
  lemma ReportOneEntryPerSeller(sales: seq<Sale>, date: Date)
    ensures var ids := GroupIds(ReportPayload(sales, date).sellersSummary);
            && (forall k :: k in ids <==> exists s :: s in sales && s.saleDate == date && s.sellerId == k)
            && (forall i, j :: 0 <= i < j < |ids| ==> ids[i] != ids[j])
  {
    var rows := Where(sales, DateIs(date));
    GroupIdsAreSellers(rows);
    WhereMembers(sales, DateIs(date));
  }

  /** A day without sales gives 0 sales, 0.00 and an empty breakdown. */
  lemma EmptyDayReport(sales: seq<Sale>, date: Date)
    requires forall s :: s in sales ==> s.saleDate != date
    ensures ReportPayload(sales, date) == SalesReportMail(date, 0, 0, [])
  {
    EmptyDay(sales, date);
  }
}
