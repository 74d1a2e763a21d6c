/** The two mails the jobs send, as the data they carry, and the mailer's
    outbox: sending a mail appends it, with its recipient, to the outbox. */
module Mailing {
  import opened Common
  import opened SellerModel
  import opened SaleStatistics

  /** The data of the daily commission mail to a seller. */
  datatype CommissionMail = CommissionMail(
    seller: Seller,
    date: Date,
    salesCount: nat,
    totalAmount: Cents,
    totalCommission: Cents)

  /** The data of the daily sales report to an administrator; it carries no
      commission total. */
  datatype SalesReportMail = SalesReportMail(
    date: Date,
    totalAmount: Cents,
    salesCount: nat,
    sellersSummary: seq<SellerDaySummary>)

  datatype Mail = Commission(commission: CommissionMail) | Report(report: SalesReportMail)

  datatype Envelope = Envelope(to: string, mail: Mail)

  class Mailer {
    var outbox: seq<Envelope>

    constructor ()
      ensures outbox == []
    {
      outbox := [];
    }

    /** `Mail::to($to)->send($mail)`. */
    method Send(to: string, mail: Mail)
      modifies this
      ensures outbox == old(outbox) + [Envelope(to, mail)]
    {
      outbox := outbox + [Envelope(to, mail)];
    }
  }
}
