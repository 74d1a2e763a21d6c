/** The sale controller actions with logic of their own: the daily summary's
    date default, the choice of date when a commission mail is resent, and
    the update action's outcome. */
module SaleController {
  import opened Common
  import opened SaleModel
  import opened SaleQuery
  import opened SellerModel
  import opened SaleService
  import opened SaleStatistics
  import opened UpdateSaleRequest
  import opened Queue

  // ---------------------------------------------------------------------------
  // dailySummary
  // ---------------------------------------------------------------------------

  /** The `date` query parameter as the action receives it: not sent, sent
      empty (which the framework turns into null), or sent with a date. */
  datatype DateParam = NotSent | SentEmpty | Sent(date: Date)

  /** The status of the answer when the service is handed a null date: its
      `string $date` parameter refuses null and the request fails. */
  const InternalServerError := 500

  /** `$request->input('date', today)`: the default replaces only a parameter
      that was not sent; one sent empty comes back as null (None). */
  function DailySummaryDate(param: DateParam, today: Date): (d: Option<Date>)
    ensures param.Sent? ==> d == Some(param.date)
    ensures param.NotSent? ==> d == Some(today)
    ensures d.None? <==> param.SentEmpty?
  {
    match param
    case NotSent => Some(today)
    case SentEmpty => None
    case Sent(date) => Some(date)
  }

  /** `dailySummary`: the summary of the requested day, of today when no date
      was sent, and a server error when the date was sent empty. */
  function DailySummaryAction(sales: seq<Sale>, param: DateParam, today: Date): (r: Result<DailySummary, int>)
    ensures r.Err? <==> param.SentEmpty?
    ensures r.Err? ==> r.error == InternalServerError
    ensures r.Ok? ==> r.value.date == (if param.Sent? then param.date else today)
                      && r.value.salesCount == |Where(sales, DateIs(r.value.date))|
  {
    match DailySummaryDate(param, today)
    case None => Err(InternalServerError)
    case Some(date) => Ok(DailySalesSummary(sales, date))
  }

  // ---------------------------------------------------------------------------
  // resendCommissionEmail
  // ---------------------------------------------------------------------------

  /** `latest('sale_date')->first()`'s date: the latest sale date among the rows. */
  function LatestSaleDate(rows: seq<Sale>): (d: Option<Date>)
    ensures d.None? <==> rows == []
    ensures d.Some? ==> (exists s :: s in rows && s.saleDate == d.value)
                        && forall s :: s in rows ==> s.saleDate <= d.value
    decreases |rows|
  {
    if rows == [] then None
    else
      assert rows == [rows[0]] + rows[1..];
      match LatestSaleDate(rows[1..])
      case None => Some(rows[0].saleDate)
      case Some(later) => Some(if rows[0].saleDate >= later then rows[0].saleDate else later)
  }

  /** The date a resend is for: the requested one, else the seller's latest
      sale date, else today. */
  function ResendDate(param: Option<Date>, sellerSales: seq<Sale>, today: Date): (d: Date)
    ensures param.Some? ==> d == param.value
    ensures param.None? && sellerSales == [] ==> d == today
    ensures param.None? && sellerSales != [] ==>
              (exists s :: s in sellerSales && s.saleDate == d) && forall s :: s in sellerSales ==> s.saleDate <= d
  {
    if param.Some? then param.value
    else
      var latest := LatestSaleDate(sellerSales);
      if latest.Some? then latest.value else today
  }

  /** The JSON the action answers with. */
  datatype ResendResponse = ResendResponse(message: string, seller: string, date: Date)

  const ResendMessage := "E-mail de comissão foi agendado para reenvio"

  /** `resendCommissionEmail`: chooses the date step by step, queues exactly one
      commission job for the seller and that date, and echoes both. */
  method ResendCommissionEmail(seller: Seller, sales: seq<Sale>, param: Option<Date>, today: Date, queue: JobQueue)
    returns (response: ResendResponse)
    modifies queue
    ensures var date := ResendDate(param, Where(sales, SellerIs(seller.id)), today);
            && queue.jobs == old(queue.jobs) + [SendDailyCommission(seller, date)]
            && response == ResendResponse(ResendMessage, seller.name, date)
  {
    var date := param;
    if date.None? {
      var latestSale := LatestSaleDate(Where(sales, SellerIs(seller.id)));
      date := if latestSale.Some? then latestSale else Some(today);
    }
    queue.Dispatch(SendDailyCommission(seller, date.value));
    response := ResendResponse(ResendMessage, seller.name, date.value);
  }

  /** Without a requested date the resend is for a day on which the seller sold. */
  lemma ResendDateHasSale(seller: Seller, sales: seq<Sale>, today: Date)
    requires exists s :: s in sales && s.sellerId == seller.id
    ensures var d := ResendDate(None, Where(sales, SellerIs(seller.id)), today);
            SalesCountForDate(seller, sales, d) > 0
  {
    var mine := Where(sales, SellerIs(seller.id));
    WhereMembers(sales, SellerIs(seller.id));
    var w :| w in sales && w.sellerId == seller.id;
    assert w in mine;
    var d := ResendDate(None, mine, today);
    var s :| s in mine && s.saleDate == d;
    ZeroWithoutSales(seller, sales, d);
    assert CountsFor(seller, d, s);
  }

  // ---------------------------------------------------------------------------
  // update
  // ---------------------------------------------------------------------------

  /** What the update action answers: the reloaded sale, 404 for an unknown
      sale, or 422 with the validation errors. */
  datatype UpdateOutcome = Updated(sale: Sale) | NotFound | Unprocessable(errors: seq<FieldError>)

  /** `update`: the sale is looked up first, then the request is validated, then
      the service updates the sale and the action answers with the row as
      stored afterwards. Nothing changes unless the outcome is Updated. */
  method Update(ledger: SaleLedger, sellerIds: set<nat>, today: Date, id: nat, input: UpdateInput)
    returns (outcome: UpdateOutcome)
    requires ledger.Valid()
    modifies ledger
    ensures ledger.Valid() && ledger.nextId == old(ledger.nextId)
    ensures outcome.NotFound? <==> IndexOfId(old(ledger.sales), id).None?
    ensures outcome.Unprocessable? <==>
              IndexOfId(old(ledger.sales), id).Some? && Validate(input, sellerIds, today).Err?
    ensures outcome.Unprocessable? ==> outcome.errors == Validate(input, sellerIds, today).error
    ensures outcome.Updated? ==>
              var i := IndexOfId(old(ledger.sales), id).value;
              var patch := Validate(input, sellerIds, today).value;
              && ledger.sales == old(ledger.sales)[i := Patched(old(ledger.sales)[i], patch)]
              && outcome.sale == ledger.sales[i]
    ensures !outcome.Updated? ==> ledger.sales == old(ledger.sales)
  {
    var index := IndexOfId(ledger.sales, id);
    if index.None? {
      return NotFound;
    }
    var validated := Validate(input, sellerIds, today);
    if validated.Err? {
      return Unprocessable(validated.error);
    }
    var found := ledger.Update(id, validated.value);
    outcome := Updated(ledger.sales[index.value]);
  }
}
