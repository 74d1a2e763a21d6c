/** The job queue the command and the controller dispatch to. Dispatching
    appends the job; running it later is the queue worker's business. */
module Queue {
  import opened Common
  import opened SellerModel

  /** The two queued jobs and the arguments they are constructed with. */
  datatype Job =
    | SendDailyCommission(seller: Seller, date: Date)
    | SendDailySalesReport(date: Date, adminEmail: string)

  class JobQueue {
    var jobs: seq<Job>

    constructor ()
      ensures jobs == []
    {
      jobs := [];
    }

    /** `Job::dispatch(…)`: the job joins the end of the queue. */
    method Dispatch(job: Job)
      modifies this
      ensures jobs == old(jobs) + [job]
    {
      jobs := jobs + [job];
    }
  }
}
