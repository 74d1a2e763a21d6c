/** The `sales:send-daily-emails {--date=}` console command: it queues one
    commission job per registered seller and one sales report job per user
    with perfil 'Gestor', all for the same date. */
module SendDailyEmailsCommand {
  import opened Common
  import opened SellerModel
  import opened Queue

  /** The `perfil` column of a user. */
  datatype Perfil = Gestor | SellerPerfil

  datatype User = User(name: string, email: string, perfil: Perfil)

  /** `Command::SUCCESS`. */
  const Success := 0

  /** `--date` when it is given, yesterday otherwise. */
  function ReportDate(option: Option<Date>, today: Date): (d: Date)
    ensures option.Some? ==> d == option.value
    ensures option.None? ==> d == today - 1
  {
    if option.Some? then option.value else today - 1
  }

  /** `User::where('perfil', 'Gestor')->get()`, in storage order. */
  function Admins(users: seq<User>): (admins: seq<User>)
    ensures forall u :: u in admins <==> u in users && u.perfil == Gestor
    decreases |users|
  {
    if users == [] then []
    else
      assert users == [users[0]] + users[1..];
      if users[0].perfil == Gestor then [users[0]] + Admins(users[1..]) else Admins(users[1..])
  }

  /** The number of users with perfil 'Gestor'. */
  function GestorCount(users: seq<User>): nat
  {
    if users == [] then 0 else (if users[0].perfil == Gestor then 1 else 0) + GestorCount(users[1..])
  }

  lemma {:induction false} AdminsCount(users: seq<User>)
    ensures |Admins(users)| == GestorCount(users)
    decreases |users|
  {
    if users != [] {
      AdminsCount(users[1..]);
    }
  }

  function CommissionJobs(sellers: seq<Seller>, date: Date): (jobs: seq<Job>)
    ensures |jobs| == |sellers|
    ensures forall i :: 0 <= i < |sellers| ==> jobs[i] == SendDailyCommission(sellers[i], date)
  {
    seq(|sellers|, i requires 0 <= i < |sellers| => SendDailyCommission(sellers[i], date))
  }

  function ReportJobs(admins: seq<User>, date: Date): (jobs: seq<Job>)
    ensures |jobs| == |admins|
    ensures forall i :: 0 <= i < |admins| ==> jobs[i] == SendDailySalesReport(date, admins[i].email)
  {
    seq(|admins|, i requires 0 <= i < |admins| => SendDailySalesReport(date, admins[i].email))
  }

  /** Everything the command queues, in order: the commission jobs, then the reports. */
  function DailyPlan(sellers: seq<Seller>, users: seq<User>, date: Date): seq<Job>
  {
    CommissionJobs(sellers, date) + ReportJobs(Admins(users), date)
  }

  /** `handle`: the two loops dispatch the plan one job at a time. */
  method Handle(sellers: seq<Seller>, users: seq<User>, option: Option<Date>, today: Date, queue: JobQueue)
    returns (status: int)
    modifies queue
    ensures queue.jobs == old(queue.jobs) + DailyPlan(sellers, users, ReportDate(option, today))
    ensures status == Success
  {
    var date := ReportDate(option, today);
    ghost var before := queue.jobs;
    var i := 0;
    while i < |sellers|
      invariant 0 <= i <= |sellers|
      invariant queue.jobs == before + CommissionJobs(sellers[..i], date)
    {
      queue.Dispatch(SendDailyCommission(sellers[i], date));
      CommissionJobsStep(before, sellers, i, date);
      i := i + 1;
    }
    assert sellers[..i] == sellers;
    ghost var afterSellers := queue.jobs;
    var admins := Admins(users);
    var j := 0;
    while j < |admins|
      invariant 0 <= j <= |admins|
      invariant queue.jobs == afterSellers + ReportJobs(admins[..j], date)
    {
      queue.Dispatch(SendDailySalesReport(date, admins[j].email));
      ReportJobsStep(afterSellers, admins, j, date);
      j := j + 1;
    }
    assert admins[..j] == admins;
    PlanAppended(before, CommissionJobs(sellers, date), ReportJobs(admins, date));
    status := Success;
  }

  /** One more seller in the loop is one more commission job at the end of the queue. */
  lemma CommissionJobsStep(before: seq<Job>, sellers: seq<Seller>, i: nat, date: Date)
    requires i < |sellers|
    ensures before + CommissionJobs(sellers[..i + 1], date)
            == before + CommissionJobs(sellers[..i], date) + [SendDailyCommission(sellers[i], date)]
  {
    var longer, shorter := CommissionJobs(sellers[..i + 1], date), CommissionJobs(sellers[..i], date);
    forall k | 0 <= k < i ensures longer[k] == shorter[k] {
      assert sellers[..i + 1][k] == sellers[..i][k];
    }
    assert longer == shorter + [SendDailyCommission(sellers[i], date)];
    PlanAppended(before, shorter, [SendDailyCommission(sellers[i], date)]);
  }

  /** One more admin in the loop is one more report job at the end of the queue. */
  lemma ReportJobsStep(before: seq<Job>, admins: seq<User>, j: nat, date: Date)
    requires j < |admins|
    ensures before + ReportJobs(admins[..j + 1], date)
            == before + ReportJobs(admins[..j], date) + [SendDailySalesReport(date, admins[j].email)]
  {
    var longer, shorter := ReportJobs(admins[..j + 1], date), ReportJobs(admins[..j], date);
    forall k | 0 <= k < j ensures longer[k] == shorter[k] {
      assert admins[..j + 1][k] == admins[..j][k];
    }
    assert longer == shorter + [SendDailySalesReport(date, admins[j].email)];
    PlanAppended(before, shorter, [SendDailySalesReport(date, admins[j].email)]);
  }

  /** Jobs dispatched in two batches sit in the queue as the two batches joined. */
  lemma PlanAppended(before: seq<Job>, first: seq<Job>, second: seq<Job>)
    ensures before + first + second == before + (first + second)
  {
  }

  /** The command queues as many jobs as there are sellers and 'Gestor' users. */
  lemma PlanSize(sellers: seq<Seller>, users: seq<User>, date: Date)
    ensures |DailyPlan(sellers, users, date)| == |sellers| + GestorCount(users)
  {
    AdminsCount(users);
  }

  /** Every queued job is for the command's date. */
  lemma PlanSameDate(sellers: seq<Seller>, users: seq<User>, date: Date)
    ensures forall job :: job in DailyPlan(sellers, users, date) ==> job.date == date
  {
    var commission, reports := CommissionJobs(sellers, date), ReportJobs(Admins(users), date);
    var plan: seq<Job> := commission + reports;
    forall job | job in commission ensures job.date == date {
      var k :| 0 <= k < |commission| && commission[k] == job;
    }
    forall job | job in reports ensures job.date == date {
      var k :| 0 <= k < |reports| && reports[k] == job;
    }
    assert forall job :: job in plan ==> job in commission || job in reports;
  }

  /** Each registered seller gets one commission job, at its own place in the register. */
  lemma OneCommissionJobPerSeller(sellers: seq<Seller>, users: seq<User>, date: Date, i: nat)
    requires i < |sellers|
    ensures DailyPlan(sellers, users, date)[i] == SendDailyCommission(sellers[i], date)
  {
  }

  /** Report jobs go exactly to the users with perfil 'Gestor'. */
  lemma ReportsOnlyToGestor(sellers: seq<Seller>, users: seq<User>, date: Date)
    ensures forall job :: job in DailyPlan(sellers, users, date) && job.SendDailySalesReport? ==>
              exists u :: u in users && u.perfil == Gestor && u.email == job.adminEmail
    ensures forall u :: u in users && u.perfil == Gestor ==>
              SendDailySalesReport(date, u.email) in DailyPlan(sellers, users, date)
  {
    var plan := DailyPlan(sellers, users, date);
    var admins := Admins(users);
    var commission, reports := CommissionJobs(sellers, date), ReportJobs(admins, date);
    forall job | job in plan && job.SendDailySalesReport?
      ensures exists u :: u in users && u.perfil == Gestor && u.email == job.adminEmail
    {
      var k :| 0 <= k < |plan| && plan[k] == job;
      assert k >= |sellers|;
      assert job == reports[k - |sellers|];
      assert admins[k - |sellers|] in admins;
    }
    forall u | u in users && u.perfil == Gestor ensures SendDailySalesReport(date, u.email) in plan {
      var k :| 0 <= k < |admins| && admins[k] == u;
      assert plan[|sellers| + k] == reports[k];
    }
  }
}
