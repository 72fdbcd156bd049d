/**
 * The two administrative reports over paid jobs: the profession that earned
 * the most (GET /admin/best-profession) and the clients that paid the most
 * (GET /admin/best-clients), each optionally restricted to payments made
 * strictly between `start` and `end`.
 */
module Reports {
  import opened Tables
  import opened Entities
  import opened Settlement

  /**
   * The payment-date filter: it applies only when both bounds are given, and
   * then a job passes only with a payment date strictly between them (a
   * missing date never passes).
   */
  predicate InWindow(date: Option<int>, start: Option<int>, end: Option<int>): (b: bool)
    ensures start.None? || end.None? ==> b
    ensures start.Some? && end.Some? && date.None? ==> !b
  {
    start.Some? && end.Some? ==> date.Some? && start.value < date.value < end.value
  }

  /** A job row both reports sum: `paid` is true, it is in the window, and the inner join to its contract succeeds. */
  predicate Counted(db: Db, j: int, start: Option<int>, end: Option<int>)
  {
    && j in db.jobs
    && db.jobs[j].paid
    && InWindow(db.jobs[j].paymentDate, start, end)
    && db.jobs[j].contractId in db.contracts
  }

  function ContractorOf(db: Db, j: int): int
    requires j in db.jobs && db.jobs[j].contractId in db.contracts
  {
    db.contracts[db.jobs[j].contractId].contractorId
  }

  function ClientOf(db: Db, j: int): int
    requires j in db.jobs && db.jobs[j].contractId in db.contracts
  {
    db.contracts[db.jobs[j].contractId].clientId
  }

  // ---------------------------------------------------------------- best profession

  /** Counted jobs whose inner join through Contract to the Contractor profile succeeds. */
  function EarningJobs(db: Db, start: Option<int>, end: Option<int>): set<int>
  {
    set j | j in db.jobs && Counted(db, j, start, end) && ContractorOf(db, j) in db.profiles
  }

  /** The profession of the contractor who earned a job. */
  function ProfessionOf(db: Db, j: int): string
    requires j in db.jobs && db.jobs[j].contractId in db.contracts && ContractorOf(db, j) in db.profiles
  {
    db.profiles[ContractorOf(db, j)].profession
  }

  /** The jobs in the group of one profession. */
  function ProfessionJobs(db: Db, start: Option<int>, end: Option<int>, profession: string): set<int>
  {
    set j | j in EarningJobs(db, start, end) && ProfessionOf(db, j) == profession
  }

  /** `SUM(price)` of the group of one profession. */
  function ProfessionTotal(db: Db, start: Option<int>, end: Option<int>, profession: string): int
  {
    Sum(Prices(db.jobs, ProfessionJobs(db, start, end, profession)))
  }

  /**
   * The first row of the grouped query ordered by total descending: the
   * profession whose contractors earned the most; `None` when no paid job
   * qualifies, where the handler itself fails.
   */
  function BestProfession(db: Db, start: Option<int>, end: Option<int>): (r: Option<string>)
    ensures r.None? <==> EarningJobs(db, start, end) == {}
    ensures r.Some? ==> exists j :: j in EarningJobs(db, start, end) && ProfessionOf(db, j) == r.value
    ensures r.Some? ==> forall j :: j in EarningJobs(db, start, end) ==>
              ProfessionTotal(db, start, end, ProfessionOf(db, j)) <= ProfessionTotal(db, start, end, r.value)
  {
    var earning := EarningJobs(db, start, end);
    var contractors := set j | j in earning :: ContractorOf(db, j);
    var totals := map c | c in contractors && c in db.profiles :: ProfessionTotal(db, start, end, db.profiles[c].profession);
    if |totals| == 0 then
      assert forall j :: j in earning ==> ContractorOf(db, j) in totals;
      None
    else
      var best := ArgMax(totals);
      assert forall j :: j in earning ==> ContractorOf(db, j) in totals;
      Some(db.profiles[best].profession)
  }

  // ---------------------------------------------------------------- best clients

  /** Counted jobs whose inner join through Contract to the Client profile succeeds. */
  function SpendingJobs(db: Db, start: Option<int>, end: Option<int>): set<int>
  {
    set j | j in db.jobs && Counted(db, j, start, end) && ClientOf(db, j) in db.profiles
  }

  /** The clients with at least one counted job: the groups of `GROUP BY Client.id`. */
  function PayingClients(db: Db, start: Option<int>, end: Option<int>): set<int>
  {
    set j | j in SpendingJobs(db, start, end) :: ClientOf(db, j)
  }

  /** The jobs in the group of one client. */
  function ClientJobs(db: Db, start: Option<int>, end: Option<int>, client: int): set<int>
  {
    set j | j in SpendingJobs(db, start, end) && ClientOf(db, j) == client
  }

  /** `SUM(price)` of the group of one client. */
  function ClientTotal(db: Db, start: Option<int>, end: Option<int>, client: int): int
  {
    Sum(Prices(db.jobs, ClientJobs(db, start, end, client)))
  }

  function ClientTotals(db: Db, start: Option<int>, end: Option<int>): (m: map<int, int>)
    ensures m.Keys == PayingClients(db, start, end)
  {
    map c | c in PayingClients(db, start, end) :: ClientTotal(db, start, end, c)
  }

  /**
   * The grouped query ordered by total descending and cut at `limit`
   * (2 when not given): client ids, most paid first, none twice, and no
   * client left out paid more than a client listed.
   */
  function BestClients(db: Db, start: Option<int>, end: Option<int>, limit: Option<nat>): (r: seq<int>)
    ensures var n := if limit.Some? then limit.value else 2;
            |r| == if n < |PayingClients(db, start, end)| then n else |PayingClients(db, start, end)|
    ensures forall i :: 0 <= i < |r| ==> r[i] in PayingClients(db, start, end)
    ensures forall i, k :: 0 <= i < k < |r| ==> r[i] != r[k]
    ensures forall i, k :: 0 <= i < k < |r| ==>
              ClientTotal(db, start, end, r[i]) >= ClientTotal(db, start, end, r[k])
    ensures forall c, i :: c in PayingClients(db, start, end) && c !in r && 0 <= i < |r| ==>
              ClientTotal(db, start, end, c) <= ClientTotal(db, start, end, r[i])
  {
    var totals := ClientTotals(db, start, end);
    assert |totals| == |PayingClients(db, start, end)|;
    TopK(totals, if limit.Some? then limit.value else 2)
  }

  // ---------------------------------------------------------------- properties

  /**
   * Both reports sum only paid jobs, and, when both bounds are given, only
   * those paid strictly inside the window.
   */
  lemma ReportsCountPaidInWindow(db: Db, start: Option<int>, end: Option<int>, j: int)
    requires j in EarningJobs(db, start, end) || j in SpendingJobs(db, start, end)
    ensures j in db.jobs && db.jobs[j].paid
    ensures start.Some? && end.Some? ==>
              db.jobs[j].paymentDate.Some? && start.value < db.jobs[j].paymentDate.value < end.value
  {
  }

  /** Giving a window can only leave payments out: a client's windowed total never exceeds its all-time total. */
  lemma WindowOnlyNarrows(db: Db, start: Option<int>, end: Option<int>, client: int)
    requires Consistent(db)
    ensures ClientTotal(db, start, end, client) <= ClientTotal(db, None, None, client)
  {
    var windowed := Prices(db.jobs, ClientJobs(db, start, end, client));
    var all := Prices(db.jobs, ClientJobs(db, None, None, client));
    SumSubset(windowed, all);
  }

  /** Marking one unpaid job paid adds it to its client's group of counted jobs, and changes no price. */
  lemma ClientJobsAfterMark(db: Db, after: Db, jobId: int, date: Option<int>)
    requires jobId in db.jobs && !db.jobs[jobId].paid && db.jobs[jobId].contractId in db.contracts
    requires ClientOf(db, jobId) in db.profiles
    requires after.profiles.Keys == db.profiles.Keys && after.contracts == db.contracts
    requires after.jobs == db.jobs[jobId := db.jobs[jobId].(paid := true, paymentDate := date)]
    ensures jobId !in ClientJobs(db, None, None, ClientOf(db, jobId))
    ensures ClientJobs(after, None, None, ClientOf(db, jobId)) == ClientJobs(db, None, None, ClientOf(db, jobId)) + {jobId}
  {
    var client := ClientOf(db, jobId);
    var before := ClientJobs(db, None, None, client);
    var paid := ClientJobs(after, None, None, client);
    forall j
      ensures j in paid <==> j in before || j == jobId
    {
      if j != jobId && j in db.jobs {
        assert after.jobs[j] == db.jobs[j];
      }
    }
  }

  /** Marking one unpaid job of a client paid adds its price to that client's all-time total. */
  lemma MarkPaidReported(db: Db, after: Db, jobId: int, date: Option<int>)
    requires jobId in db.jobs && !db.jobs[jobId].paid && db.jobs[jobId].contractId in db.contracts
    requires ClientOf(db, jobId) in db.profiles
    requires after.profiles.Keys == db.profiles.Keys && after.contracts == db.contracts
    requires after.jobs == db.jobs[jobId := db.jobs[jobId].(paid := true, paymentDate := date)]
    ensures ClientTotal(after, None, None, ClientOf(db, jobId)) == ClientTotal(db, None, None, ClientOf(db, jobId)) + db.jobs[jobId].price
  {
    var client := ClientOf(db, jobId);
    ClientJobsAfterMark(db, after, jobId, date);
    var m := Prices(after.jobs, ClientJobs(after, None, None, client));
    var m0 := Prices(db.jobs, ClientJobs(db, None, None, client));
    SumRemove(m, jobId);
    assert m - {jobId} == m0;
  }

  /**
   * The reports see exactly what settlement pays: after a successful
   * payment the client's all-time total grows by the job's price.
   */
  lemma PayIsReported(db: Db, actor: Actor, jobId: int, locked: set<int>, now: int)
    requires Consistent(db)
    requires Pay(db, actor, jobId, locked, now).result.Ok?
    ensures ClientTotal(Pay(db, actor, jobId, locked, now).db, None, None, actor.id)
         == ClientTotal(db, None, None, actor.id) + db.jobs[jobId].price
  {
    PayMarksJob(db, actor, jobId, locked, now);
    PayMovesPrice(db, actor, jobId, locked, now);
    MarkPaidReported(db, Pay(db, actor, jobId, locked, now).db, jobId, Some(now));
  }
}
