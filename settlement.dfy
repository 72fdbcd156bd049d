/**
 * Paying a job (POST /jobs/:job_id/pay): the client's balance is debited by
 * the job's price, the contractor's credited by the same amount and the job
 * marked paid, all in one transaction that commits only if every step
 * succeeds. `Pay` is the outcome of that transaction as a value: the
 * response and the database after commit or rollback.
 */
module Settlement {
  import opened Tables
  import opened Entities

  datatype PayError = Forbidden | JobNotFound | InsufficientFunds

  /** A response and the database state the request leaves behind. */
  datatype Outcome<T, E> = Outcome(result: Result<T, E>, db: Db)

  /**
   * The row the locking lookup yields: the job exists, no concurrent
   * transaction holds its lock (`skipLocked` passes over locked rows), its
   * paid is not true, and its contract's ClientId is the payer.
   */
  predicate Payable(db: Db, clientId: int, jobId: int, locked: set<int>)
  {
    && jobId in db.jobs
    && jobId !in locked
    && !db.jobs[jobId].paid
    && db.jobs[jobId].contractId in db.contracts
    && db.contracts[db.jobs[jobId].contractId].clientId == clientId
  }

  /** The where-clause of the conditional decrement: the row exists and `balance >= amount`. */
  predicate Covers(profiles: map<int, Profile>, id: int, amount: int)
  {
    id in profiles && profiles[id].balance >= amount
  }

  /** `Profile.increment`/`decrement` by `delta` on the row with that id; no row, no change. */
  function Adjust(profiles: map<int, Profile>, id: int, delta: int): (r: map<int, Profile>)
    ensures r.Keys == profiles.Keys
    ensures forall p :: p in r && p != id ==> r[p] == profiles[p]
    ensures id in profiles ==> r[id] == profiles[id].(balance := profiles[id].balance + delta)
    ensures id !in profiles ==> r == profiles
  {
    if id in profiles then profiles[id := profiles[id].(balance := profiles[id].balance + delta)]
    else profiles
  }

  /** Adjusting an existing balance by `delta` changes the sum of all balances by exactly `delta`. */
  lemma AdjustTotal(profiles: map<int, Profile>, id: int, delta: int, adjusted: map<int, Profile>)
    requires id in profiles && adjusted == Adjust(profiles, id, delta)
    ensures Sum(Balances(adjusted)) == Sum(Balances(profiles)) + delta
  {
    BalancesUpdate(profiles, id, delta);
  }

  /** The compare-and-decrement: `None` when the where-clause matches no row. */
  function Debit(profiles: map<int, Profile>, id: int, amount: int): (r: Option<map<int, Profile>>)
    ensures r.Some? <==> Covers(profiles, id, amount)
    ensures r.Some? ==> r.value == Adjust(profiles, id, -amount)
  {
    if Covers(profiles, id, amount) then Some(Adjust(profiles, id, -amount)) else None
  }

  /** `Job.update({paid: true, paymentDate})` with `paid not true` in its where-clause: `None` when no row matches. */
  function MarkPaid(jobs: map<int, Job>, id: int, now: int): (r: Option<map<int, Job>>)
    ensures r.Some? <==> id in jobs && !jobs[id].paid
    ensures r.Some? ==> r.value.Keys == jobs.Keys
    ensures r.Some? ==> r.value[id].paid && r.value[id].paymentDate == Some(now)
    ensures r.Some? ==> r.value[id].price == jobs[id].price && r.value[id].contractId == jobs[id].contractId
    ensures r.Some? ==> forall j :: j in jobs && j != id ==> r.value[j] == jobs[j]
  {
    if id in jobs && !jobs[id].paid then
      Some(jobs[id := jobs[id].(paid := true, paymentDate := Some(now))])
    else None
  }

  /** The state a committed settlement of a payable, covered job leaves. */
  function Settled(db: Db, clientId: int, jobId: int, now: int): Db
    requires Payable(db, clientId, jobId, {})
  {
    var job := db.jobs[jobId];
    var contractorId := db.contracts[job.contractId].contractorId;
    var debited := Adjust(db.profiles, clientId, -job.price);
    Db(Adjust(debited, contractorId, job.price),
       db.contracts,
       db.jobs[jobId := job.(paid := true, paymentDate := Some(now))])
  }

  /**
   * The pay request of `actor` for `jobId` at time `now`, while the rows in
   * `locked` are held by concurrent transactions. Non-clients are refused
   * before the transaction starts; every failure inside it rolls back, so a
   * failed request leaves the database as it was.
   */
  function Pay(db: Db, actor: Actor, jobId: int, locked: set<int>, now: int): (o: Outcome<Job, PayError>)
    ensures o.result.Err? ==> o.db == db
    ensures o.result.Ok? <==>
      actor.kind == "client" && Payable(db, actor.id, jobId, locked) && Covers(db.profiles, actor.id, db.jobs[jobId].price)
  {
    if actor.kind != "client" then Outcome(Err(Forbidden), db)
    else if !Payable(db, actor.id, jobId, locked) then Outcome(Err(JobNotFound), db)
    else if !Covers(db.profiles, actor.id, db.jobs[jobId].price) then Outcome(Err(InsufficientFunds), db)
    else
      var settled := Settled(db, actor.id, jobId, now);
      Outcome(Ok(settled.jobs[jobId]), settled)
  }

  /** Which error a refused request gets, case by case. */
  lemma PayErrors(db: Db, actor: Actor, jobId: int, locked: set<int>, now: int)
    ensures Pay(db, actor, jobId, locked, now).result == Err(Forbidden) <==> actor.kind != "client"
    ensures Pay(db, actor, jobId, locked, now).result == Err(JobNotFound)
        <==> actor.kind == "client" && !Payable(db, actor.id, jobId, locked)
    ensures Pay(db, actor, jobId, locked, now).result == Err(InsufficientFunds)
        <==> actor.kind == "client" && Payable(db, actor.id, jobId, locked)
             && !Covers(db.profiles, actor.id, db.jobs[jobId].price)
  {
  }

  /** Moving `amount` from one existing balance to another leaves the sum of all balances unchanged. */
  lemma TransferConserves(profiles: map<int, Profile>, from: int, to: int, amount: int)
    requires from in profiles && to in profiles
    ensures Sum(Balances(Adjust(Adjust(profiles, from, -amount), to, amount))) == Sum(Balances(profiles))
  {
    var debited := Adjust(profiles, from, -amount);
    AdjustTotal(profiles, from, -amount, debited);
    AdjustTotal(debited, to, amount, Adjust(debited, to, amount));
  }

  /**
   * Conservation of funds: a settlement moves money between two balances and
   * creates or destroys none, so the sum of all balances is unchanged.
   */
  lemma PayConservesFunds(db: Db, actor: Actor, jobId: int, locked: set<int>, now: int)
    requires Consistent(db)
    ensures TotalBalance(Pay(db, actor, jobId, locked, now).db) == TotalBalance(db)
  {
    var o := Pay(db, actor, jobId, locked, now);
    if o.result.Ok? {
      var job := db.jobs[jobId];
      var contractorId := db.contracts[job.contractId].contractorId;
      var after := Adjust(Adjust(db.profiles, actor.id, -job.price), contractorId, job.price);
      assert o.db.profiles == after;
      TransferConserves(db.profiles, actor.id, contractorId, job.price);
    }
  }

  /** The contractor a job's price is paid to. */
  function PayeeOf(db: Db, jobId: int): int
    requires jobId in db.jobs && db.jobs[jobId].contractId in db.contracts
  {
    db.contracts[db.jobs[jobId].contractId].contractorId
  }

  /**
   * What a successful payment does to balances: the client's falls by the
   * price and the contractor's rises by it (nothing moves when the two are
   * the same profile), and every other profile is untouched.
   */
  lemma PayMovesPrice(db: Db, actor: Actor, jobId: int, locked: set<int>, now: int)
    requires Consistent(db)
    requires Pay(db, actor, jobId, locked, now).result.Ok?
    ensures Pay(db, actor, jobId, locked, now).db.profiles.Keys == db.profiles.Keys
    ensures PayeeOf(db, jobId) != actor.id ==>
              Pay(db, actor, jobId, locked, now).db.profiles[actor.id].balance
                == db.profiles[actor.id].balance - db.jobs[jobId].price
    ensures PayeeOf(db, jobId) != actor.id ==>
              Pay(db, actor, jobId, locked, now).db.profiles[PayeeOf(db, jobId)].balance
                == db.profiles[PayeeOf(db, jobId)].balance + db.jobs[jobId].price
    ensures PayeeOf(db, jobId) == actor.id ==> Pay(db, actor, jobId, locked, now).db.profiles == db.profiles
    ensures forall p :: p in db.profiles && p != actor.id && p != PayeeOf(db, jobId) ==>
              Pay(db, actor, jobId, locked, now).db.profiles[p] == db.profiles[p]
  {
    var price := db.jobs[jobId].price;
    var payee := PayeeOf(db, jobId);
    var debited := Adjust(db.profiles, actor.id, -price);
    var credited := Adjust(debited, payee, price);
    assert Pay(db, actor, jobId, locked, now).db.profiles == credited;
    if payee == actor.id {
      assert credited == db.profiles;
    }
  }

  /**
   * What a successful payment does to jobs and contracts: the job becomes
   * paid at `now` with its price and contract kept, the response is that
   * reloaded row, and no other job and no contract changes.
   */
  lemma PayMarksJob(db: Db, actor: Actor, jobId: int, locked: set<int>, now: int)
    requires Pay(db, actor, jobId, locked, now).result.Ok?
    ensures Pay(db, actor, jobId, locked, now).db.contracts == db.contracts
    ensures Pay(db, actor, jobId, locked, now).db.jobs
              == db.jobs[jobId := db.jobs[jobId].(paid := true, paymentDate := Some(now))]
    ensures Pay(db, actor, jobId, locked, now).result.value == Pay(db, actor, jobId, locked, now).db.jobs[jobId]
  {
  }

  /** Settlement keeps the database's constraints; in particular no balance goes negative. */
  lemma PayPreservesWellFormed(db: Db, actor: Actor, jobId: int, locked: set<int>, now: int)
    requires WellFormed(db)
    ensures WellFormed(Pay(db, actor, jobId, locked, now).db)
  {
    var o := Pay(db, actor, jobId, locked, now);
    if o.result.Ok? {
      PayMovesPrice(db, actor, jobId, locked, now);
      PayMarksJob(db, actor, jobId, locked, now);
      var job := db.jobs[jobId];
      var contractorId := PayeeOf(db, jobId);
      forall p | p in o.db.profiles
        ensures o.db.profiles[p].balance >= 0
      {
        if contractorId != actor.id && p == actor.id {
          assert o.db.profiles[p].balance == db.profiles[p].balance - job.price;
        }
      }
      forall j | j in o.db.jobs
        ensures o.db.jobs[j].price > 0 && o.db.jobs[j].contractId in o.db.contracts
      {
        assert o.db.jobs[j].price == db.jobs[j].price;
      }
    }
  }

  /** Paid is monotonic: a job once paid stays paid with the same date, and no job's price or contract changes. */
  lemma PayKeepsPaidJobs(db: Db, actor: Actor, jobId: int, locked: set<int>, now: int, j: int)
    requires j in db.jobs
    ensures var o := Pay(db, actor, jobId, locked, now);
            && j in o.db.jobs
            && o.db.jobs[j].price == db.jobs[j].price
            && o.db.jobs[j].contractId == db.jobs[j].contractId
            && (db.jobs[j].paid ==> o.db.jobs[j] == db.jobs[j])
  {
    var o := Pay(db, actor, jobId, locked, now);
    if o.result.Ok? && j == jobId {
      assert !db.jobs[j].paid;
    }
  }

  /**
   * A job is paid at most once: after one successful payment, any later pay
   * request for the same job, by anyone, is refused and changes nothing.
   */
  lemma PayAtMostOnce(db: Db, first: Actor, second: Actor, jobId: int,
                      locked1: set<int>, locked2: set<int>, now1: int, now2: int)
    requires Pay(db, first, jobId, locked1, now1).result.Ok?
    ensures var after := Pay(db, first, jobId, locked1, now1).db;
            && Pay(after, second, jobId, locked2, now2).result.Err?
            && Pay(after, second, jobId, locked2, now2).db == after
  {
    var after := Pay(db, first, jobId, locked1, now1).db;
    assert after.jobs[jobId].paid;
  }

  /** A job whose row another transaction holds locked is skipped, so the request fails without touching anything. */
  lemma PayWhileLocked(db: Db, actor: Actor, jobId: int, locked: set<int>, now: int)
    requires jobId in locked
    ensures Pay(db, actor, jobId, locked, now).result in {Err(Forbidden), Err(JobNotFound)}
    ensures Pay(db, actor, jobId, locked, now).db == db
  {
  }

  /** A refused request is refused again, identically, until something else changes the database. */
  lemma PayFailureIsStable(db: Db, actor: Actor, jobId: int, locked: set<int>, now: int)
    requires Pay(db, actor, jobId, locked, now).result.Err?
    ensures Pay(Pay(db, actor, jobId, locked, now).db, actor, jobId, locked, now) == Pay(db, actor, jobId, locked, now)
  {
  }

  /**
   * A client with 100 pays a job of 50 to a contractor: the balances become
   * 50 and 50 and the job is paid; paying it again is refused as not found
   * and changes nothing; a client with only 10 is refused for lack of funds.
   */
  lemma PayScenario()
    ensures var db := Db(map[1 := Profile("client", 100, ""), 2 := Profile("contractor", 0, "Programmer")],
                         map[1 := Contract(1, 2, InProgress)],
                         map[1 := Job(1, 50, false, None)]);
            var first := Pay(db, Actor(1, "client"), 1, {}, 7);
            && first.result == Ok(Job(1, 50, true, Some(7)))
            && first.db.profiles[1].balance == 50
            && first.db.profiles[2].balance == 50
            && Pay(first.db, Actor(1, "client"), 1, {}, 8) == Outcome(Err(JobNotFound), first.db)
    ensures var poor := Db(map[1 := Profile("client", 10, ""), 2 := Profile("contractor", 0, "Programmer")],
                           map[1 := Contract(1, 2, InProgress)],
                           map[1 := Job(1, 50, false, None)]);
            Pay(poor, Actor(1, "client"), 1, {}, 7) == Outcome(Err(InsufficientFunds), poor)
  {
  }
}
