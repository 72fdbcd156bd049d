/**
 * Depositing into a client's balance (POST /balances/deposit/:userId): the
 * deposit is refused when the client owes nothing on active contracts, or
 * when it exceeds a quarter of what the client owes; otherwise the balance
 * grows by the deposit.
 */
module Deposits {
  import opened Tables
  import opened Entities
  import opened Queries
  import opened Settlement

  datatype DepositError =
    | NoUnpaidJobs
      /** The ceiling reported in the message: a quarter of the outstanding total. */
    | LimitExceeded(ceiling: real)
      /** Refused only by the corrected deposit: a negative amount would withdraw. */
    | NegativeAmount

  /**
   * The two checks of the handler, in its order: the outstanding total must
   * be non-zero, and `amount > total * 0.25` is refused (compared exactly, as
   * `4 * amount > total`). `None` lets the deposit through.
   */
  function DepositGuard(db: Db, userId: int, amount: int): (e: Option<DepositError>)
    requires Consistent(db)
    ensures e == Some(NoUnpaidJobs) <==> OutstandingJobs(db, userId) == {}
    ensures e.Some? && e.value.LimitExceeded? <==>
              OutstandingJobs(db, userId) != {} && 4 * amount > UnpaidTotal(db, userId)
    ensures e.Some? ==> e.value != NegativeAmount
  {
    UnpaidTotalSign(db, userId);
    var total := UnpaidTotal(db, userId);
    if total == 0 then Some(NoUnpaidJobs)
    else if 4 * amount > total then Some(LimitExceeded(total as real / 4.0))
    else None
  }

  /** The increment of the user's balance and the reloaded profile row. */
  function Credited(db: Db, userId: int, amount: int): (o: Outcome<Profile, DepositError>)
    requires userId in db.profiles
    ensures o.db.contracts == db.contracts && o.db.jobs == db.jobs
    ensures o.db.profiles.Keys == db.profiles.Keys
    ensures o.db.profiles[userId].balance == db.profiles[userId].balance + amount
    ensures o.result == Ok(o.db.profiles[userId])
  {
    var profiles := Adjust(db.profiles, userId, amount);
    Outcome(Ok(profiles[userId]), db.(profiles := profiles))
  }

  /**
   * The handler as written: nothing bounds the deposit from below, so a
   * negative amount passes both checks and is added to the balance.
   */
  function DepositAsWritten(db: Db, userId: int, amount: int): (o: Outcome<Profile, DepositError>)
    requires Consistent(db)
    ensures o.result.Err? ==> o.db == db
    ensures o.result.Ok? <==> DepositGuard(db, userId, amount).None?
    ensures o.result.Ok? ==> userId in db.profiles && o == Credited(db, userId, amount)
  {
    match DepositGuard(db, userId, amount)
    case Some(e) => Outcome(Err(e), db)
    case None =>
      UnpaidTotalHasClient(db, userId);
      Credited(db, userId, amount)
  }

  /** One client (1) owing 200 on one active contract with a contractor (2); both balances are 0. */
  function Owing(): Db
  {
    Db(map[1 := Profile("client", 0, ""), 2 := Profile("contractor", 0, "Programmer")],
       map[1 := Contract(1, 2, InProgress)],
       map[1 := Job(1, 200, false, None)])
  }

  lemma OwingJobs()
    ensures WellFormed(Owing())
    ensures OutstandingJobs(Owing(), 1) == {1}
  {
    assert OutstandingJobs(Owing(), 1) == {1};
  }

  lemma OwingTotal()
    ensures WellFormed(Owing())
    ensures OutstandingJobs(Owing(), 1) == {1}
    ensures UnpaidTotal(Owing(), 1) == 200
  {
    OwingJobs();
    var prices := Prices(Owing().jobs, {1});
    assert prices == map[1 := 200];
    SumRemove(prices, 1);
    assert prices - {1} == map[];
  }

  /** A negative deposit through the handler as written leaves a client with a negative balance. */
  lemma DepositAsWrittenOverdraws()
    ensures DepositAsWritten(Owing(), 1, -50).result.Ok?
    ensures DepositAsWritten(Owing(), 1, -50).db.profiles[1].balance == -50
    ensures !WellFormed(DepositAsWritten(Owing(), 1, -50).db)
  {
    OwingTotal();
  }

  /**
   * The deposit with the missing lower bound: a deposit that passes the
   * handler's checks is still refused when the amount is negative.
   */
  function Deposit(db: Db, userId: int, amount: int): (o: Outcome<Profile, DepositError>)
    requires Consistent(db)
    ensures o.result.Err? ==> o.db == db
  {
    match DepositGuard(db, userId, amount)
    case Some(e) => Outcome(Err(e), db)
    case None =>
      if amount < 0 then Outcome(Err(NegativeAmount), db)
      else
        UnpaidTotalHasClient(db, userId);
        Credited(db, userId, amount)
  }

  /**
   * When a deposit is accepted: the client owes something on an active
   * contract, the amount is at most a quarter of it, and it is not negative.
   * Each refusal names the check that failed.
   */
  lemma DepositOutcomes(db: Db, userId: int, amount: int)
    requires Consistent(db)
    ensures Deposit(db, userId, amount).result.Ok?
        <==> OutstandingJobs(db, userId) != {} && 4 * amount <= UnpaidTotal(db, userId) && amount >= 0
    ensures Deposit(db, userId, amount).result == Err(NoUnpaidJobs) <==> OutstandingJobs(db, userId) == {}
    ensures Deposit(db, userId, amount).result == Err(LimitExceeded(UnpaidTotal(db, userId) as real / 4.0))
        <==> OutstandingJobs(db, userId) != {} && 4 * amount > UnpaidTotal(db, userId)
    ensures Deposit(db, userId, amount).result == Err(NegativeAmount)
        <==> OutstandingJobs(db, userId) != {} && amount < 0
  {
    UnpaidTotalSign(db, userId);
  }

  /** Crediting changes only the target's balance, by exactly the amount, and returns the updated row. */
  lemma CreditedChanges(db: Db, userId: int, amount: int)
    requires userId in db.profiles
    ensures var o := Credited(db, userId, amount);
            && o.db == db.(profiles := db.profiles[userId := db.profiles[userId].(balance := db.profiles[userId].balance + amount)])
            && o.result == Ok(o.db.profiles[userId])
            && TotalBalance(o.db) == TotalBalance(db) + amount
  {
    AdjustTotal(db.profiles, userId, amount, Adjust(db.profiles, userId, amount));
  }

  /**
   * An accepted deposit changes only the target's balance, by exactly the
   * amount, and returns the updated profile; all money in the ledger grows
   * by the amount.
   */
  lemma DepositCreditsOnlyTarget(db: Db, userId: int, amount: int)
    requires Consistent(db)
    requires Deposit(db, userId, amount).result.Ok?
    ensures userId in db.profiles
    ensures var o := Deposit(db, userId, amount);
            && o.db == db.(profiles := db.profiles[userId := db.profiles[userId].(balance := db.profiles[userId].balance + amount)])
            && o.result.value == o.db.profiles[userId]
            && TotalBalance(o.db) == TotalBalance(db) + amount
  {
    UnpaidTotalHasClient(db, userId);
    assert Deposit(db, userId, amount) == Credited(db, userId, amount);
    CreditedChanges(db, userId, amount);
  }

  /** The corrected deposit keeps every balance non-negative, and the rest of the database's constraints. */
  lemma DepositPreservesWellFormed(db: Db, userId: int, amount: int)
    requires WellFormed(db)
    ensures WellFormed(Deposit(db, userId, amount).db)
  {
    if Deposit(db, userId, amount).result.Ok? {
      DepositCreditsOnlyTarget(db, userId, amount);
    }
  }

  /** A client owing 200 on one active contract may not deposit 60: the limit is 50. */
  lemma DepositOverLimitScenario()
    ensures Deposit(Owing(), 1, 60).result == Err(LimitExceeded(50.0))
  {
    OwingTotal();
  }

  /** The same client may deposit 40, which becomes its balance. */
  lemma DepositWithinLimitScenario()
    ensures Deposit(Owing(), 1, 40).result.Ok?
    ensures Deposit(Owing(), 1, 40).db.profiles[1].balance == 40
  {
    OwingTotal();
  }

  lemma OutstandingAfterMark(db: Db, after: Db, jobId: int, date: Option<int>, userId: int)
    requires jobId in db.jobs
    requires after.contracts == db.contracts
    requires after.jobs == db.jobs[jobId := db.jobs[jobId].(paid := true, paymentDate := date)]
    ensures OutstandingJobs(after, userId) == OutstandingJobs(db, userId) - {jobId}
    ensures Prices(after.jobs, OutstandingJobs(after, userId)) == Prices(db.jobs, OutstandingJobs(db, userId)) - {jobId}
  {
    var before := OutstandingJobs(db, userId);
    var left := OutstandingJobs(after, userId);
    forall j
      ensures j in left <==> j in before && j != jobId
    {
      if j in db.jobs && j != jobId {
        assert after.jobs[j] == db.jobs[j];
      }
    }
    assert left == before - {jobId};
  }

  /**
   * Marking one unpaid job paid takes it out of its client's outstanding
   * total and changes no other client's.
   */
  lemma MarkPaidOutstanding(db: Db, after: Db, jobId: int, date: Option<int>, userId: int)
    requires jobId in db.jobs
    requires after.contracts == db.contracts
    requires after.jobs == db.jobs[jobId := db.jobs[jobId].(paid := true, paymentDate := date)]
    ensures UnpaidTotal(after, userId)
         == UnpaidTotal(db, userId) - (if jobId in OutstandingJobs(db, userId) then db.jobs[jobId].price else 0)
  {
    OutstandingAfterMark(db, after, jobId, date, userId);
    var m := Prices(db.jobs, OutstandingJobs(db, userId));
    if jobId in m {
      SumRemove(m, jobId);
    } else {
      assert m - {jobId} == m;
    }
  }

  /**
   * Settlement and the deposit guard agree: paying a job on an active
   * contract lowers the client's outstanding total by its price, and paying
   * one on a terminated contract leaves the total as it was.
   */
  lemma PayReducesOutstanding(db: Db, actor: Actor, jobId: int, locked: set<int>, now: int)
    requires Consistent(db)
    requires Pay(db, actor, jobId, locked, now).result.Ok?
    ensures var job := db.jobs[jobId];
            UnpaidTotal(Pay(db, actor, jobId, locked, now).db, actor.id)
              == UnpaidTotal(db, actor.id) - (if IsActive(db.contracts[job.contractId]) then job.price else 0)
  {
    var after := Pay(db, actor, jobId, locked, now).db;
    PayMarksJob(db, actor, jobId, locked, now);
    MarkPaidOutstanding(db, after, jobId, Some(now), actor.id);
  }
}
