/**
 * The database the handlers share, as an object whose three tables the
 * state-changing requests update in place. Each request runs as one
 * transaction: its steps work on the tables as the transaction sees them,
 * and the tables are written back only when every step has succeeded.
 */
module Ledger {
  import opened Entities
  import opened Queries
  import opened Settlement
  import opened Deposits

  class Store {
    var profiles: map<int, Profile>
    var contracts: map<int, Contract>
    var jobs: map<int, Job>

    /** The tables as a value. */
    function Snapshot(): Db
      reads this
    {
      Db(profiles, contracts, jobs)
    }

    ghost predicate Valid()
      reads this
    {
      WellFormed(Snapshot())
    }

    constructor (db: Db)
      requires WellFormed(db)
      ensures Valid() && Snapshot() == db
    {
      profiles, contracts, jobs := db.profiles, db.contracts, db.jobs;
    }

    /**
     * POST /jobs/:job_id/pay. `locked` holds the job rows other transactions
     * have locked at this moment; `now` is the payment time.
     */
    method PayJob(actor: Actor, jobId: int, locked: set<int>, now: int) returns (r: Result<Job, PayError>)
      requires Valid()
      modifies this
      ensures Valid()
      ensures r == Pay(old(Snapshot()), actor, jobId, locked, now).result
      ensures Snapshot() == Pay(old(Snapshot()), actor, jobId, locked, now).db
      ensures TotalBalance(Snapshot()) == TotalBalance(old(Snapshot()))
    {
      if actor.kind != "client" {
        return Err(Forbidden);
      }
      // The transaction's view of the tables.
      var txProfiles, txJobs := profiles, jobs;
      if !Payable(Snapshot(), actor.id, jobId, locked) {
        return Err(JobNotFound);
      }
      var job := txJobs[jobId];
      var contractorId := contracts[job.contractId].contractorId;
      var debited := Debit(txProfiles, actor.id, job.price);
      if debited.None? {
        return Err(InsufficientFunds);
      }
      txProfiles := debited.value;
      txProfiles := Adjust(txProfiles, contractorId, job.price);
      var marked := MarkPaid(txJobs, jobId, now);
      if marked.None? {
        // "Already paid" cannot happen: the row was found unpaid under its
        // lock and nothing in this transaction has written it since.
        assert false;
      }
      txJobs := marked.value;
      // Commit.
      profiles, jobs := txProfiles, txJobs;
      r := Ok(jobs[jobId]);
      PayConservesFunds(old(Snapshot()), actor, jobId, locked, now);
      PayPreservesWellFormed(old(Snapshot()), actor, jobId, locked, now);
    }

    /** POST /balances/deposit/:userId, with the lower bound on the amount restored. */
    method Deposit(userId: int, amount: int) returns (r: Result<Profile, DepositError>)
      requires Valid()
      modifies this
      ensures Valid()
      ensures r == Deposits.Deposit(old(Snapshot()), userId, amount).result
      ensures Snapshot() == Deposits.Deposit(old(Snapshot()), userId, amount).db
    {
      var total := UnpaidTotal(Snapshot(), userId);
      if total == 0 {
        return Err(NoUnpaidJobs);
      }
      if 4 * amount > total {
        return Err(LimitExceeded(total as real / 4.0));
      }
      if amount < 0 {
        return Err(NegativeAmount);
      }
      UnpaidTotalHasClient(Snapshot(), userId);
      profiles := Adjust(profiles, userId, amount);
      r := Ok(profiles[userId]);
      DepositPreservesWellFormed(old(Snapshot()), userId, amount);
    }
  }
}
