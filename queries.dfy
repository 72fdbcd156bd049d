/**
 * The selection rules the ledger's handlers share: which foreign key of a
 * contract ties it to the acting profile, which contracts are active, which
 * jobs are still to be paid, and the client's outstanding total that bounds
 * deposits.
 */
module Queries {
  import opened Tables
  import opened Entities

  /** The two foreign keys of a contract that name a profile. */
  datatype Column = ClientId | ContractorId

  /** A client reaches its contracts through ClientId; every other profile type through ContractorId. */
  function OwnerColumn(kind: string): (c: Column)
    ensures c == ClientId <==> kind == "client"
  {
    if kind == "client" then ClientId else ContractorId
  }

  /** The profile a contract names in the given column. */
  function Owner(contract: Contract, column: Column): int
  {
    match column
    case ClientId => contract.clientId
    case ContractorId => contract.contractorId
  }

  /** The where-clause `[foreignKey]: profileId` for the acting profile. */
  predicate OwnedBy(contract: Contract, actor: Actor)
  {
    Owner(contract, OwnerColumn(actor.kind)) == actor.id
  }

  /** The where-clause `status != 'terminated'`. */
  predicate IsActive(contract: Contract)
  {
    contract.status != Terminated
  }

  /** Which contracts a profile reaches is decided by its type alone: clients by ClientId, all others by ContractorId. */
  lemma OwnedByRole(contract: Contract, actor: Actor)
    ensures actor.kind == "client" ==> (OwnedBy(contract, actor) <==> contract.clientId == actor.id)
    ensures actor.kind != "client" ==> (OwnedBy(contract, actor) <==> contract.contractorId == actor.id)
  {
  }

  /** GET /contracts/:id — the contract with that id, only if the acting profile owns it. */
  function FindContract(db: Db, actor: Actor, id: int): (r: Option<Contract>)
    ensures r.Some? <==> id in db.contracts && OwnedBy(db.contracts[id], actor)
    ensures r.Some? ==> r.value == db.contracts[id]
  {
    if id in db.contracts && OwnedBy(db.contracts[id], actor) then Some(db.contracts[id]) else None
  }

  /** GET /contracts — the acting profile's contracts that are not terminated. */
  function ActiveContracts(db: Db, actor: Actor): (r: map<int, Contract>)
    ensures forall c :: c in r ==> c in db.contracts && r[c] == db.contracts[c]
    ensures forall c :: c in r ==> IsActive(r[c]) && OwnedBy(r[c], actor)
  {
    map c | c in db.contracts && IsActive(db.contracts[c]) && OwnedBy(db.contracts[c], actor) :: db.contracts[c]
  }

  /** Every contract the single lookup finds and that is not terminated is in the active listing, and conversely. */
  lemma ActiveContractsAreFoundOnes(db: Db, actor: Actor, id: int)
    ensures id in ActiveContracts(db, actor) <==> FindContract(db, actor, id).Some? && IsActive(FindContract(db, actor, id).value)
  {
  }

  /**
   * GET /jobs/unpaid — jobs whose paid is not true, inner-joined to a contract
   * that is not terminated and that the acting profile owns.
   */
  function UnpaidJobs(db: Db, actor: Actor): (r: map<int, Job>)
    ensures forall j :: j in r ==> j in db.jobs && r[j] == db.jobs[j] && !r[j].paid
    ensures forall j :: j in r ==> r[j].contractId in db.contracts
    ensures forall j :: j in r ==> IsActive(db.contracts[r[j].contractId]) && OwnedBy(db.contracts[r[j].contractId], actor)
  {
    map j | j in db.jobs && !db.jobs[j].paid && db.jobs[j].contractId in db.contracts
                         && IsActive(db.contracts[db.jobs[j].contractId])
                         && OwnedBy(db.contracts[db.jobs[j].contractId], actor)
          :: db.jobs[j]
  }

  /** The unpaid listing is exactly the unpaid jobs whose contract is in the active listing. */
  lemma UnpaidJobsOnActiveContracts(db: Db, actor: Actor, j: int)
    ensures j in UnpaidJobs(db, actor)
        <==> j in db.jobs && !db.jobs[j].paid && db.jobs[j].contractId in ActiveContracts(db, actor)
  {
  }

  /** Ids of the jobs the deposit guard sums: unpaid, on a non-terminated contract whose ClientId is `userId`. */
  function OutstandingJobs(db: Db, userId: int): set<int>
  {
    set j | j in db.jobs && !db.jobs[j].paid && db.jobs[j].contractId in db.contracts
                         && IsActive(db.contracts[db.jobs[j].contractId])
                         && db.contracts[db.jobs[j].contractId].clientId == userId
  }

  /**
   * `SUM(price)` over the client's outstanding jobs. An empty selection
   * yields SQL NULL, which the handler's `!totalUnpaid` treats like 0.
   */
  function UnpaidTotal(db: Db, userId: int): (t: int)
    ensures OutstandingJobs(db, userId) == {} ==> t == 0
  {
    Sum(Prices(db.jobs, OutstandingJobs(db, userId)))
  }

  /**
   * The deposit guard's total is the sum of prices over exactly what the
   * unpaid-jobs listing shows to that user acting as a client.
   */
  lemma UnpaidTotalIsClientListing(db: Db, userId: int)
    ensures UnpaidTotal(db, userId) == Sum(Prices(db.jobs, UnpaidJobs(db, Actor(userId, "client")).Keys))
  {
    var listed := UnpaidJobs(db, Actor(userId, "client"));
    forall j
      ensures j in listed <==> j in OutstandingJobs(db, userId)
    {
      if j in db.jobs && db.jobs[j].contractId in db.contracts {
        OwnedByRole(db.contracts[db.jobs[j].contractId], Actor(userId, "client"));
      }
    }
    assert listed.Keys == OutstandingJobs(db, userId);
  }

  /**
   * With positive prices, the outstanding total is never negative, and it is
   * zero exactly when the client has no unpaid job on an active contract.
   */
  lemma UnpaidTotalSign(db: Db, userId: int)
    requires Consistent(db)
    ensures UnpaidTotal(db, userId) >= 0
    ensures UnpaidTotal(db, userId) == 0 <==> OutstandingJobs(db, userId) == {}
  {
    var m := Prices(db.jobs, OutstandingJobs(db, userId));
    SumPositive(m);
    if OutstandingJobs(db, userId) != {} {
      var j :| j in OutstandingJobs(db, userId);
      assert j in m;
    }
  }

  /** A non-zero outstanding total means the client exists: it is named by one of the contracts summed. */
  lemma UnpaidTotalHasClient(db: Db, userId: int)
    requires Consistent(db)
    requires UnpaidTotal(db, userId) != 0
    ensures userId in db.profiles
  {
    UnpaidTotalSign(db, userId);
    var j :| j in OutstandingJobs(db, userId);
    assert db.contracts[db.jobs[j].contractId].clientId in db.profiles;
  }
}
