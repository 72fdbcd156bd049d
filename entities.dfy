/**
 * The three tables of the ledger, as values. Rows are keyed by their integer
 * primary key; amounts (balances and prices) are exact integers in the
 * smallest currency unit.
 */
module Entities {
  import opened Tables

  datatype Option<T> = None | Some(value: T)

  datatype Result<T, E> = Ok(value: T) | Err(error: E)

  datatype ContractStatus = New | InProgress | Terminated

  /** A participant; `kind` is "client", "contractor" or any other role name. */
  datatype Profile = Profile(kind: string, balance: int, profession: string)

  /** An agreement between one client profile and one contractor profile. */
  datatype Contract = Contract(clientId: int, contractorId: int, status: ContractStatus)

  /** A billable unit of work under one contract; a NULL `paid` reads as false. */
  datatype Job = Job(contractId: int, price: int, paid: bool, paymentDate: Option<int>)

  datatype Db = Db(profiles: map<int, Profile>, contracts: map<int, Contract>, jobs: map<int, Job>)

  /** The profile resolved for the request: its primary key and its type. */
  datatype Actor = Actor(id: int, kind: string)

  /**
   * What the model assumes of every store it is given: prices are positive,
   * and every foreign key (Contract.ClientId, Contract.ContractorId,
   * Job.ContractId) names an existing row. The handlers read stores like
   * this and none of them writes a price or a foreign key.
   */
  ghost predicate Consistent(db: Db)
  {
    && (forall j :: j in db.jobs ==> db.jobs[j].price > 0)
    && (forall c :: c in db.contracts ==>
          db.contracts[c].clientId in db.profiles && db.contracts[c].contractorId in db.profiles)
    && (forall j :: j in db.jobs ==> db.jobs[j].contractId in db.contracts)
  }

  /**
   * A consistent store in which no balance is negative: the invariant that
   * settlement and the corrected deposit preserve, and that the deposit as
   * written breaks.
   */
  ghost predicate WellFormed(db: Db)
  {
    && Consistent(db)
    && (forall p :: p in db.profiles ==> db.profiles[p].balance >= 0)
  }

  /** The balance column of the profile table. */
  function Balances(profiles: map<int, Profile>): (b: map<int, int>)
    ensures b.Keys == profiles.Keys
    ensures forall p :: p in b ==> b[p] == profiles[p].balance
  {
    map p | p in profiles :: profiles[p].balance
  }

  /** All money held in the ledger: the sum of every profile's balance. */
  function TotalBalance(db: Db): int
  {
    Sum(Balances(db.profiles))
  }

  /** The price column of the jobs whose ids are in `ids`. */
  function Prices(jobs: map<int, Job>, ids: set<int>): (m: map<int, int>)
    ensures m.Keys == ids * jobs.Keys
    ensures forall j :: j in m ==> m[j] == jobs[j].price
  {
    map j | j in ids && j in jobs :: jobs[j].price
  }

  /** Adding `amount` to one profile's balance changes the ledger's total by exactly `amount`. */
  lemma BalancesUpdate(profiles: map<int, Profile>, id: int, amount: int)
    requires id in profiles
    ensures Sum(Balances(profiles[id := profiles[id].(balance := profiles[id].balance + amount)]))
         == Sum(Balances(profiles)) + amount
  {
    var b := Balances(profiles);
    var updated := profiles[id := profiles[id].(balance := profiles[id].balance + amount)];
    assert Balances(updated) == b[id := b[id] + amount];
    SumUpdate(b, id, b[id] + amount);
  }
}
