/** The service and the job processor over one store and queue, proved against `Withdrawals`. */
module WithdrawalService {
  import opened Withdrawals

  class Service {
    var transactions: seq<Transaction>
    var jobs: map<JobId, Job>
    ghost var log: seq<Event>

    ghost function World(): World
      reads this
    {
      Withdrawals.World(transactions, jobs, log)
    }

    constructor ()
      ensures World() == START
    {
      transactions, jobs, log := [], map[], [];
    }

    method ProcessWithdrawal(user: UserId, key: Key, valid: bool, queued: bool) returns (response: Response)
      modifies this
      ensures (World(), response) == Withdrawals.ProcessWithdrawal(old(World()), user, key, valid, queued)
    {
      var existingJobId := JobId(user, key);
      if existingJobId in jobs {
        var existingTx := FindWithdrawal(transactions, existingJobId, 0);
        if existingTx.Some? {
          return Duplicate(existingTx.value, transactions[existingTx.value].status == PENDING);
        }
      }
      if !valid { return Error; }
      var transactionId := |transactions|;
      transactions := transactions + [Transaction(user, key, PENDING)];
      if !queued { return Error; }
      jobs := AddJob(jobs, existingJobId, Job(transactionId, 0, Waiting));
      response := Submitted(transactionId);
    }

    /** The catch block and the queue's reaction to the rethrown error, unless the process dies in between. */
    method Fail(id: JobId, weather: Weather)
      requires id in jobs
      modifies this`transactions, this`jobs
      ensures World() == FailAttempt(old(World()), id, weather)
    {
      if weather.failOk {
        transactions := SetStatus(transactions, jobs[id].transactionId, FAILED);
      }
      if weather.crash == AfterStatus { return; }
      jobs := jobs[id := FailJob(jobs[id])];
    }

    method Process(id: JobId, weather: Weather)
      modifies this
      ensures World() == Attempt(old(World()), id, weather)
    {
      if id !in jobs || jobs[id].state != Waiting { return; }
      var t := jobs[id].transactionId;
      if weather.crash == BeforeExecute { return; }
      if !weather.walletOk || t >= |transactions| || transactions[t].status != PENDING {
        Fail(id, weather);
        return;
      }
      log := log + [Executed(id)];
      if weather.crash == AfterExecute {
        log := log + [Lost(id)];
        return;
      }
      if weather.executeOk && weather.confirmOk {
        transactions := SetStatus(transactions, t, CONFIRMED);
        if weather.crash == AfterStatus { return; }
        jobs := jobs[id := jobs[id].(state := Finished)];
      } else {
        if !weather.failOk { log := log + [Lost(id)]; }
        Fail(id, weather);
      }
    }

    method RemoveFinished(id: JobId)
      modifies this
      ensures World() == Evict(old(World()), id)
    {
      if id in jobs && jobs[id].state == Finished {
        jobs := jobs - {id};
        log := log + [Evicted(id)];
      }
    }
  }
}
