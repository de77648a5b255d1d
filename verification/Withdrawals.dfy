/**
  Withdrawal requests and their queue job (wallet.service.ts, withdrawal.processor.ts) as a state machine.

  A job id is the pair of user and idempotency key. What the outside world does during a call (checks passing,
  writes failing, the process dying) is an input of the step.
 */
module Withdrawals {
  import opened Options

  type UserId = nat
  type Key = string
  type TxId = nat

  const MAX_ATTEMPTS := 3

  datatype Status = PENDING | CONFIRMED | FAILED

  datatype Transaction = Transaction(userId: UserId, idempotencyKey: Key, status: Status)

  datatype JobId = JobId(userId: UserId, idempotencyKey: Key)

  datatype JobState = Waiting | Finished | Exhausted

  datatype Job = Job(transactionId: TxId, attemptsMade: nat, state: JobState)

  /**
    Executed: executeWithdrawal was called. Lost: it was, but no status write followed. Evicted: the finished job was
    removed.
   */
  datatype Event = Executed(id: JobId) | Lost(id: JobId) | Evicted(id: JobId)

  datatype World = World(transactions: seq<Transaction>, jobs: map<JobId, Job>, log: seq<Event>)

  const START := World([], map[], [])

  // --- Requests ---

  datatype Response =
    | Submitted(transactionId: TxId)
    | Duplicate(transactionId: TxId, pending: bool)
    | Error

  /** findOne: the oldest withdrawal with this user and key. */
  function FindWithdrawal(txs: seq<Transaction>, id: JobId, from: nat): (found: Option<TxId>)
    ensures found.Some? ==> found.value < |txs|
    decreases |txs| - from
  {
    if from >= |txs| then None
    else if txs[from].userId == id.userId && txs[from].idempotencyKey == id.idempotencyKey then Some(from)
    else FindWithdrawal(txs, id, from + 1)
  }

  /** Adding a job under an id that is still in the queue changes nothing. */
  function AddJob(jobs: map<JobId, Job>, id: JobId, job: Job): map<JobId, Job> {
    if id in jobs then jobs else jobs[id := job]
  }

  /**
    processWithdrawal. `valid` is whether user, wallet, code, amount, balance and destination all pass;
    `queued` is whether the queue accepts the job.
   */
  function ProcessWithdrawal(w: World, user: UserId, key: Key, valid: bool, queued: bool): (World, Response) {
    var id := JobId(user, key);
    var existing := if id in w.jobs then FindWithdrawal(w.transactions, id, 0) else None;
    if existing.Some? then
      (w, Duplicate(existing.value, w.transactions[existing.value].status == PENDING))
    else if !valid then (w, Error)
    else
      var transactionId := |w.transactions|;
      var created := w.(transactions := w.transactions + [Transaction(user, key, PENDING)]);
      if !queued then (created, Error)
      else (created.(jobs := AddJob(w.jobs, id, Job(transactionId, 0, Waiting))), Submitted(transactionId))
  }

  // --- Job attempts ---

  /** Where in an attempt the process dies, if it does; after the status write the job is still waiting. */
  datatype Crash = NoCrash | BeforeExecute | AfterExecute | AfterStatus

  /** What an attempt meets on its way. */
  datatype Weather = Weather(walletOk: bool, executeOk: bool, confirmOk: bool, failOk: bool, crash: Crash)

  function SetStatus(txs: seq<Transaction>, t: TxId, status: Status): seq<Transaction> {
    if t < |txs| then txs[t := txs[t].(status := status)] else txs
  }

  /** A thrown attempt is retried until the attempts are used up; the job stays in the queue either way. */
  function FailJob(job: Job): Job {
    job.(attemptsMade := job.attemptsMade + 1,
         state := if job.attemptsMade + 1 >= MAX_ATTEMPTS then Exhausted else Waiting)
  }

  /** The catch block: mark the transaction FAILED, if that write works, and rethrow, unless the process dies first. */
  function FailAttempt(w: World, id: JobId, weather: Weather): World
    requires id in w.jobs
  {
    var job := w.jobs[id];
    w.(transactions := if weather.failOk then SetStatus(w.transactions, job.transactionId, FAILED) else w.transactions,
       jobs := if weather.crash == AfterStatus then w.jobs else w.jobs[id := FailJob(job)])
  }

  /** The transfer has been attempted; only the bookkeeping is left. */
  function AfterTransfer(w: World, id: JobId, weather: Weather): World
    requires id in w.jobs
  {
    var job := w.jobs[id];
    var executed := w.(log := w.log + [Executed(id)]);
    var lost := executed.(log := executed.log + [Lost(id)]);
    if weather.crash == AfterExecute then lost
    else if weather.executeOk && weather.confirmOk then
      var confirmed := executed.(transactions := SetStatus(w.transactions, job.transactionId, CONFIRMED));
      if weather.crash == AfterStatus then confirmed
      else confirmed.(jobs := w.jobs[id := job.(state := Finished)])
    else FailAttempt(if weather.failOk then executed else lost, id, weather)
  }

  /** WithdrawalProcessor.process, for one attempt of a queued job. */
  function Attempt(w: World, id: JobId, weather: Weather): World {
    if id !in w.jobs || w.jobs[id].state != Waiting then w
    else
      var t := w.jobs[id].transactionId;
      if weather.crash == BeforeExecute then w
      else if !weather.walletOk then FailAttempt(w, id, weather)
      else if t >= |w.transactions| then FailAttempt(w, id, weather)
      else if w.transactions[t].status != PENDING then FailAttempt(w, id, weather)
      else AfterTransfer(w, id, weather)
  }

  /** removeOnComplete: a finished job leaves the queue after a while. */
  function Evict(w: World, id: JobId): World {
    if id in w.jobs && w.jobs[id].state == Finished
    then w.(jobs := w.jobs - {id}, log := w.log + [Evicted(id)])
    else w
  }

  // --- Runs ---

  datatype Action =
    | Request(user: UserId, key: Key, valid: bool, queued: bool)
    | RunJob(id: JobId, weather: Weather)
    | Cleanup(id: JobId)

  function Step(w: World, a: Action): World {
    match a
    case Request(user, key, valid, queued) => ProcessWithdrawal(w, user, key, valid, queued).0
    case RunJob(id, weather) => Attempt(w, id, weather)
    case Cleanup(id) => Evict(w, id)
  }

  function Run(w: World, actions: seq<Action>): World
    decreases |actions|
  {
    if actions == [] then w else Run(Step(w, actions[0]), actions[1..])
  }

  function Occurrences(log: seq<Event>, e: Event): nat { multiset(log)[e] }
}
