/** A withdrawal is executed at most once, up to exactly the faults that can repeat it. */
module WithdrawalTheorems {
  import opened Withdrawals

  // --- The invariant ---

  /** A job's transaction exists and belongs to the same user and key. */
  ghost predicate JobOk(txs: seq<Transaction>, id: JobId, job: Job) {
    && job.transactionId < |txs|
    && txs[job.transactionId].userId == id.userId
    && txs[job.transactionId].idempotencyKey == id.idempotencyKey
  }

  /** Executions beyond the repeatable ones: one once the job has settled its transaction, none before. */
  function Budget(w: World, id: JobId): nat {
    Occurrences(w.log, Lost(id)) + Occurrences(w.log, Evicted(id)) +
    (if id in w.jobs && w.jobs[id].transactionId < |w.transactions|
        && w.transactions[w.jobs[id].transactionId].status != PENDING then 1 else 0)
  }

  ghost predicate Inv(w: World) {
    && (forall id :: id in w.jobs ==> JobOk(w.transactions, id, w.jobs[id]))
    && (forall id :: Occurrences(w.log, Executed(id)) <= Budget(w, id))
    && (forall id :: Occurrences(w.log, Executed(id)) >= Occurrences(w.log, Lost(id)))
    && (forall t :: 0 <= t < |w.transactions| && w.transactions[t].status == CONFIRMED ==>
          Occurrences(w.log, Executed(JobId(w.transactions[t].userId, w.transactions[t].idempotencyKey))) >= 1)
  }

  lemma {:induction false} FoundWithdrawal(txs: seq<Transaction>, id: JobId, from: nat, t: TxId)
    requires from <= t < |txs| && txs[t].userId == id.userId && txs[t].idempotencyKey == id.idempotencyKey
    ensures
      var found := FindWithdrawal(txs, id, from);
      && found.Some? && found.value <= t
      && txs[found.value].userId == id.userId && txs[found.value].idempotencyKey == id.idempotencyKey
    decreases t - from
  {
    if !(txs[from].userId == id.userId && txs[from].idempotencyKey == id.idempotencyKey) {
      FoundWithdrawal(txs, id, from + 1, t);
    }
  }

  lemma RepeatFindsTransaction(w: World, user: UserId, key: Key, valid: bool, queued: bool)
    requires Inv(w) && JobId(user, key) in w.jobs
    ensures
      var (w', response) := ProcessWithdrawal(w, user, key, valid, queued);
      && w' == w
      && response.Duplicate? && response.transactionId < |w.transactions|
      && w.transactions[response.transactionId].userId == user
      && w.transactions[response.transactionId].idempotencyKey == key
  {
    var id := JobId(user, key);
    FoundWithdrawal(w.transactions, id, 0, w.jobs[id].transactionId);
  }

  lemma InvRequest(w: World, user: UserId, key: Key, valid: bool, queued: bool)
    requires Inv(w)
    ensures Inv(ProcessWithdrawal(w, user, key, valid, queued).0)
  {
    if JobId(user, key) in w.jobs {
      RepeatFindsTransaction(w, user, key, valid, queued);
    } else {
      var w' := ProcessWithdrawal(w, user, key, valid, queued).0;
      forall id ensures Occurrences(w'.log, Executed(id)) <= Budget(w', id) {
        assert Occurrences(w.log, Executed(id)) <= Budget(w, id);
      }
    }
  }

  lemma Logged(log: seq<Event>, e: Event)
    ensures forall x :: Occurrences(log + [e], x) == Occurrences(log, x) + if x == e then 1 else 0
  {
  }

  /**
    A step that only touches one job, its transaction's status and its own events keeps the invariant if its own
    counts add up.
   */
  lemma InvUpdate(w: World, w': World, id: JobId)
    requires Inv(w) && id in w.jobs
    requires w'.jobs.Keys == w.jobs.Keys && forall x :: x in w.jobs && x != id ==> w'.jobs[x] == w.jobs[x]
    requires w'.jobs[id].transactionId == w.jobs[id].transactionId
    requires |w'.transactions| == |w.transactions|
    requires forall i :: 0 <= i < |w.transactions| && i != w.jobs[id].transactionId ==>
          w'.transactions[i] == w.transactions[i]
    requires JobOk(w'.transactions, id, w'.jobs[id])
    requires forall x :: x != id ==>
               && Occurrences(w'.log, Executed(x)) == Occurrences(w.log, Executed(x))
               && Occurrences(w'.log, Lost(x)) == Occurrences(w.log, Lost(x))
               && Occurrences(w'.log, Evicted(x)) == Occurrences(w.log, Evicted(x))
    requires Occurrences(w.log, Executed(id)) <= Occurrences(w'.log, Executed(id)) <= Budget(w', id)
    requires Occurrences(w'.log, Executed(id)) >= Occurrences(w'.log, Lost(id))
    requires w'.transactions[w.jobs[id].transactionId].status == CONFIRMED ==> Occurrences(w'.log, Executed(id)) >= 1
    ensures Inv(w')
  {
    hide Occurrences;
    forall x | x in w'.jobs && x != id ensures JobOk(w'.transactions, x, w'.jobs[x]) && Budget(w', x) == Budget(w, x) {
      assert JobOk(w.transactions, x, w.jobs[x]);
      assert JobOk(w.transactions, id, w.jobs[id]);
    }
    forall x ensures Occurrences(w'.log, Executed(x)) <= Budget(w', x) {
      assert Occurrences(w.log, Executed(x)) <= Budget(w, x);
    }
  }

  lemma InvFailAttempt(w: World, id: JobId, weather: Weather)
    requires Inv(w) && id in w.jobs
    ensures Inv(FailAttempt(w, id, weather))
  {
    hide Occurrences;
    assert JobOk(w.transactions, id, w.jobs[id]);
    assert Occurrences(w.log, Executed(id)) <= Budget(w, id);
    InvUpdate(w, FailAttempt(w, id, weather), id);
  }

  lemma InvAfterTransfer(w: World, id: JobId, weather: Weather)
    requires Inv(w) && id in w.jobs
    requires w.jobs[id].transactionId < |w.transactions| && w.transactions[w.jobs[id].transactionId].status == PENDING
    ensures Inv(AfterTransfer(w, id, weather))
  {
    hide Occurrences;
    assert JobOk(w.transactions, id, w.jobs[id]);
    assert Occurrences(w.log, Executed(id)) <= Budget(w, id);
    Logged(w.log, Executed(id));
    Logged(w.log + [Executed(id)], Lost(id));
    InvUpdate(w, AfterTransfer(w, id, weather), id);
  }

  lemma InvAttempt(w: World, id: JobId, weather: Weather)
    requires Inv(w)
    ensures Inv(Attempt(w, id, weather))
  {
    hide Inv, AfterTransfer, FailAttempt;
    if id in w.jobs {
      InvFailAttempt(w, id, weather);
      if w.jobs[id].transactionId < |w.transactions| && w.transactions[w.jobs[id].transactionId].status == PENDING {
        InvAfterTransfer(w, id, weather);
      }
    }
  }

  lemma InvEvict(w: World, id: JobId)
    requires Inv(w)
    ensures Inv(Evict(w, id))
  {
    var w' := Evict(w, id);
    forall x ensures Occurrences(w'.log, Executed(x)) <= Budget(w', x) {
      assert Occurrences(w.log, Executed(x)) <= Budget(w, x);
    }
  }

  lemma InvStep(w: World, a: Action)
    requires Inv(w)
    ensures Inv(Step(w, a))
  {
    hide Inv, ProcessWithdrawal, Attempt, Evict;
    match a
    case Request(user, key, valid, queued) => InvRequest(w, user, key, valid, queued);
    case RunJob(id, weather) => InvAttempt(w, id, weather);
    case Cleanup(id) => InvEvict(w, id);
  }

  lemma {:induction false} InvRun(w: World, actions: seq<Action>)
    requires Inv(w)
    ensures Inv(Run(w, actions))
    decreases |actions|
  {
    if actions != [] {
      hide Inv, Step;
      InvStep(w, actions[0]);
      InvRun(Step(w, actions[0]), actions[1..]);
    }
  }

  lemma ReachableInv(actions: seq<Action>)
    ensures Inv(Run(START, actions))
  {
    hide Run;
    InvRun(START, actions);
  }

  // --- Theorems ---

  /** While the job is retained, repeating the request changes nothing and names a transaction of this request. */
  lemma RepeatIsDuplicate(actions: seq<Action>, user: UserId, key: Key, valid: bool, queued: bool)
    requires JobId(user, key) in Run(START, actions).jobs
    ensures
      var w := Run(START, actions);
      var (w', response) := ProcessWithdrawal(w, user, key, valid, queued);
      && w' == w
      && response.Duplicate? && response.transactionId < |w.transactions|
      && w.transactions[response.transactionId].userId == user
      && w.transactions[response.transactionId].idempotencyKey == key
  {
    hide Inv, Run;
    ReachableInv(actions);
    RepeatFindsTransaction(Run(START, actions), user, key, valid, queued);
  }

  /**
    Whatever requests, retries and failures happen, one user and key cause at most one execution, plus one for
    each attempt that executed without getting a status written, plus one for each eviction of the finished job.
   */
  lemma ExecutedAtMostOnce(actions: seq<Action>, id: JobId)
    ensures
      var log := Run(START, actions).log;
      Occurrences(log, Executed(id)) <= 1 + Occurrences(log, Lost(id)) + Occurrences(log, Evicted(id))
  {
    hide Run;
    ReachableInv(actions);
    assert Occurrences(Run(START, actions).log, Executed(id)) <= Budget(Run(START, actions), id);
  }

  /**
    Without such faults the status tells this much: nothing executed while PENDING, exactly one when CONFIRMED, and at
    most one when FAILED.
   */
  lemma StatusTellsExecutions(actions: seq<Action>, id: JobId)
    requires
      var w := Run(START, actions);
      Occurrences(w.log, Lost(id)) == 0 && Occurrences(w.log, Evicted(id)) == 0 && id in w.jobs
    ensures
      var w := Run(START, actions);
      var t := w.jobs[id].transactionId;
      && t < |w.transactions|
      && (w.transactions[t].status == PENDING ==> Occurrences(w.log, Executed(id)) == 0)
      && (w.transactions[t].status == CONFIRMED ==> Occurrences(w.log, Executed(id)) == 1)
      && (w.transactions[t].status == FAILED ==> Occurrences(w.log, Executed(id)) <= 1)
  {
    hide Run;
    ReachableInv(actions);
    var w := Run(START, actions);
    assert JobOk(w.transactions, id, w.jobs[id]);
    assert Occurrences(w.log, Executed(id)) <= Budget(w, id);
  }

  /** Once a transaction has left PENDING it never returns, and transactions are never removed. */
  lemma {:induction false} NeverPendingAgain(w: World, actions: seq<Action>, t: TxId)
    requires t < |w.transactions| && w.transactions[t].status != PENDING
    ensures t < |Run(w, actions).transactions| && Run(w, actions).transactions[t].status != PENDING
    decreases |actions|
  {
    if actions != [] {
      NeverPendingAgain(Step(w, actions[0]), actions[1..], t);
    }
  }

  /** An attempt that neither crashes nor loses its status write leaves the transaction settled. */
  lemma AttemptSettles(w: World, id: JobId, weather: Weather)
    requires Inv(w) && id in w.jobs && w.jobs[id].state == Waiting
    requires weather.crash == NoCrash && weather.failOk
    ensures w.jobs[id].transactionId < |Attempt(w, id, weather).transactions|
    ensures Attempt(w, id, weather).transactions[w.jobs[id].transactionId].status != PENDING
  {
    assert JobOk(w.transactions, id, w.jobs[id]);
  }

  /** The job's transaction has left PENDING. */
  ghost predicate Settled(w: World, id: JobId) {
    && id in w.jobs
    && w.jobs[id].transactionId < |w.transactions|
    && w.transactions[w.jobs[id].transactionId].status != PENDING
  }

  lemma SettledStep(w: World, a: Action, id: JobId)
    requires Inv(w) && Settled(w, id)
    ensures
      var w' := Step(w, a);
      || Occurrences(w'.log, Evicted(id)) > Occurrences(w.log, Evicted(id))
      || (Settled(w', id) && Occurrences(w'.log, Executed(id)) == Occurrences(w.log, Executed(id)))
  {
    hide Occurrences, Attempt;
    match a
    case Request(user, key, valid, queued) =>
    case RunJob(x, weather) =>
      SettledAttempt(w, x, weather, id);
    case Cleanup(x) =>
      Logged(w.log, Evicted(x));
  }

  lemma SettledAttempt(w: World, x: JobId, weather: Weather, id: JobId)
    requires Inv(w) && Settled(w, id)
    ensures Settled(Attempt(w, x, weather), id)
    ensures Occurrences(Attempt(w, x, weather).log, Executed(id)) == Occurrences(w.log, Executed(id))
  {
    hide Occurrences;
    assert JobOk(w.transactions, id, w.jobs[id]);
    if x == id {
      hide AfterTransfer;
    } else if x in w.jobs {
      assert JobOk(w.transactions, x, w.jobs[x]);
      AttemptTouchesOnly(w, x, weather);
      SettledElsewhere(w, Attempt(w, x, weather), x, id);
    }
  }

  /** An attempt changes only its own job, its own transaction and its own events. */
  lemma AttemptTouchesOnly(w: World, x: JobId, weather: Weather)
    requires x in w.jobs
    ensures
      var w' := Attempt(w, x, weather);
      && w'.jobs == w.jobs[x := w'.jobs[x]]
      && |w'.transactions| == |w.transactions|
      && (forall i :: 0 <= i < |w.transactions| && i != w.jobs[x].transactionId ==>
            w'.transactions[i] == w.transactions[i])
      && (forall y :: y != x ==> Occurrences(w'.log, Executed(y)) == Occurrences(w.log, Executed(y)))
      && (forall y :: Occurrences(w'.log, Evicted(y)) == Occurrences(w.log, Evicted(y)))
  {
    hide Occurrences;
    Logged(w.log, Executed(x));
    Logged(w.log + [Executed(x)], Lost(x));
  }

  lemma SettledElsewhere(w: World, w': World, x: JobId, id: JobId)
    requires Settled(w, id) && x != id && x in w.jobs
    requires JobOk(w.transactions, id, w.jobs[id]) && JobOk(w.transactions, x, w.jobs[x])
    requires x in w'.jobs && w'.jobs == w.jobs[x := w'.jobs[x]]
    requires |w'.transactions| == |w.transactions|
    requires forall i :: 0 <= i < |w.transactions| && i != w.jobs[x].transactionId ==>
          w'.transactions[i] == w.transactions[i]
    ensures Settled(w', id)
  {
  }

  lemma StepEvictions(w: World, a: Action, id: JobId)
    ensures Occurrences(Step(w, a).log, Evicted(id)) >= Occurrences(w.log, Evicted(id))
  {
    hide Occurrences, Attempt;
    match a
    case Request(user, key, valid, queued) =>
    case RunJob(x, weather) =>
      if x in w.jobs { AttemptTouchesOnly(w, x, weather); } else { NoJobNoAttempt(w, x, weather); }
    case Cleanup(x) =>
      Logged(w.log, Evicted(x));
  }

  lemma NoJobNoAttempt(w: World, x: JobId, weather: Weather)
    requires x !in w.jobs
    ensures Attempt(w, x, weather) == w
  {
  }

  lemma {:induction false} EvictionsGrow(w: World, actions: seq<Action>, id: JobId)
    ensures Occurrences(Run(w, actions).log, Evicted(id)) >= Occurrences(w.log, Evicted(id))
    decreases |actions|
  {
    if actions != [] {
      hide Occurrences, Step;
      StepEvictions(w, actions[0], id);
      EvictionsGrow(Step(w, actions[0]), actions[1..], id);
    }
  }

  lemma {:induction false} SettledRun(w: World, actions: seq<Action>, id: JobId)
    requires Inv(w) && Settled(w, id)
    requires Occurrences(Run(w, actions).log, Evicted(id)) == Occurrences(w.log, Evicted(id))
    ensures Occurrences(Run(w, actions).log, Executed(id)) == Occurrences(w.log, Executed(id))
    decreases |actions|
  {
    hide Inv, Settled, Occurrences, Step;
    if actions != [] {
      var w' := Step(w, actions[0]);
      assert Run(w, actions) == Run(w', actions[1..]);
      InvStep(w, actions[0]);
      SettledStep(w, actions[0], id);
      StepEvictions(w, actions[0], id);
      EvictionsGrow(w', actions[1..], id);
      SettledRun(w', actions[1..], id);
    }
  }

  /**
    After the first attempt that neither crashes nor loses its status write, the transaction is never PENDING
    again, and unless the job is evicted nothing that follows executes it another time.
   */
  lemma SettledForGood(actions: seq<Action>, id: JobId, weather: Weather, more: seq<Action>)
    requires
      var w := Run(START, actions);
      id in w.jobs && w.jobs[id].state == Waiting && weather.crash == NoCrash && weather.failOk
    ensures
      var w := Run(START, actions);
      var t, attempted := w.jobs[id].transactionId, Attempt(w, id, weather);
      var later := Run(attempted, more);
      && t < |later.transactions| && later.transactions[t].status != PENDING
      && (Occurrences(later.log, Evicted(id)) == Occurrences(attempted.log, Evicted(id)) ==>
            Occurrences(later.log, Executed(id)) == Occurrences(attempted.log, Executed(id)))
  {
    hide Run, Attempt, Inv, Occurrences;
    ReachableInv(actions);
    var w := Run(START, actions);
    AttemptSettles(w, id, weather);
    AttemptKeepsLength(w, id, weather);
    InvAttempt(w, id, weather);
    NeverPendingAgain(Attempt(w, id, weather), more, w.jobs[id].transactionId);
    var attempted := Attempt(w, id, weather);
    if Occurrences(Run(attempted, more).log, Evicted(id)) == Occurrences(attempted.log, Evicted(id)) {
      SettledRun(Attempt(w, id, weather), more, id);
    }
  }

  lemma AttemptKeepsLength(w: World, id: JobId, weather: Weather)
    requires Inv(w) && id in w.jobs
    ensures id in Attempt(w, id, weather).jobs
    ensures Attempt(w, id, weather).jobs[id].transactionId == w.jobs[id].transactionId
    ensures w.jobs[id].transactionId < |Attempt(w, id, weather).transactions|
  {
    assert JobOk(w.transactions, id, w.jobs[id]);
  }

  // --- The bound is reached ---

  const FAIR := Weather(true, true, true, true, NoCrash)

  /** An evicted job lets the same request execute a second time. */
  lemma EvictionRepeats()
    ensures
      var id := JobId(1, "k");
      var request, run := Request(1, "k", true, true), RunJob(id, FAIR);
      var repeated := Run(START, [request, run, Cleanup(id), request, run]);
      Occurrences(repeated.log, Executed(id)) == 2
  {
    var id := JobId(1, "k");
    var a := Step(START, Request(1, "k", true, true));
    var b := Step(a, RunJob(id, FAIR));
    var c := Step(b, Cleanup(id));
    var d := Step(c, Request(1, "k", true, true));
    var e := Step(d, RunJob(id, FAIR));
    assert e.log == [Executed(id), Evicted(id), Executed(id)];
    var request, run := Request(1, "k", true, true), RunJob(id, FAIR);
    RunFive(START, request, run, Cleanup(id), request, run);
  }

  /** So does a process that dies between the transfer and the status write. */
  lemma LostAttemptRepeats()
    ensures
      var id := JobId(1, "k");
      var dies := FAIR.(crash := AfterExecute);
      var run := Run(START, [Request(1, "k", true, true), RunJob(id, dies), RunJob(id, FAIR)]);
      Occurrences(run.log, Executed(id)) == 2
  {
    var id := JobId(1, "k");
    var dies := FAIR.(crash := AfterExecute);
    var a := Step(START, Request(1, "k", true, true));
    var b := Step(a, RunJob(id, dies));
    var c := Step(b, RunJob(id, FAIR));
    assert c.log == [Executed(id), Lost(id), Executed(id)];
    RunThree(START, Request(1, "k", true, true), RunJob(id, dies), RunJob(id, FAIR));
  }

  lemma RunThree(w: World, a: Action, b: Action, c: Action)
    ensures Run(w, [a, b, c]) == Step(Step(Step(w, a), b), c)
  {
    assert [a, b, c][1..] == [b, c] && [b, c][1..] == [c] && [c][1..] == [];
    assert Run(Step(Step(w, a), b), [c]) == Step(Step(Step(w, a), b), c);
    assert Run(Step(w, a), [b, c]) == Run(Step(Step(w, a), b), [c]);
  }

  lemma RunFive(w: World, a: Action, b: Action, c: Action, d: Action, e: Action)
    ensures Run(w, [a, b, c, d, e]) == Step(Step(Step(Step(Step(w, a), b), c), d), e)
  {
    assert [a, b, c, d, e][1..] == [b, c, d, e] && [b, c, d, e][1..] == [c, d, e];
    RunThree(Step(Step(w, a), b), c, d, e);
    assert Run(Step(w, a), [b, c, d, e]) == Run(Step(Step(w, a), b), [c, d, e]);
  }

  // --- When another execution is possible ---

  /** The job is retained and no attempt of it executes any more. */
  ghost predicate Spent(w: World, id: JobId) {
    && id in w.jobs
    && w.jobs[id].state != Finished
    && (w.jobs[id].state == Waiting ==> Settled(w, id))
  }

  lemma SpentAttempt(w: World, x: JobId, weather: Weather, id: JobId)
    requires Inv(w) && Spent(w, id)
    ensures Spent(Attempt(w, x, weather), id)
    ensures Occurrences(Attempt(w, x, weather).log, Executed(id)) == Occurrences(w.log, Executed(id))
  {
    hide Occurrences, AfterTransfer;
    if x == id {
      assert JobOk(w.transactions, id, w.jobs[id]);
    } else if x in w.jobs {
      AttemptTouchesOnly(w, x, weather);
      if w.jobs[id].state == Waiting { SettledAttempt(w, x, weather, id); }
    } else {
      NoJobNoAttempt(w, x, weather);
    }
  }

  lemma SpentStep(w: World, a: Action, id: JobId)
    requires Inv(w) && Spent(w, id)
    ensures Spent(Step(w, a), id)
    ensures Occurrences(Step(w, a).log, Executed(id)) == Occurrences(w.log, Executed(id))
  {
    hide Occurrences, Attempt;
    match a
    case Request(user, key, valid, queued) =>
    case RunJob(x, weather) => SpentAttempt(w, x, weather, id);
    case Cleanup(x) => Logged(w.log, Evicted(x));
  }

  lemma {:induction false} SpentForever(w: World, actions: seq<Action>, id: JobId)
    requires Inv(w) && Spent(w, id)
    ensures Occurrences(Run(w, actions).log, Executed(id)) == Occurrences(w.log, Executed(id))
    decreases |actions|
  {
    hide Inv, Spent, Occurrences, Step;
    if actions != [] {
      InvStep(w, actions[0]);
      SpentStep(w, actions[0], id);
      SpentForever(Step(w, actions[0]), actions[1..], id);
    }
  }

  lemma FairExecutes(w: World, id: JobId)
    requires id in w.jobs && w.jobs[id].state == Waiting && w.jobs[id].transactionId < |w.transactions|
    requires w.transactions[w.jobs[id].transactionId].status == PENDING
    ensures Occurrences(Step(w, RunJob(id, FAIR)).log, Executed(id)) == Occurrences(w.log, Executed(id)) + 1
  {
    hide Occurrences;
    Logged(w.log, Executed(id));
  }

  lemma RequestQueues(w: World, id: JobId)
    requires id !in w.jobs
    ensures
      var w' := Step(w, Request(id.userId, id.idempotencyKey, true, true));
      && w'.log == w.log
      && id in w'.jobs && w'.jobs[id].state == Waiting && w'.jobs[id].transactionId < |w'.transactions|
      && w'.transactions[w'.jobs[id].transactionId].status == PENDING
  {
  }

  lemma CanExecute(w: World, id: JobId) returns (more: seq<Action>)
    requires Inv(w) && !Spent(w, id)
    ensures Occurrences(Run(w, more).log, Executed(id)) == Occurrences(w.log, Executed(id)) + 1
  {
    hide Occurrences, Step;
    var request, run := Request(id.userId, id.idempotencyKey, true, true), RunJob(id, FAIR);
    if id !in w.jobs {
      more := [request, run];
      RequestQueues(w, id);
      FairExecutes(Step(w, request), id);
      RunPair(w, request, run);
    } else if w.jobs[id].state == Finished {
      more := [Cleanup(id), request, run];
      EvictsFinished(w, id);
      RequestQueues(Step(w, Cleanup(id)), id);
      FairExecutes(Step(Step(w, Cleanup(id)), request), id);
      RunThree(w, Cleanup(id), request, run);
    } else {
      more := [run];
      assert JobOk(w.transactions, id, w.jobs[id]);
      FairExecutes(w, id);
      assert [run][1..] == [];
    }
  }

  lemma EvictsFinished(w: World, id: JobId)
    requires id in w.jobs && w.jobs[id].state == Finished
    ensures
      var w' := Step(w, Cleanup(id));
      id !in w'.jobs && Occurrences(w'.log, Executed(id)) == Occurrences(w.log, Executed(id))
  {
    hide Occurrences;
    Logged(w.log, Evicted(id));
  }

  lemma RunPair(w: World, a: Action, b: Action)
    ensures Run(w, [a, b]) == Step(Step(w, a), b)
  {
    hide Step;
    assert [a, b][1..] == [b] && [b][1..] == [];
    assert Run(Step(w, a), [b]) == Step(Step(w, a), b);
  }

  /**
    The exact condition for another execution of a withdrawal: some future makes one exactly if its job is not in the
    queue, or has finished there, or is waiting while its transaction is still PENDING.
   */
  lemma ExecutionIsPossibleIff(actions: seq<Action>, id: JobId)
    ensures
      var w := Run(START, actions);
      (exists more :: Occurrences(Run(w, more).log, Executed(id)) > Occurrences(w.log, Executed(id)))
      <==> || id !in w.jobs
           || w.jobs[id].state == Finished
           || (&& w.jobs[id].state == Waiting && w.jobs[id].transactionId < |w.transactions|
               && w.transactions[w.jobs[id].transactionId].status == PENDING)
  {
    hide Run, Inv, Occurrences;
    ReachableInv(actions);
    var w := Run(START, actions);
    if id in w.jobs { JobTransaction(w, id); }
    if Spent(w, id) {
      forall more ensures Occurrences(Run(w, more).log, Executed(id)) == Occurrences(w.log, Executed(id)) {
        SpentForever(w, more, id);
      }
    } else {
      var more := CanExecute(w, id);
      assert Occurrences(Run(w, more).log, Executed(id)) > Occurrences(w.log, Executed(id));
    }
  }

  lemma JobTransaction(w: World, id: JobId)
    requires Inv(w) && id in w.jobs
    ensures w.jobs[id].transactionId < |w.transactions|
  {
    assert JobOk(w.transactions, id, w.jobs[id]);
  }

  // --- What FAILED tells ---

  /** No attempt writes this transaction any more. */
  ghost predicate Frozen(w: World, t: TxId) {
    && t < |w.transactions|
    && forall id :: id in w.jobs && w.jobs[id].transactionId == t ==> w.jobs[id].state != Waiting
  }

  lemma FrozenStep(w: World, a: Action, t: TxId)
    requires Inv(w) && Frozen(w, t)
    ensures Frozen(Step(w, a), t) && Step(w, a).transactions[t] == w.transactions[t]
  {
    hide Occurrences, Inv;
    match a
    case Request(user, key, valid, queued) =>
    case RunJob(x, weather) => if x in w.jobs { AttemptTouchesOnly(w, x, weather); JobTransaction(w, x); }
    case Cleanup(x) =>
  }

  lemma {:induction false} FrozenForever(w: World, actions: seq<Action>, t: TxId)
    requires Inv(w) && Frozen(w, t)
    ensures t < |Run(w, actions).transactions| && Run(w, actions).transactions[t] == w.transactions[t]
    decreases |actions|
  {
    hide Inv, Frozen, Step;
    if actions != [] {
      InvStep(w, actions[0]);
      FrozenStep(w, actions[0], t);
      FrozenLength(Step(w, actions[0]), t);
      FrozenForever(Step(w, actions[0]), actions[1..], t);
    } else {
      FrozenLength(w, t);
    }
  }

  lemma FrozenLength(w: World, t: TxId)
    requires Frozen(w, t)
    ensures t < |w.transactions|
  {
  }

  /** A job whose transaction is this one names the same user and key, so there is only one. */
  lemma FinishedFreezes(w: World, id: JobId)
    requires Inv(w) && id in w.jobs && w.jobs[id].state != Waiting
    ensures Frozen(w, w.jobs[id].transactionId)
  {
    hide Occurrences;
    assert JobOk(w.transactions, id, w.jobs[id]);
    forall x | x in w.jobs && w.jobs[x].transactionId == w.jobs[id].transactionId ensures x == id {
      assert JobOk(w.transactions, x, w.jobs[x]);
    }
  }

  lemma RetryFails(w: World, id: JobId)
    requires id in w.jobs && w.jobs[id].state == Waiting && w.jobs[id].transactionId < |w.transactions|
    requires w.transactions[w.jobs[id].transactionId].status != PENDING
    ensures
      var t, w' := w.jobs[id].transactionId, Run(w, [RunJob(id, FAIR)]);
      t < |w'.transactions| && w'.transactions[t].status == FAILED
  {
    assert [RunJob(id, FAIR)][1..] == [];
  }

  /**
    A confirmed withdrawal can still be overwritten as FAILED exactly while its job is waiting, that is after a process
    died between confirming it and finishing the job.
   */
  lemma ConfirmedCanTurnFailedIff(actions: seq<Action>, id: JobId)
    requires
      var w := Run(START, actions);
      && id in w.jobs && w.jobs[id].transactionId < |w.transactions|
      && w.transactions[w.jobs[id].transactionId].status == CONFIRMED
    ensures
      var w := Run(START, actions);
      var t := w.jobs[id].transactionId;
      (exists more :: t < |Run(w, more).transactions| && Run(w, more).transactions[t].status == FAILED)
      <==> w.jobs[id].state == Waiting
  {
    hide Run, Inv;
    ReachableInv(actions);
    var w := Run(START, actions);
    var t := w.jobs[id].transactionId;
    if w.jobs[id].state == Waiting {
      RetryFails(w, id);
      assert Run(w, [RunJob(id, FAIR)]).transactions[t].status == FAILED;
    } else {
      FinishedFreezes(w, id);
      forall more ensures t < |Run(w, more).transactions| && Run(w, more).transactions[t] == w.transactions[t] {
        FrozenForever(w, more, t);
      }
    }
  }

  /** A job finishes only behind a confirmed transaction. */
  ghost predicate FinishedConfirmed(w: World) {
    forall id :: id in w.jobs && w.jobs[id].state == Finished ==>
      && w.jobs[id].transactionId < |w.transactions|
      && w.transactions[w.jobs[id].transactionId].status == CONFIRMED
  }

  lemma FinishedConfirmedAttempt(w: World, x: JobId, weather: Weather)
    requires Inv(w) && FinishedConfirmed(w)
    ensures FinishedConfirmed(Attempt(w, x, weather))
  {
    hide Inv, Occurrences;
    if x in w.jobs {
      AttemptTouchesOnly(w, x, weather);
      JobTransaction(w, x);
      var w' := Attempt(w, x, weather);
      forall id | id in w'.jobs && w'.jobs[id].state == Finished ensures
        && w'.jobs[id].transactionId < |w'.transactions|
        && w'.transactions[w'.jobs[id].transactionId].status == CONFIRMED
      {
        if id != x { OwnTransactions(w, id, x); }
      }
    }
  }

  lemma OwnTransactions(w: World, id: JobId, x: JobId)
    requires Inv(w) && id in w.jobs && x in w.jobs && id != x
    ensures w.jobs[id].transactionId != w.jobs[x].transactionId
  {
    hide Occurrences;
    assert JobOk(w.transactions, id, w.jobs[id]) && JobOk(w.transactions, x, w.jobs[x]);
  }

  lemma {:induction false} FinishedConfirmedRun(w: World, actions: seq<Action>)
    requires Inv(w) && FinishedConfirmed(w)
    ensures FinishedConfirmed(Run(w, actions))
    decreases |actions|
  {
    hide Inv, Attempt;
    if actions != [] {
      InvStep(w, actions[0]);
      if actions[0].RunJob? { FinishedConfirmedAttempt(w, actions[0].id, actions[0].weather); }
      FinishedConfirmedRun(Step(w, actions[0]), actions[1..]);
    }
  }

  lemma StartKeeps(actions: seq<Action>)
    ensures FinishedConfirmed(Run(START, actions))
  {
    hide Run;
    FinishedConfirmedRun(START, actions);
  }

  /** The transfer was made, and the write that should confirm it failed. */
  const UNCONFIRMED := FAIR.(confirmOk := false)

  lemma UnconfirmedFails(w: World, id: JobId)
    requires id in w.jobs && w.jobs[id].state == Waiting && w.jobs[id].transactionId < |w.transactions|
    requires w.transactions[w.jobs[id].transactionId].status == PENDING
    ensures
      var t, w' := w.jobs[id].transactionId, Run(w, [RunJob(id, UNCONFIRMED)]);
      && t < |w'.transactions| && w'.transactions[t].status == FAILED
      && Occurrences(w'.log, Executed(id)) == Occurrences(w.log, Executed(id)) + 1
  {
    hide Occurrences;
    Logged(w.log, Executed(id));
    assert [RunJob(id, UNCONFIRMED)][1..] == [];
  }

  /**
    Some future executes a withdrawal (again) and leaves its transaction FAILED exactly if its job is waiting and the
    transaction is PENDING.
   */
  lemma ExecutedCanEndFailedIff(actions: seq<Action>, id: JobId)
    requires id in Run(START, actions).jobs
    ensures
      var w := Run(START, actions);
      var t := w.jobs[id].transactionId;
      (exists more ::
         && t < |Run(w, more).transactions| && Run(w, more).transactions[t].status == FAILED
         && Occurrences(Run(w, more).log, Executed(id)) > Occurrences(w.log, Executed(id)))
      <==> w.jobs[id].state == Waiting && t < |w.transactions| && w.transactions[t].status == PENDING
  {
    hide Run, Inv, Occurrences;
    ReachableInv(actions);
    StartKeeps(actions);
    var w := Run(START, actions);
    var t := w.jobs[id].transactionId;
    JobTransaction(w, id);
    if w.jobs[id].state == Finished {
      FinishedFreezes(w, id);
      forall more ensures t < |Run(w, more).transactions| && Run(w, more).transactions[t].status == CONFIRMED {
        FrozenForever(w, more, t);
      }
    } else if Spent(w, id) {
      forall more ensures Occurrences(Run(w, more).log, Executed(id)) == Occurrences(w.log, Executed(id)) {
        SpentForever(w, more, id);
      }
    } else {
      UnconfirmedFails(w, id);
      assert Run(w, [RunJob(id, UNCONFIRMED)]).transactions[t].status == FAILED;
    }
  }

  /**
    So FAILED does not tell whether the transfer was made: it was not in the first of these runs; it was, and had been
    confirmed, in the second; and it was, without ever being confirmed, in the third.
   */
  lemma FailedTellsNeither()
    ensures
      var id := JobId(1, "k");
      var request := Request(1, "k", true, true);
      var refused := Run(START, [request, RunJob(id, FAIR.(walletOk := false))]);
      var overwritten := Run(START, [request, RunJob(id, FAIR.(crash := AfterStatus)), RunJob(id, FAIR)]);
      var unconfirmed := Run(START, [request, RunJob(id, UNCONFIRMED)]);
      && refused.transactions == [Transaction(1, "k", FAILED)] && Occurrences(refused.log, Executed(id)) == 0
      && overwritten.transactions == [Transaction(1, "k", FAILED)] && Occurrences(overwritten.log, Executed(id)) == 1
      && unconfirmed.transactions == [Transaction(1, "k", FAILED)] && Occurrences(unconfirmed.log, Executed(id)) == 1
  {
    var id := JobId(1, "k");
    var request, refuses := Request(1, "k", true, true), FAIR.(walletOk := false);
    var dies := FAIR.(crash := AfterStatus);
    var a := Step(START, request);
    assert a.transactions == [Transaction(1, "k", PENDING)];
    RunPair(START, request, RunJob(id, refuses));
    RunPair(START, request, RunJob(id, UNCONFIRMED));
    RunThree(START, request, RunJob(id, dies), RunJob(id, FAIR));
    assert Step(a, RunJob(id, refuses)).log == [];
    assert Step(a, RunJob(id, UNCONFIRMED)).log == [Executed(id)];
    var b := Step(a, RunJob(id, dies));
    assert b.transactions == [Transaction(1, "k", CONFIRMED)];
    assert Step(b, RunJob(id, FAIR)).log == [Executed(id)];
  }
}
