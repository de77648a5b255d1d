/** What a request answers and what an attempt decides, and what a status owes to the attempts before it. */
module WithdrawalCalls {
  import opened Withdrawals
  import opened WithdrawalTheorems

  // --- Attempts ---

  predicate BelongsTo(tx: Transaction, id: JobId) { tx.userId == id.userId && tx.idempotencyKey == id.idempotencyKey }

  /** The attempt gets as far as calling executeWithdrawal. */
  predicate Executes(weather: Weather) { weather.walletOk && weather.crash != BeforeExecute }

  /** The transfer goes through and the write that confirms it works. */
  predicate Confirms(weather: Weather) {
    && weather.walletOk && weather.executeOk && weather.confirmOk
    && weather.crash != BeforeExecute && weather.crash != AfterExecute
  }

  /** The attempt gets to the catch block. */
  predicate Throws(weather: Weather) {
    && weather.crash != BeforeExecute
    && (!weather.walletOk || (weather.crash != AfterExecute && !(weather.executeOk && weather.confirmOk)))
  }

  /** What the queue keeps of a job whose attempt was thrown: three attempts at most. */
  predicate FailedOnce(job: Job, job': Job) {
    && job'.transactionId == job.transactionId && job'.attemptsMade == job.attemptsMade + 1
    && (job'.state == Exhausted <==> job'.attemptsMade >= 3) && job'.state != Finished
  }

  /** What an attempt may leave: its own job, the status of the job's transaction, and events. */
  predicate Touches(w: World, w': World, id: JobId)
    requires id in w.jobs
  {
    var t := w.jobs[id].transactionId;
    && id in w'.jobs && w'.jobs == w.jobs[id := w'.jobs[id]] && |w'.transactions| == |w.transactions|
    && (forall i :: 0 <= i < |w.transactions| ==>
          w'.transactions[i] == w.transactions[i].(status := w'.transactions[i].status))
    && (forall i :: 0 <= i < |w.transactions| && i != t ==> w'.transactions[i] == w.transactions[i])
  }

  /** What an attempt decides that finds its transaction PENDING. */
  ghost predicate Decided(w: World, w': World, id: JobId, weather: Weather)
    requires id in w.jobs && w.jobs[id].transactionId < |w.transactions|
  {
    var t := w.jobs[id].transactionId;
    && Touches(w, w', id)
    && (w'.transactions[t].status == CONFIRMED <==> Confirms(weather))
    && (w'.transactions[t].status == FAILED <==> Throws(weather) && weather.failOk)
    && (if Confirms(weather) && weather.crash != AfterStatus then w'.jobs[id] == w.jobs[id].(state := Finished)
        else if Throws(weather) && weather.crash != AfterStatus then FailedOnce(w.jobs[id], w'.jobs[id])
        else w'.jobs[id] == w.jobs[id])
    && w'.log == w.log + (if Executes(weather) then [Executed(id)] else [])
                 + (if Executes(weather) && w'.transactions[t].status == PENDING then [Lost(id)] else [])
  }

  /** An attempt that finds it settled executes nothing; it is thrown, and leaves it FAILED if that write works. */
  ghost predicate ThrownOnly(w: World, w': World, id: JobId, weather: Weather)
    requires id in w.jobs
  {
    var t := w.jobs[id].transactionId;
    && Touches(w, w', id) && w'.log == w.log
    && (t < |w.transactions| ==>
          w'.transactions[t].status
          == if weather.crash != BeforeExecute && weather.failOk then FAILED else w.transactions[t].status)
    && (if weather.crash == BeforeExecute || weather.crash == AfterStatus then w'.jobs[id] == w.jobs[id]
        else FailedOnce(w.jobs[id], w'.jobs[id]))
  }

  lemma AttemptDecides(w: World, id: JobId, weather: Weather)
    requires id in w.jobs && w.jobs[id].state == Waiting && w.jobs[id].transactionId < |w.transactions|
    requires w.transactions[w.jobs[id].transactionId].status == PENDING
    ensures Decided(w, Step(w, RunJob(id, weather)), id, weather)
  {
  }

  /** The same for a transaction that is gone. */
  lemma RetryFailsSettled(w: World, id: JobId, weather: Weather)
    requires id in w.jobs && w.jobs[id].state == Waiting
    requires
      var t := w.jobs[id].transactionId;
      t >= |w.transactions| || w.transactions[t].status != PENDING
    ensures ThrownOnly(w, Step(w, RunJob(id, weather)), id, weather)
  {
  }

  /**
    What one attempt of a waiting job does in every reachable state. It finds its transaction. If that is PENDING, it is
    CONFIRMED afterwards exactly if the wallet is there, the transfer goes through, the write that confirms it works,
    and the process dies neither before nor right after the transfer; FAILED exactly if the attempt was thrown and that
    write works; and PENDING else. If it is not PENDING nothing is executed and it ends FAILED.
   */
  lemma AttemptsExactly(actions: seq<Action>, id: JobId, weather: Weather)
    requires id in Run(START, actions).jobs && Run(START, actions).jobs[id].state == Waiting
    ensures
      var w := Run(START, actions);
      var w', t := Step(w, RunJob(id, weather)), w.jobs[id].transactionId;
      && t < |w.transactions| && BelongsTo(w.transactions[t], id)
      && (if w.transactions[t].status == PENDING then Decided(w, w', id, weather) else ThrownOnly(w, w', id, weather))
  {
    hide Run, Inv, Step, Decided, ThrownOnly;
    ReachableInv(actions);
    var w := Run(START, actions);
    JobsBelong(w, id);
    if w.transactions[w.jobs[id].transactionId].status == PENDING {
      AttemptDecides(w, id, weather);
    } else {
      RetryFailsSettled(w, id, weather);
    }
  }

  /** Nothing else runs a job: one that is not waiting stays as it is, and only a finished one leaves the queue. */
  lemma OnlyWaitingJobsRun(w: World, id: JobId, weather: Weather)
    ensures id !in w.jobs || w.jobs[id].state != Waiting ==> Step(w, RunJob(id, weather)) == w
    ensures
      Step(w, Cleanup(id))
      == if id in w.jobs && w.jobs[id].state == Finished
         then World(w.transactions, w.jobs - {id}, w.log + [Evicted(id)]) else w
  {
  }

  // --- What CONFIRMED owes to an attempt ---

  /** The k-th action is an attempt of this transaction's job that confirms it while it is PENDING. */
  ghost predicate ConfirmedBy(actions: seq<Action>, t: TxId, k: nat)
    requires k < |actions|
  {
    var w := Run(START, actions[..k]);
    && t < |w.transactions| && w.transactions[t].status == PENDING
    && var id := JobId(w.transactions[t].userId, w.transactions[t].idempotencyKey);
    && actions[k].RunJob? && actions[k].id == id && Confirms(actions[k].weather)
    && id in w.jobs && w.jobs[id].state == Waiting && w.jobs[id].transactionId == t
  }

  lemma {:induction false} RunOneMore(w: World, actions: seq<Action>, k: nat)
    requires k < |actions|
    ensures Run(w, actions[..k + 1]) == Step(Run(w, actions[..k]), actions[k])
    decreases k
  {
    hide Step;
    if k == 0 {
      assert actions[..1][1..] == [];
    } else {
      assert actions[..k + 1][1..] == actions[1..][..k] && actions[..k][1..] == actions[1..][..k - 1];
      RunOneMore(Step(w, actions[0]), actions[1..], k - 1);
    }
  }

  /** A step confirms a transaction only by an attempt of its own job that confirms it. */
  lemma StepConfirms(w: World, a: Action, t: TxId)
    requires Inv(w) && t < |Step(w, a).transactions| && Step(w, a).transactions[t].status == CONFIRMED
    requires t < |w.transactions| ==> w.transactions[t].status != CONFIRMED
    ensures t < |w.transactions| && w.transactions[t].status == PENDING
    ensures a.RunJob? && Confirms(a.weather)
    ensures a.id == JobId(w.transactions[t].userId, w.transactions[t].idempotencyKey)
    ensures a.id in w.jobs && w.jobs[a.id].state == Waiting && w.jobs[a.id].transactionId == t
  {
    hide Occurrences, Attempt;
    match a
    case Request(user, key, valid, queued) =>
    case Cleanup(x) =>
    case RunJob(id, weather) =>
      OnlyWaitingJobsRun(w, id, weather);
      assert JobOk(w.transactions, id, w.jobs[id]);
      if w.transactions[w.jobs[id].transactionId].status == PENDING {
        AttemptDecides(w, id, weather);
      } else {
        RetryFailsSettled(w, id, weather);
      }
  }

  /**
    Over any run: behind a CONFIRMED withdrawal there is an attempt of its own job that found it PENDING, whose
    transfer went through and whose confirmation was written.
   */
  lemma {:induction false} ConfirmedMeansTransferred(actions: seq<Action>, t: TxId)
    requires t < |Run(START, actions).transactions| && Run(START, actions).transactions[t].status == CONFIRMED
    ensures exists k :: 0 <= k < |actions| && ConfirmedBy(actions, t, k)
    decreases |actions|
  {
    hide Run, Inv, Step, Confirms;
    var n := |actions| - 1;
    if n < 0 {
      NothingConfirmed(actions, t);
    } else {
      var front := actions[..n];
      assert actions[..n + 1] == actions;
      RunOneMore(START, actions, n);
      ReachableInv(front);
      var w := Run(START, front);
      if t < |w.transactions| && w.transactions[t].status == CONFIRMED {
        ConfirmedMeansTransferred(front, t);
        var k :| 0 <= k < n && ConfirmedBy(front, t, k);
        assert front[..k] == actions[..k];
        assert ConfirmedBy(actions, t, k);
      } else {
        StepConfirms(w, actions[n], t);
        assert ConfirmedBy(actions, t, n);
      }
    }
  }

  lemma NothingConfirmed(actions: seq<Action>, t: TxId)
    requires actions == []
    ensures t >= |Run(START, actions).transactions|
  {
  }

  // --- Requests ---

  /** The first withdrawal of this user and key. */
  ghost predicate IsFirst(txs: seq<Transaction>, id: JobId, t: TxId) {
    && t < |txs| && BelongsTo(txs[t], id)
    && forall i :: 0 <= i < t ==> !BelongsTo(txs[i], id)
  }

  lemma {:induction false} FindsFirst(txs: seq<Transaction>, id: JobId, from: nat)
    requires forall i :: 0 <= i < from && i < |txs| ==> !BelongsTo(txs[i], id)
    ensures
      match FindWithdrawal(txs, id, from)
      case None => forall i :: 0 <= i < |txs| ==> !BelongsTo(txs[i], id)
      case Some(t) => IsFirst(txs, id, t)
    decreases |txs| - from
  {
    if from < |txs| && !BelongsTo(txs[from], id) { FindsFirst(txs, id, from + 1); }
  }

  /**
    From every reachable state. A request whose job is retained changes nothing, and is told of the first withdrawal of
    this user and key and whether that one is PENDING. Any other request is refused if it is not valid; else it leaves
    one PENDING transaction more and, if the queue accepts it, one fresh job for it, which the answer names.
   */
  lemma RequestsExactly(actions: seq<Action>, user: UserId, key: Key, valid: bool, queued: bool)
    ensures
      var w, id := Run(START, actions), JobId(user, key);
      var (w', response) := ProcessWithdrawal(w, user, key, valid, queued);
      var created := w.transactions + [Transaction(user, key, PENDING)];
      if id in w.jobs then
        && w' == w && response.Duplicate? && IsFirst(w.transactions, id, response.transactionId)
        && (response.pending <==> w.transactions[response.transactionId].status == PENDING)
      else if !valid then w' == w && response == Error
      else if !queued then w' == w.(transactions := created) && response == Error
      else
        && w' == World(created, w.jobs[id := Job(|w.transactions|, 0, Waiting)], w.log)
        && response == Submitted(|w.transactions|)
  {
    hide Run, Inv, FindWithdrawal;
    ReachableInv(actions);
    var w, id := Run(START, actions), JobId(user, key);
    FindsFirst(w.transactions, id, 0);
    if id in w.jobs { RepeatIsDuplicate(actions, user, key, valid, queued); }
  }

  /**
    So the answer to a duplicate tells about the transaction of the retained job exactly if no earlier withdrawal has
    this user and key.
   */
  lemma DuplicateNamesTheJobIff(actions: seq<Action>, user: UserId, key: Key, valid: bool, queued: bool)
    requires JobId(user, key) in Run(START, actions).jobs
    ensures
      var w, id := Run(START, actions), JobId(user, key);
      var response := ProcessWithdrawal(w, user, key, valid, queued).1;
      && response.Duplicate? && w.jobs[id].transactionId < |w.transactions|
      && (response.transactionId == w.jobs[id].transactionId
          <==> forall i :: 0 <= i < w.jobs[id].transactionId ==> !BelongsTo(w.transactions[i], id))
  {
    hide Run, Inv, ProcessWithdrawal;
    ReachableInv(actions);
    RequestsExactly(actions, user, key, valid, queued);
    JobTransaction(Run(START, actions), JobId(user, key));
    JobsBelong(Run(START, actions), JobId(user, key));
  }

  lemma JobsBelong(w: World, id: JobId)
    requires Inv(w) && id in w.jobs
    ensures
      var t := w.jobs[id].transactionId;
      t < |w.transactions| && BelongsTo(w.transactions[t], id)
  {
    assert JobOk(w.transactions, id, w.jobs[id]);
  }

  /** The queue refuses the first request, and the second is executed and confirmed. */
  const REFUSED_ONCE := [
    Request(1, "k", true, false), Request(1, "k", true, true),
    RunJob(JobId(1, "k"), Weather(true, true, true, true, NoCrash))]

  /** The third is then told of a withdrawal that is still pending: the one that never got a job. */
  lemma ConfirmedIsReportedPending(valid: bool, queued: bool)
    ensures
      var w := Run(START, REFUSED_ONCE);
      && JobId(1, "k") in w.jobs && w.jobs[JobId(1, "k")] == Job(1, 0, Finished)
      && w.transactions == [Transaction(1, "k", PENDING), Transaction(1, "k", CONFIRMED)]
      && ProcessWithdrawal(w, 1, "k", valid, queued) == (w, Duplicate(0, true))
  {
    var a, b, c := REFUSED_ONCE[0], REFUSED_ONCE[1], REFUSED_ONCE[2];
    RunThree(START, a, b, c);
    assert REFUSED_ONCE == [a, b, c];
    var w1 := Step(START, a);
    assert w1.transactions == [Transaction(1, "k", PENDING)];
    var w2 := Step(w1, b);
    assert w2.transactions == [Transaction(1, "k", PENDING), Transaction(1, "k", PENDING)];
    assert w2.jobs == map[JobId(1, "k") := Job(1, 0, Waiting)];
    var w3 := Step(w2, c);
    assert w3.transactions == [Transaction(1, "k", PENDING), Transaction(1, "k", CONFIRMED)];
  }

  // --- Attempts are counted ---

  /** A job waits after at most two thrown attempts, and is used up after exactly three. */
  ghost predicate AttemptsOk(w: World) {
    forall id :: id in w.jobs ==> (if w.jobs[id].state == Exhausted then w.jobs[id].attemptsMade == 3
                                   else w.jobs[id].attemptsMade <= 2)
  }

  lemma AttemptsStepOk(w: World, a: Action)
    requires AttemptsOk(w)
    ensures AttemptsOk(Step(w, a))
  {
    hide Attempt, FindWithdrawal;
    if a.RunJob? {
      OnlyWaitingJobsRun(w, a.id, a.weather);
      if a.id in w.jobs && w.jobs[a.id].state == Waiting {
        var t := w.jobs[a.id].transactionId;
        if t < |w.transactions| && w.transactions[t].status == PENDING {
          AttemptDecides(w, a.id, a.weather);
        } else {
          RetryFailsSettled(w, a.id, a.weather);
        }
      }
    }
  }

  lemma {:induction false} AttemptsStayOk(w: World, actions: seq<Action>)
    requires AttemptsOk(w)
    ensures AttemptsOk(Run(w, actions))
    decreases |actions|
  {
    hide AttemptsOk, Step;
    if actions != [] {
      AttemptsStepOk(w, actions[0]);
      AttemptsStayOk(Step(w, actions[0]), actions[1..]);
    }
  }

  /** Over any run a job is used up after exactly three thrown attempts, and waits or finishes after at most two. */
  lemma ThreeAttempts(actions: seq<Action>, id: JobId)
    requires id in Run(START, actions).jobs
    ensures
      var job := Run(START, actions).jobs[id];
      (job.state == Exhausted <==> job.attemptsMade == 3) && job.attemptsMade <= 3
  {
    hide Run;
    AttemptsStayOk(START, actions);
  }
}
