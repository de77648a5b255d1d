/** Which payouts and completions some future can still bring about, and which none can. */
module CircleFutures {
  import opened Options
  import opened PayoutDates
  import opened Circles
  import opened CircleInvariant
  import opened CircleProgress
  import opened CircleSchedules

  /**
    The round lies ahead of an ACTIVE circle, its member is unpaid, and its job has attempts left or is yet to be
    queued.
   */
  ghost predicate Payable(w: World, id: CircleId, round: nat)
    requires id in w.store && 1 <= round <= |w.store[id].members|
  {
    && w.store[id].status == ACTIVE
    && w.store[id].currentRound < round
    && !w.store[id].members[round - 1].hasReceivedPayout
    && (JobId(id, round) in w.jobs ==> w.jobs[JobId(id, round)].state != Exhausted)
  }

  // --- What no future brings ---

  /** What a step adds to a circle's payouts. */
  lemma PayoutsStep(w: World, a: Action, id: CircleId)
    requires Inv(w)
    ensures Payouts(Step(w, a).log, id) == Payouts(w.log, id)
         || (&& PaysIn(w, a, id)
             && Payouts(Step(w, a).log, id)
                == Payouts(w.log, id) + [Sent(id, a.job.round, PayeeOf(w.jobs[a.job].data), a.weather.reach)])
  {
    hide Inv, Step, Ineligible, Payouts;
    if a.Activate? {
      ActivationLogs(w, a);
      Logged(w.log, Activated(a.id), id);
    } else if a.Start? {
      StartLogs(w, a);
      Logged(w.log, Started(a.id), id);
    } else if !a.RunJob? {
      QuietStep(w, a);
    } else {
      AttemptLogs(w, a.job, a.weather, id);
    }
  }

  lemma AttemptLogs(w: World, j: JobId, weather: Weather, id: CircleId)
    requires Inv(w)
    ensures
      var w' := Step(w, RunJob(j, weather));
      Payouts(w'.log, id) == Payouts(w.log, id)
      || (&& PaysIn(w, RunJob(j, weather), id)
          && Payouts(w'.log, id) == Payouts(w.log, id) + [Sent(id, j.round, PayeeOf(w.jobs[j].data), weather.reach)])
  {
    hide Inv, Ineligible, Payouts, Settle, AfterAttempt;
    var w' := Step(w, RunJob(j, weather));
    if j in w.jobs && w'.log != w.log {
      JobNames(w, j);
      var e := Sent(j.circleId, j.round, PayeeOf(w.jobs[j].data), weather.reach);
      assert w'.log == w.log + [e];
      Logged(w.log, e, id);
    }
  }

  /** A round that is not payable stays so, is paid nothing more, and keeps its mark. */
  lemma UnpayableStep(w: World, a: Action, id: CircleId, round: nat)
    requires Inv(w) && id in w.store && HasStarted(w.store[id]) && 1 <= round <= |w.store[id].members|
    requires !Payable(w, id, round)
    ensures
      var w' := Step(w, a);
      && id in w'.store && HasStarted(w'.store[id]) && |w'.store[id].members| == |w.store[id].members|
      && !Payable(w', id, round)
      && w'.store[id].members[round - 1].hasReceivedPayout == w.store[id].members[round - 1].hasReceivedPayout
      && RoundPayouts(Payouts(w'.log, id), round) == RoundPayouts(Payouts(w.log, id), round)
  {
    hide Inv, Step, Ineligible, Settle, Payouts, RoundPayouts;
    StartedCircleStep(w, a, id);
    PayoutsStep(w, a, id);
    if JobId(id, round) in w.jobs && w.jobs[JobId(id, round)].state == Exhausted {
      ExhaustedStays(w, a, JobId(id, round));
    }
    if PaysIn(w, a, id) {
      EligibleRound(w, a.job, a.weather);
      SettleElsewhere(w, id, a.job.round, round, a.weather.reach);
      PaidOut(Payouts(w.log, id), Sent(id, a.job.round, PayeeOf(w.jobs[a.job].data), a.weather.reach));
    }
  }

  lemma EligibleRound(w: World, j: JobId, weather: Weather)
    requires Inv(w) && j in w.jobs && w.jobs[j].state == Waiting && Ineligible(w, w.jobs[j].data, weather).None?
    ensures j.circleId in w.store && 1 <= j.round <= |w.store[j.circleId].members| && Payable(w, j.circleId, j.round)
  {
    hide Inv, Ineligible;
    JobNames(w, j);
    EligibleMeans(w, j, weather);
  }

  /** Settling one round leaves the mark of another. */
  lemma SettleElsewhere(w: World, id: CircleId, round: nat, other: nat, reach: Reach)
    requires Inv(w) && id in w.store && HasStarted(w.store[id])
    requires 1 <= round <= |w.store[id].members| && 1 <= other <= |w.store[id].members| && round != other
    ensures
      var c := w.store[id];
      var c' := Settle(c, c.members[round - 1].userId, reach);
      && HasStarted(c') && |c'.members| == |c.members| && c'.currentRound >= c.currentRound
      && c'.members[other - 1] == c.members[other - 1]
      && (c.status == COMPLETED ==> c'.status == COMPLETED)
  {
    hide Inv;
    StoredCircle(w, id);
    MarkedOne(w.store[id], round);
  }

  lemma {:induction false} UnpayableForever(w: World, actions: seq<Action>, id: CircleId, round: nat)
    requires Inv(w) && id in w.store && HasStarted(w.store[id]) && 1 <= round <= |w.store[id].members|
    requires !Payable(w, id, round)
    ensures
      var w' := Run(w, actions);
      && id in w'.store && HasStarted(w'.store[id]) && |w'.store[id].members| == |w.store[id].members|
      && w'.store[id].members[round - 1].hasReceivedPayout == w.store[id].members[round - 1].hasReceivedPayout
      && RoundPayouts(Payouts(w'.log, id), round) == RoundPayouts(Payouts(w.log, id), round)
    decreases |actions|
  {
    hide Inv, Step, Payable, Payouts, RoundPayouts;
    if actions != [] {
      InvStep(w, actions[0]);
      UnpayableStep(w, actions[0], id, round);
      UnpayableForever(Step(w, actions[0]), actions[1..], id, round);
    }
  }

  // --- What some future brings ---

  /** Every member of the circle has an account and nothing throws. */
  function FairSurroundings(c: Circle): Surroundings {
    Surroundings(set i | 0 <= i < |c.members| :: c.members[i].userId, {}, {}, false)
  }

  lemma FairIsAllClear(c: Circle)
    ensures AllClear(c, FairSurroundings(c))
  {
  }

  /** No job of the circle was used up on the way. */
  ghost predicate NoneUsedUp(w: World, w': World, id: CircleId) {
    forall r :: JobId(id, r) in w'.jobs && w'.jobs[JobId(id, r)].state == Exhausted ==>
      JobId(id, r) in w.jobs && w.jobs[JobId(id, r)].state == Exhausted
  }

  /** The round's job waits in the queue, and nothing else about the circle has changed. */
  ghost predicate Queued(w: World, w': World, id: CircleId, round: nat)
    requires id in w.store
  {
    && Inv(w') && id in w'.store && Rescheduled(w.store[id], w'.store[id])
    && Payouts(w'.log, id) == Payouts(w.log, id)
    && JobId(id, round) in w'.jobs && w'.jobs[JobId(id, round)].state == Waiting
    && NoneUsedUp(w, w', id)
  }

  /** Nothing goes wrong in this action: a finished job is cleaned up, circles are reconciled, or a job runs through. */
  predicate FaultFree(a: Action) {
    match a
    case EvictJob(_) => true
    case ReconcileAll(_, env) => env.lookupFails == {} && env.queueDown == {} && !env.updateFails
    case RunJob(_, weather) => weather == Reaching(Notified)
    case _ => false
  }

  /** Reconciliation at the next start of the server queues a job that is missing. */
  lemma ReconcilingQueues(w: World, id: CircleId, round: nat)
    requires Inv(w) && id in w.store && 1 <= round <= |w.store[id].members| && w.store[id].status == ACTIVE
    requires JobId(id, round) !in w.jobs && !w.store[id].members[round - 1].hasReceivedPayout
    ensures Queued(w, Step(w, ReconcileAll([id], FairSurroundings(w.store[id]))), id, round)
  {
    hide Inv, Payouts, ScheduleCirclePayouts, FairSurroundings, MissingRounds, SchedulingReturns;
    var env := FairSurroundings(w.store[id]);
    FairIsAllClear(w.store[id]);
    SchedulingQueues(w, id, round, env);
    MissingMeans(w, id);
    assert !w.store[id].members[round - 1].hasReceivedPayout && JobId(id, (round - 1) + 1) !in w.jobs;
    assert [id][..0] == [];
    assert Reconcile(w, [id][..0], env) == (w, true);
  }

  lemma SchedulingQueues(w: World, id: CircleId, round: nat, env: Surroundings)
    requires Inv(w) && id in w.store && 1 <= round <= |w.store[id].members| && w.store[id].status == ACTIVE
    requires JobId(id, round) !in w.jobs && AllClear(w.store[id], env)
    ensures Queued(w, ScheduleCirclePayouts(w, id, env), id, round)
  {
    hide Inv, Payouts, ScheduleCirclePayouts, Schedulable, PayoutAmount, PayoutDate;
    ClearScheduling(w, id, env);
    ScheduledRoundsAre(w, id, env);
    InvSchedule(w, id, env);
  }

  lemma EvictForgets(w: World, j: JobId)
    requires Inv(w) && j in w.jobs && w.jobs[j].state == Finished
    ensures
      var w' := Step(w, EvictJob(j));
      Inv(w') && w'.store == w.store && w'.log == w.log && w'.jobs == w.jobs - {j}
  {
    hide Inv;
    InvEvict(w, j);
  }

  lemma CanQueue(w: World, id: CircleId, round: nat) returns (actions: seq<Action>)
    requires Inv(w) && id in w.store && 1 <= round <= |w.store[id].members| && Payable(w, id, round)
    ensures Queued(w, Run(w, actions), id, round)
    ensures forall a :: a in actions ==> FaultFree(a)
  {
    hide Inv, Step, Payouts;
    var j := JobId(id, round);
    var reconcile := ReconcileAll([id], FairSurroundings(w.store[id]));
    if j !in w.jobs {
      actions := [reconcile];
      ReconcilingQueues(w, id, round);
      RunOne(w, reconcile);
    } else if w.jobs[j].state == Finished {
      actions := [EvictJob(j), reconcile];
      EvictForgets(w, j);
      ReconcilingQueues(Step(w, EvictJob(j)), id, round);
      RunTwo(w, EvictJob(j), reconcile);
    } else {
      actions := [];
    }
  }

  lemma RunOne(w: World, a: Action)
    ensures Run(w, [a]) == Step(w, a)
  {
    hide Step;
    assert [a][1..] == [];
  }

  lemma RunTwo(w: World, a: Action, b: Action)
    ensures Run(w, [a, b]) == Step(Step(w, a), b)
  {
    hide Step;
    assert [a, b][1..] == [b];
    RunOne(Step(w, a), b);
  }

  /** A payout of the round that got as far as `reach`, and nothing else but a new next payout date. */
  ghost predicate PaidRound(w: World, w': World, id: CircleId, round: nat, reach: Reach)
    requires id in w.store && 1 <= round <= |w.store[id].members|
  {
    && Inv(w') && id in w'.store
    && Rescheduled(Settle(w.store[id], w.store[id].members[round - 1].userId, reach), w'.store[id])
    && Payouts(w'.log, id) == Payouts(w.log, id) + [Sent(id, round, RoundsPayee(w.store[id], round), reach)]
  }

  /** An attempt that meets no obstacle until it stops at `reach`. */
  function Reaching(reach: Reach): Weather { Weather(true, true, reach, false) }

  lemma WaitingPays(w: World, id: CircleId, round: nat, reach: Reach)
    requires Inv(w) && id in w.store && 1 <= round <= |w.store[id].members| && Payable(w, id, round)
    requires JobId(id, round) in w.jobs && w.jobs[JobId(id, round)].state == Waiting
    requires reach.Rank() >= Transferred.Rank()
    ensures PaidRound(w, Step(w, RunJob(JobId(id, round), Reaching(reach))), id, round, reach)
  {
    hide Inv, Ineligible, Payouts, Settle, FindMember, PayoutAmount, PayoutDate, Payable;
    var j := JobId(id, round);
    JobDataIs(w, j);
    StoredCircle(w, id);
    FoundIsRecipient(w.store[id], round);
    PayableIsActive(w, id, round);
    EligibleNow(w, j, reach);
    EligibleAgainIff(w, j, Reaching(reach));
    InvProcess(w, j, Reaching(reach));
  }

  lemma PayableIsActive(w: World, id: CircleId, round: nat)
    requires id in w.store && 1 <= round <= |w.store[id].members| && Payable(w, id, round)
    ensures w.store[id].status == ACTIVE
  {
  }

  lemma EligibleNow(w: World, j: JobId, reach: Reach)
    requires j.circleId in w.store && 1 <= j.round <= |w.store[j.circleId].members| && Payable(w, j.circleId, j.round)
    requires w.store[j.circleId].contractAddress.Some? && j in w.jobs
    requires w.jobs[j].data.circleId == j.circleId && w.jobs[j].data.roundNumber == j.round
    requires FindMember(w.store[j.circleId].members, w.jobs[j].data.recipientUserId)
          == Some(w.store[j.circleId].members[j.round - 1])
    ensures Ineligible(w, w.jobs[j].data, Reaching(reach)).None?
  {
    hide FindMember;
  }

  lemma AttemptUsesUpOnly(w: World, id: CircleId, round: nat, weather: Weather)
    requires JobId(id, round) in w.jobs
    ensures
      var w' := Step(w, RunJob(JobId(id, round), weather));
      w'.jobs == w.jobs[JobId(id, round) := w'.jobs[JobId(id, round)]]
  {
    hide Ineligible, Settle;
  }

  /** A payable round can be paid, as far as one likes, without using up any other round's job. */
  lemma CanPay(w: World, id: CircleId, round: nat, reach: Reach) returns (actions: seq<Action>)
    requires Inv(w) && id in w.store && 1 <= round <= |w.store[id].members| && Payable(w, id, round)
    requires reach.Rank() >= Transferred.Rank()
    ensures PaidRound(w, Run(w, actions), id, round, reach)
    ensures reach == Notified ==> forall a :: a in actions ==> FaultFree(a)
    ensures
      forall r :: r != round && JobId(id, r) in Run(w, actions).jobs
        && Run(w, actions).jobs[JobId(id, r)].state == Exhausted
        ==> JobId(id, r) in w.jobs && w.jobs[JobId(id, r)].state == Exhausted
  {
    hide Inv, Step, Payouts, PayoutAmount, Run;
    var queueing := CanQueue(w, id, round);
    var queued := Run(w, queueing);
    var attempt := RunJob(JobId(id, round), Reaching(reach));
    actions := queueing + [attempt];
    RunAppend(w, queueing, attempt);
    WaitingPays(queued, id, round, reach);
    SameRound(w.store[id], queued.store[id], round, reach, Run(w, actions).store[id]);
    AttemptUsesUpOnly(queued, id, round, Reaching(reach));
  }

  lemma SameRound(c: Circle, c': Circle, round: nat, reach: Reach, after: Circle)
    requires Rescheduled(c, c') && 1 <= round <= |c.members|
    ensures RoundsPayee(c, round) == RoundsPayee(c', round)
    ensures Rescheduled(Settle(c', c'.members[round - 1].userId, reach), after)
            ==> Rescheduled(Settle(c, c.members[round - 1].userId, reach), after)
  {
  }

  /** A round is paid again in some future exactly if it is payable now. */
  lemma RoundIsPaidAgainIff(w: World, id: CircleId, round: nat)
    requires Inv(w) && id in w.store && HasStarted(w.store[id]) && 1 <= round <= |w.store[id].members|
    ensures
      (exists more ::
         RoundPayouts(Payouts(Run(w, more).log, id), round) > RoundPayouts(Payouts(w.log, id), round))
      <==> Payable(w, id, round)
  {
    hide Inv, Run, Payable, Payouts, RoundPayouts, Settle, PayoutAmount;
    if Payable(w, id, round) {
      var more := CanPay(w, id, round, Transferred);
      PaidOut(Payouts(w.log, id), Sent(id, round, RoundsPayee(w.store[id], round), Transferred));
      assert RoundPayouts(Payouts(Run(w, more).log, id), round) > RoundPayouts(Payouts(w.log, id), round);
    } else {
      forall more
        ensures RoundPayouts(Payouts(Run(w, more).log, id), round) == RoundPayouts(Payouts(w.log, id), round) {
        UnpayableForever(w, more, id, round);
      }
    }
  }

  // --- Completion ---

  /** Someone is unpaid, and every unpaid member's round is payable. */
  ghost predicate Completable(w: World, id: CircleId)
    requires id in w.store
  {
    && w.store[id].status == ACTIVE
    && Unpaid(w.store[id].members) != {}
    && forall r :: r in Unpaid(w.store[id].members) ==> Payable(w, id, r)
  }

  /** The positions of the members yet to be paid. */
  ghost function Unpaid(members: seq<Member>): (s: set<nat>)
    ensures forall r :: r in s ==> 1 <= r <= |members|
  {
    set i | 0 <= i < |members| && !members[i].hasReceivedPayout :: i + 1
  }

  lemma UnpaidIs(c: Circle)
    requires RosterOk(c)
    ensures SomeoneUnpaid(c.members) <==> Unpaid(c.members) != {}
  {
    if SomeoneUnpaid(c.members) {
      var i :| 0 <= i < |c.members| && c.members[i].status == ActiveMember && !c.members[i].hasReceivedPayout;
      assert i + 1 in Unpaid(c.members);
    }
  }

  lemma PayingOne(c: Circle, round: nat, reach: Reach)
    requires RosterOk(c) && 1 <= round <= |c.members| && c.status == ACTIVE && reach.Rank() >= Marked.Rank()
    ensures
      var c' := Settle(c, c.members[round - 1].userId, reach);
      && |c'.members| == |c.members|
      && Unpaid(c'.members) == Unpaid(c.members) - {round}
      && (reach == Notified ==> c'.currentRound == c.currentRound + 1)
      && (reach == Notified ==> c'.status == if Unpaid(c.members) <= {round} then COMPLETED else ACTIVE)
  {
    MarkedOne(c, round);
    var c' := Settle(c, c.members[round - 1].userId, reach);
    forall r ensures r in Unpaid(c'.members) <==> r in Unpaid(c.members) - {round} {
      if 1 <= r <= |c.members| && r != round { assert c'.members[r - 1] == c.members[r - 1]; }
    }
    hide RosterOk;
    MarkKeepsRoster(c, c', round, true);
    UnpaidIs(c');
  }

  lemma {:induction false} Least(s: set<nat>) returns (m: nat)
    requires s != {}
    ensures m in s && forall r :: r in s ==> m <= r
    decreases |s|
  {
    var x :| x in s;
    assert forall r :: r in s ==> r == x || r in s - {x};
    if s - {x} == {} {
      m := x;
    } else {
      m := Least(s - {x});
      if x < m { m := x; }
    }
  }

  /** Pay the unpaid rounds in ascending order, each by an attempt that runs through. */
  lemma {:induction false} CanComplete(w: World, id: CircleId) returns (actions: seq<Action>)
    requires Inv(w) && id in w.store && Completable(w, id)
    ensures id in Run(w, actions).store && Run(w, actions).store[id].status == COMPLETED
    ensures forall a :: a in actions ==> FaultFree(a)
    decreases |Unpaid(w.store[id].members)|
  {
    hide Inv, Run, Settle, Payouts, PayoutAmount, Unpaid, FaultFree;
    var c := w.store[id];
    var round := Least(Unpaid(c.members));
    StoredCircle(w, id);
    assert Payable(w, id, round);
    actions := CanPay(w, id, round, Notified);
    PayingOne(c, round, Notified);
    if !(Unpaid(c.members) <= {round}) {
      var first, next := actions, Run(w, actions);
      assert Unpaid(next.store[id].members) == Unpaid(c.members) - {round};
      forall r | r in Unpaid(next.store[id].members) ensures Payable(next, id, r) {
        assert Payable(w, id, r);
        UnpaidMember(next.store[id].members, r);
      }
      var rest := CanComplete(next, id);
      actions := first + rest;
      RunTwice(w, first, rest);
    }
  }

  lemma UnpaidMember(members: seq<Member>, r: nat)
    requires r in Unpaid(members)
    ensures 1 <= r <= |members| && !members[r - 1].hasReceivedPayout
  {
  }

  lemma {:induction false} RunTwice(w: World, actions: seq<Action>, more: seq<Action>)
    ensures Run(w, actions + more) == Run(Run(w, actions), more)
    decreases |actions|
  {
    hide Step;
    if actions == [] {
      assert actions + more == more;
    } else {
      assert (actions + more)[1..] == actions[1..] + more;
      RunTwice(Step(w, actions[0]), actions[1..], more);
    }
  }

  /**
    Some future completes a started circle exactly if it is complete, or someone is unpaid and all the unpaid are
    payable; and then some future in which nothing goes wrong does.
   */
  lemma CompletesIff(w: World, id: CircleId)
    requires Inv(w) && id in w.store && HasStarted(w.store[id])
    ensures
      (exists more :: id in Run(w, more).store && Run(w, more).store[id].status == COMPLETED)
      <==> w.store[id].status == COMPLETED || Completable(w, id)
    ensures
      w.store[id].status == COMPLETED || Completable(w, id) ==>
        exists more ::
          && (forall a :: a in more ==> FaultFree(a))
          && id in Run(w, more).store && Run(w, more).store[id].status == COMPLETED
  {
    hide Inv, Run, Payable, Payouts, Unpaid, FaultFree;
    if w.store[id].status == COMPLETED {
      RunNothing(w);
      assert Run(w, []).store[id].status == COMPLETED;
    } else if Completable(w, id) {
      var more := CanComplete(w, id);
      assert Run(w, more).store[id].status == COMPLETED;
    } else {
      forall more ensures id in Run(w, more).store && Run(w, more).store[id].status != COMPLETED {
        NeverCompletes(w, more, id);
      }
    }
  }

  lemma RunNothing(w: World)
    ensures Run(w, []) == w
  {
  }

  lemma NeverCompletes(w: World, more: seq<Action>, id: CircleId)
    requires Inv(w) && id in w.store && w.store[id].status == ACTIVE && !Completable(w, id)
    ensures id in Run(w, more).store && Run(w, more).store[id].status != COMPLETED
  {
    hide Inv, Run, Payable, Payouts, RoundPayouts, Unpaid;
    StoredCircle(w, id);
    UnpaidIs(w.store[id]);
    if Unpaid(w.store[id].members) == {} {
      PaidUpCirclesStayActive(w, more, id);
    } else {
      var r :| r in Unpaid(w.store[id].members) && !Payable(w, id, r);
      UnpaidMember(w.store[id].members, r);
      UnpayableForever(w, more, id, r);
      InvRun(w, more);
      StoredCircle(Run(w, more), id);
    }
  }
}
