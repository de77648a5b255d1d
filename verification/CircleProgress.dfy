/** How circles change from step to step: what never goes back, what can no longer happen, and what happens again. */
module CircleProgress {
  import opened Calendar
  import opened Options
  import opened PayoutDates
  import opened Circles
  import opened CircleInvariant

  // --- One step of a started circle ---

  /** The action is an attempt of a queued job of this circle that passes the eligibility check. */
  ghost predicate PaysIn(w: World, a: Action, id: CircleId) {
    && a.RunJob? && a.job.circleId == id
    && a.job in w.jobs && w.jobs[a.job].state == Waiting
    && Ineligible(w, w.jobs[a.job].data, a.weather).None?
  }

  ghost predicate Rescheduled(c: Circle, c': Circle) {
    c' == c.(nextPayoutDate := c'.nextPayoutDate)
  }

  /** Only next payout dates and new jobs. */
  ghost predicate OnlyReschedules(w: World, w': World) {
    && w'.store.Keys == w.store.Keys
    && (forall x :: x in w.store ==> Rescheduled(w.store[x], w'.store[x]))
    && (forall j :: j in w.jobs ==> j in w'.jobs && w'.jobs[j] == w.jobs[j])
  }

  lemma OnlyReschedulesTwice(w: World, w': World, w'': World)
    requires OnlyReschedules(w, w') && OnlyReschedules(w', w'')
    ensures OnlyReschedules(w, w'')
  {
  }

  lemma SchedulingOnlyReschedules(w: World, id: CircleId, env: Surroundings)
    requires Inv(w) && id in w.store && w.store[id].status == ACTIVE
    ensures OnlyReschedules(w, ScheduleCirclePayouts(w, id, env))
  {
    hide CircleOk, JobsOk, CacheOk, ScheduleRounds, PayoutDate, ActiveMembers, SortByPosition;
    assert CircleInv(w, id);
    RosterOf(w, id);
    RosterIsSorted(w.store[id]);
    StoredCircle(w, id);
    ScheduledRoundsOk(w.jobs, id, w.store[id], RoundsReached(w.store[id].members, env), env);
  }

  lemma OneCircleOnlyReschedules(w: World, id: CircleId, env: Surroundings)
    requires Inv(w)
    ensures Inv(ReconcileCircle(w, id, env)) && OnlyReschedules(w, ReconcileCircle(w, id, env))
  {
    hide Inv, MissingRounds, ScheduleCirclePayouts;
    if NeedsReconciling(w, id) {
      InvSchedule(w, id, env);
      SchedulingOnlyReschedules(w, id, env);
    }
  }

  lemma {:induction false} ReconcileOnlyReschedules(w: World, ids: seq<CircleId>, env: Surroundings)
    requires Inv(w)
    ensures Inv(Reconcile(w, ids, env).0) && OnlyReschedules(w, Reconcile(w, ids, env).0)
    decreases |ids|
  {
    hide Inv, ReconcileCircle, NeedsReconciling, SchedulingReturns;
    if ids != [] {
      hide OnlyReschedules;
      var (before, going) := Reconcile(w, ids[..|ids| - 1], env);
      ReconcileOnlyReschedules(w, ids[..|ids| - 1], env);
      if going {
        OneCircleOnlyReschedules(before, ids[|ids| - 1], env);
        OnlyReschedulesTwice(w, before, Reconcile(w, ids, env).0);
      }
    }
  }

  /** A started circle changes only by an eligible attempt of one of its own jobs. */
  lemma StartedCircleStep(w: World, a: Action, id: CircleId)
    requires Inv(w) && id in w.store && HasStarted(w.store[id])
    ensures id in Step(w, a).store
    ensures
      var c, c' := w.store[id], Step(w, a).store[id];
      Rescheduled(c, c')
      || (&& PaysIn(w, a, id)
          && c.status == ACTIVE && c.currentRound < a.job.round <= |c.members|
            && !c.members[a.job.round - 1].hasReceivedPayout
          && c' == Settle(c, c.members[a.job.round - 1].userId, a.weather.reach))
  {
    hide Inv, CreateCircle, ActivateCircle, JoinCircle, StartCircle, GetCircleById, ScheduleCirclePayouts, Reconcile;
    hide Settle, Ineligible, JobOk;
    match a
    case Create(x, dto, valid) => CreateLeaves(w, x, dto, valid, id);
    case Activate(x, user, accountOk, deployed) => ActivateLeaves(w, x, user, accountOk, deployed, id);
    case Join(x, user, allowed) => JoinLeaves(w, x, user, allowed, id);
    case Start(x, user, onChainOk, today) => StartLeaves(w, x, user, onChainOk, today, id);
    case View(x) => InvView(w, x);
    case Announce(x, announced, env) =>
      if x in w.store && w.store[x].status == ACTIVE { SchedulingOnlyReschedules(w, x, env); }
    case ReconcileAll(ids, env) => ReconcileOnlyReschedules(w, ids, env);
    case RunJob(j, weather) =>
      if j in w.jobs && w.jobs[j].state == Waiting && Ineligible(w, w.jobs[j].data, weather).None? {
        JobNames(w, j);
        EligibleMeans(w, j, weather);
      }
    case _ =>
  }

  /** A queued job's data names its own circle, round and the member at that position. */
  lemma JobNames(w: World, j: JobId)
    requires Inv(w) && j in w.jobs
    ensures j.circleId in w.store && 1 <= j.round <= |w.store[j.circleId].members|
    ensures w.jobs[j].data.circleId == j.circleId && w.jobs[j].data.roundNumber == j.round
    ensures w.jobs[j].data.recipientUserId == w.store[j.circleId].members[j.round - 1].userId
  {
    JobDataIs(w, j);
  }

  lemma CreateLeaves(w: World, x: CircleId, dto: NewCircle, valid: bool, id: CircleId)
    requires id in w.store
    ensures id in CreateCircle(w, x, dto, valid).0.store && CreateCircle(w, x, dto, valid).0.store[id] == w.store[id]
  {
  }

  lemma ActivateLeaves(w: World, x: CircleId, user: UserId, accountOk: bool, deployed: Option<string>, id: CircleId)
    requires Inv(w) && id in w.store
    ensures
      var (w', reply) := ActivateCircle(w, x, user, accountOk, deployed);
      && id in w'.store
      && (if x == id && reply == Ok
          then w.store[id].status == PENDING
               && w'.store[id] == w.store[id].(contractAddress := deployed, status := RECRUITING)
          else w'.store[id] == w.store[id])
  {
    hide Inv;
    InvView(w, x);
    InvActivate(w, x, user, accountOk, deployed);
  }

  lemma JoinLeaves(w: World, x: CircleId, user: UserId, allowed: bool, id: CircleId)
    requires id in w.store
    ensures
      var (w', reply) := JoinCircle(w, x, user, allowed);
      && id in w'.store
      && (if x == id && reply == Ok
          then w.store[id].status == RECRUITING
               && w'.store[id] == w.store[id].(members := w'.store[id].members)
               && w.store[id].members <= w'.store[id].members
          else w'.store[id] == w.store[id])
  {
  }

  lemma StartLeaves(w: World, x: CircleId, user: UserId, onChainOk: bool, today: Day, id: CircleId)
    requires Inv(w) && id in w.store
    ensures
      var (w', reply) := StartCircle(w, x, user, onChainOk, today);
      && id in w'.store
      && (if x == id && reply == Ok
          then w.store[id].status == RECRUITING && w'.store[id].status == ACTIVE
               && w'.store[id].members == w.store[id].members
          else w'.store[id] == w.store[id])
  {
    hide Inv;
    InvView(w, x);
    InvStart(w, x, user, onChainOk, today);
  }

  // --- What never goes back ---

  predicate NextStatus(from: CircleStatus, to: CircleStatus) {
    from == to || (from == PENDING && to == RECRUITING) || (from == RECRUITING && to == ACTIVE)
      || (from == ACTIVE && to == COMPLETED)
  }

  /** Members stay at their positions, and a member once marked paid stays so. */
  ghost predicate MembersKept(a: seq<Member>, b: seq<Member>) {
    && |a| <= |b|
    && forall i :: 0 <= i < |a| ==>
         && b[i].userId == a[i].userId && b[i].position == a[i].position
         && (a[i].hasReceivedPayout ==> b[i].hasReceivedPayout)
  }

  lemma SettleKeepsMembers(c: Circle, user: UserId, reach: Reach)
    ensures MembersKept(c.members, Settle(c, user, reach).members)
    ensures Settle(c, user, reach).status in {c.status, COMPLETED}
  {
  }

  /** Every step moves a status at most one stage on, and keeps members and their marks. */
  lemma StepMovesForward(w: World, a: Action, id: CircleId)
    requires Inv(w) && id in w.store
    ensures id in Step(w, a).store
    ensures NextStatus(w.store[id].status, Step(w, a).store[id].status)
    ensures MembersKept(w.store[id].members, Step(w, a).store[id].members)
  {
    hide Inv, CreateCircle, ActivateCircle, JoinCircle, StartCircle, GetCircleById, ScheduleCirclePayouts, Reconcile;
    hide Settle, Ineligible, Process;
    if HasStarted(w.store[id]) {
      hide Step;
      StartedCircleStep(w, a, id);
      if !Rescheduled(w.store[id], Step(w, a).store[id]) {
        var user := w.store[id].members[a.job.round - 1].userId;
        SettleKeepsMembers(w.store[id], user, a.weather.reach);
      }
    } else {
      match a
      case Create(x, dto, valid) => CreateLeaves(w, x, dto, valid, id);
      case Activate(x, user, accountOk, deployed) => ActivateLeaves(w, x, user, accountOk, deployed, id);
      case Join(x, user, allowed) => JoinLeaves(w, x, user, allowed, id);
      case Start(x, user, onChainOk, today) => StartLeaves(w, x, user, onChainOk, today, id);
      case View(x) => InvView(w, x);
      case Announce(x, announced, env) =>
        if x in w.store && w.store[x].status == ACTIVE { SchedulingOnlyReschedules(w, x, env); }
      case ReconcileAll(ids, env) => ReconcileOnlyReschedules(w, ids, env);
      case RunJob(j, weather) => RunJobLeaves(w, j, weather, id);
      case _ =>
    }
  }

  lemma RunJobLeaves(w: World, j: JobId, weather: Weather, id: CircleId)
    requires Inv(w) && id in w.store && !HasStarted(w.store[id])
    ensures id in Process(w, j, weather).store && Process(w, j, weather).store[id] == w.store[id]
  {
    hide Inv, Settle, PayoutDate, PayoutAmount;
    if j in w.jobs { JobDataIs(w, j); }
  }

  /** The statuses in the order a circle goes through them. */
  function Stage(s: CircleStatus): nat {
    match s
    case PENDING => 0
    case RECRUITING => 1
    case ACTIVE => 2
    case COMPLETED => 3
    case CANCELLED => 4
  }

  ghost predicate Onward(c: Circle, c': Circle) {
    Stage(c.status) <= Stage(c'.status) && MembersKept(c.members, c'.members)
  }

  lemma OnwardTwice(c: Circle, c': Circle, c'': Circle)
    ensures Onward(c, c)
    ensures Onward(c, c') && Onward(c', c'') ==> Onward(c, c'')
  {
  }

  lemma StepIsOnward(w: World, a: Action, id: CircleId)
    requires Inv(w) && id in w.store
    ensures id in Step(w, a).store && Onward(w.store[id], Step(w, a).store[id])
  {
    hide Inv, Step, MembersKept;
    StepMovesForward(w, a, id);
  }

  /** Over any run the status never goes back and a payout mark is never lost. */
  lemma {:induction false} RunsMoveForward(w: World, actions: seq<Action>, id: CircleId)
    requires Inv(w) && id in w.store
    ensures id in Run(w, actions).store && Onward(w.store[id], Run(w, actions).store[id])
    decreases |actions|
  {
    hide Inv, Step, Onward;
    OnwardTwice(w.store[id], w.store[id], w.store[id]);
    if actions != [] {
      var next := Step(w, actions[0]);
      StepIsOnward(w, actions[0], id);
      InvStep(w, actions[0]);
      RunsMoveForward(next, actions[1..], id);
      OnwardTwice(w.store[id], next.store[id], Run(w, actions).store[id]);
    }
  }

  /** Once a member is marked paid, no later job for that member is ever eligible, whatever else happens. */
  lemma MarkedMembersAreNeverEligible(w: World, actions: seq<Action>, j: JobId, weather: Weather)
    requires Inv(w)
    requires j.circleId in w.store && 1 <= j.round <= |w.store[j.circleId].members|
    requires w.store[j.circleId].members[j.round - 1].hasReceivedPayout
    ensures
      var w' := Run(w, actions);
      j in w'.jobs ==> Ineligible(w', w'.jobs[j].data, weather).Some?
  {
    hide Inv, Ineligible;
    RunsMoveForward(w, actions, j.circleId);
    InvRun(w, actions);
    var w' := Run(w, actions);
    if j in w'.jobs && Ineligible(w', w'.jobs[j].data, weather).None? {
      EligibleMeans(w', j, weather);
    }
  }

  // --- What can no longer happen ---

  /** A circle whose last attempt stopped before the completion check stays ACTIVE forever. */
  lemma {:induction false} PaidUpCirclesStayActive(w: World, actions: seq<Action>, id: CircleId)
    requires Inv(w) && id in w.store && w.store[id].status == ACTIVE
    requires forall i :: 0 <= i < |w.store[id].members| ==> w.store[id].members[i].hasReceivedPayout
    ensures id in Run(w, actions).store && Run(w, actions).store[id].status == ACTIVE
    decreases |actions|
  {
    if actions != [] {
      hide Inv, Step, Settle;
      StartedCircleStep(w, actions[0], id);
      InvStep(w, actions[0]);
      PaidUpCirclesStayActive(Step(w, actions[0]), actions[1..], id);
    }
  }

  lemma LifecycleKeepsJobs(w: World, a: Action)
    requires a.Create? || a.Activate? || a.Join? || a.Start? || a.View? || a.CacheExpires?
    ensures Step(w, a).jobs == w.jobs
  {
    hide ActiveMembers, FindMember, CalculateNextPayoutDate;
  }

  lemma ExhaustedStays(w: World, a: Action, j: JobId)
    requires Inv(w) && j in w.jobs && w.jobs[j].state == Exhausted
    ensures j in Step(w, a).jobs && Step(w, a).jobs[j] == w.jobs[j]
  {
    hide Inv, CreateCircle, ActivateCircle, JoinCircle, StartCircle, GetCircleById, ScheduleCirclePayouts, Reconcile;
    hide Settle, Ineligible;
    match a
    case Create(_, _, _) => LifecycleKeepsJobs(w, a);
    case Activate(_, _, _, _) => LifecycleKeepsJobs(w, a);
    case Join(_, _, _) => LifecycleKeepsJobs(w, a);
    case Start(_, _, _, _) => LifecycleKeepsJobs(w, a);
    case View(_) => LifecycleKeepsJobs(w, a);
    case Announce(x, announced, env) =>
      if x in w.store && w.store[x].status == ACTIVE { SchedulingOnlyReschedules(w, x, env); }
    case ReconcileAll(ids, env) => ReconcileOnlyReschedules(w, ids, env);
    case _ =>
  }

  /** Paying another round leaves this round's member alone. */
  lemma OtherRoundsPayout(w: World, id: CircleId, c: Circle, round: nat, r: nat, reach: Reach)
    requires Inv(w) && id in w.store && c == w.store[id] && c.status == ACTIVE
    requires 1 <= round <= |c.members| && 1 <= r <= |c.members| && round != r && !c.members[r - 1].hasReceivedPayout
    ensures
      var c' := Settle(c, c.members[round - 1].userId, reach);
      |c'.members| == |c.members| && !c'.members[r - 1].hasReceivedPayout && c'.status == ACTIVE
  {
    hide Inv;
    StoredCircle(w, id);
    MarkedOne(c, round);
    var c' := Settle(c, c.members[round - 1].userId, reach);
    assert c'.members[r - 1] == c.members[r - 1];
    assert SomeoneUnpaid(c'.members);
  }

  /** The round's job used up its attempts before the round was paid. */
  ghost predicate DeadRound(w: World, j: JobId) {
    && j in w.jobs && w.jobs[j].state == Exhausted
    && j.circleId in w.store && w.store[j.circleId].status == ACTIVE
    && 1 <= j.round <= |w.store[j.circleId].members| && !w.store[j.circleId].members[j.round - 1].hasReceivedPayout
  }

  lemma DeadRoundStep(w: World, a: Action, j: JobId)
    requires Inv(w) && DeadRound(w, j)
    ensures DeadRound(Step(w, a), j)
  {
    hide Inv, Step, Settle, Ineligible;
    ExhaustedStays(w, a, j);
    StartedCircleStep(w, a, j.circleId);
    if !Rescheduled(w.store[j.circleId], Step(w, a).store[j.circleId]) {
      OtherRoundsPayout(w, j.circleId, w.store[j.circleId], a.job.round, j.round, a.weather.reach);
    }
  }

  /**
    A round whose job used up its attempts unpaid stays so: rescheduling and reconciliation keep the dead job, so its
    member is never paid and the circle never completes.
   */
  lemma {:induction false} DeadRoundsAreNeverPaid(w: World, actions: seq<Action>, j: JobId)
    requires Inv(w) && DeadRound(w, j)
    ensures DeadRound(Run(w, actions), j)
    decreases |actions|
  {
    if actions != [] {
      hide Inv, Step, DeadRound;
      InvStep(w, actions[0]);
      DeadRoundStep(w, actions[0], j);
      DeadRoundsAreNeverPaid(Step(w, actions[0]), actions[1..], j);
    }
  }

  // --- What happens again ---

  /**
    What an eligible attempt leaves: a payout if it got that far, and a job that is eligible again unless it got to
    the mark.
   */
  lemma EligibleAgainIff(w: World, j: JobId, weather: Weather)
    requires Inv(w) && j in w.jobs && w.jobs[j].state == Waiting
    requires Ineligible(w, w.jobs[j].data, weather).None?
    ensures
      var w', job := Process(w, j, weather), w.jobs[j];
      && Payouts(w'.log, j.circleId)
         == Payouts(w.log, j.circleId)
            + (if weather.reach.Rank() >= Transferred.Rank()
               then [Sent(j.circleId, j.round, PayeeOf(job.data), weather.reach)] else [])
      && j in w'.jobs && w'.jobs[j].data == job.data
      && (w'.jobs[j].state == Waiting <==>
            weather.dies || (weather.reach != Notified && job.attemptsMade + 1 < MAX_ATTEMPTS))
      && (Ineligible(w', job.data, weather).None? <==> weather.reach.Rank() < Marked.Rank())
  {
    hide Inv, Payouts, Ineligible, FindMember;
    InvProcess(w, j, weather);
    JobNames(w, j);
    EligibleMeans(w, j, weather);
    var data, w' := w.jobs[j].data, Process(w, j, weather);
    if weather.reach.Rank() >= Transferred.Rank() {
      SentLogged(w.log, Sent(j.circleId, j.round, PayeeOf(data), weather.reach));
    } else {
      assert w'.log == w.log;
    }
    if weather.reach.Rank() < Marked.Rank() {
      assert w'.store == w.store;
      SameEligibility(w, w', data, weather);
    } else if Ineligible(w', data, weather).None? {
      EligibleMeans(w', j, weather);
    }
  }

  lemma SameEligibility(w: World, w': World, data: JobData, weather: Weather)
    requires w'.store == w.store
    ensures Ineligible(w', data, weather) == Ineligible(w, data, weather)
  {
    hide FindMember;
  }

  // --- Transaction records ---

  ghost function RecordCount(records: seq<PayoutRecord>, id: CircleId, round: nat, confirmed: bool): nat {
    if records == [] then 0
    else
      var last := records[|records| - 1];
      RecordCount(records[..|records| - 1], id, round, confirmed)
      + if last.circleId == id && last.round == round && (last.confirmed || !confirmed) then 1 else 0
  }

  ghost function SentCount(log: seq<Event>, id: CircleId, round: nat, confirmed: bool): nat {
    if log == [] then 0
    else
      var last := log[|log| - 1];
      SentCount(log[..|log| - 1], id, round, confirmed)
      + if last.Sent? && last.circleId == id && last.round == round && (last.reach.Rank() >= Confirmed.Rank()
        || !confirmed) then 1 else 0
  }

  lemma RecordAdded(records: seq<PayoutRecord>, r: PayoutRecord, id: CircleId, round: nat, confirmed: bool)
    ensures RecordCount(records + [r], id, round, confirmed)
         == RecordCount(records, id, round, confirmed)
            + if r.circleId == id && r.round == round && (r.confirmed || !confirmed) then 1 else 0
  {
    assert (records + [r])[..|records|] == records;
  }

  lemma EventAdded(log: seq<Event>, e: Event, id: CircleId, round: nat, confirmed: bool)
    ensures SentCount(log + [e], id, round, confirmed)
         == SentCount(log, id, round, confirmed)
            + if e.Sent? && e.circleId == id && e.round == round && (e.reach.Rank() >= Confirmed.Rank()
              || !confirmed) then 1 else 0
  {
    assert (log + [e])[..|log|] == log;
  }

  /**
    The confirmed records of the round are its confirmed transfers, and there are at least as many records as
    transfers.
   */
  ghost predicate RecordsMatch(records: seq<PayoutRecord>, log: seq<Event>, id: CircleId, round: nat) {
    && RecordCount(records, id, round, true) == SentCount(log, id, round, true)
    && RecordCount(records, id, round, false) >= SentCount(log, id, round, false)
  }

  lemma ActivationLogs(w: World, a: Action)
    requires a.Activate?
    ensures Step(w, a).records == w.records
    ensures Step(w, a).log == w.log || Step(w, a).log == w.log + [Activated(a.id)]
  {
  }

  lemma StartLogs(w: World, a: Action)
    requires a.Start?
    ensures Step(w, a).records == w.records
    ensures Step(w, a).log == w.log || Step(w, a).log == w.log + [Started(a.id)]
  {
    hide ActiveMembers;
  }

  lemma QuietStep(w: World, a: Action)
    requires !a.RunJob? && !a.Activate? && !a.Start?
    ensures Step(w, a).records == w.records && Step(w, a).log == w.log
  {
    hide ScheduleRounds, PayoutDate, Reconcile, SortByPosition, ActiveMembers, FindMember, CalculateNextPayoutDate;
    if a.ReconcileAll? { ReconcileIsSilent(w, a.ids, a.env); }
  }

  lemma AttemptAppends(w: World, j: JobId, weather: Weather)
    ensures
      var w' := Step(w, RunJob(j, weather));
      || (w'.records == w.records && w'.log == w.log)
      || (&& j in w.jobs
          && w'.records == w.records + Records(w.jobs[j].data, weather.reach)
          && w'.log == w.log + Sends(w.jobs[j].data, weather.reach))
  {
    hide Records, Sends, Ineligible, Settle, AfterAttempt;
  }

  lemma OtherEventKeepsMatch(records: seq<PayoutRecord>, log: seq<Event>, e: Event, id: CircleId, round: nat)
    requires RecordsMatch(records, log, id, round) && !e.Sent?
    ensures RecordsMatch(records, log + [e], id, round)
  {
    hide RecordCount, SentCount;
    EventAdded(log, e, id, round, true);
    EventAdded(log, e, id, round, false);
  }

  lemma StepKeepsMatch(w: World, a: Action, id: CircleId, round: nat)
    requires RecordsMatch(w.records, w.log, id, round)
    ensures RecordsMatch(Step(w, a).records, Step(w, a).log, id, round)
  {
    hide Step, RecordCount, SentCount, Records, Sends;
    if a.RunJob? {
      AttemptAppends(w, a.job, a.weather);
      if a.job in w.jobs { AttemptKeepsCounts(w.records, w.log, w.jobs[a.job].data, a.weather.reach, id, round); }
    } else if a.Activate? {
      ActivationLogs(w, a);
      OtherEventKeepsMatch(w.records, w.log, Activated(a.id), id, round);
    } else if a.Start? {
      StartLogs(w, a);
      OtherEventKeepsMatch(w.records, w.log, Started(a.id), id, round);
    } else {
      QuietStep(w, a);
    }
  }

  lemma AttemptKeepsCounts(
      records: seq<PayoutRecord>, log: seq<Event>, data: JobData, reach: Reach, id: CircleId, round: nat)
    ensures
      var rs, es := records + Records(data, reach), log + Sends(data, reach);
      && RecordCount(rs, id, round, true) - RecordCount(records, id, round, true)
         == SentCount(es, id, round, true) - SentCount(log, id, round, true)
      && RecordCount(rs, id, round, false) - RecordCount(records, id, round, false)
         >= SentCount(es, id, round, false) - SentCount(log, id, round, false)
  {
    hide RecordCount, SentCount;
    assert records + [] == records && log + [] == log;
    forall confirmed | Records(data, reach) != [] {
      RecordAdded(records, Records(data, reach)[0], id, round, confirmed);
    }
    forall confirmed | Sends(data, reach) != [] {
      EventAdded(log, Sends(data, reach)[0], id, round, confirmed);
    }
  }

  lemma {:induction false} RecordsMatchTransfers(w: World, actions: seq<Action>, id: CircleId, round: nat)
    requires RecordsMatch(w.records, w.log, id, round)
    ensures RecordsMatch(Run(w, actions).records, Run(w, actions).log, id, round)
    decreases |actions|
  {
    hide Step, RecordsMatch;
    if actions != [] {
      StepKeepsMatch(w, actions[0], id, round);
      RecordsMatchTransfers(Step(w, actions[0]), actions[1..], id, round);
    }
  }
}
