/** The services and the payout processor over one store, cache and queue, proved against the functions of `Circles`. */
module CircleBackend {
  import opened Options
  import opened Calendar
  import opened PayoutDates
  import opened Circles
  import opened CircleInvariant
  import opened CircleSchedules

  class Backend {
    /** What startCircle writes into currentRound. */
    const firstRound: nat

    var store: map<CircleId, Circle>
    var cache: map<CircleId, Circle>
    var jobs: map<JobId, Job>
    var records: seq<PayoutRecord>
    /** Every activation, start and transfer, in order. */
    ghost var log: seq<Event>

    ghost function World(): World
      reads this
    {
      Circles.World(firstRound, store, cache, jobs, records, log)
    }

    ghost predicate Valid()
      reads this
    {
      Inv(World())
    }

    constructor (firstRound: nat)
      ensures World() == StartWith(firstRound) && Valid()
    {
      this.firstRound := firstRound;
      store, cache, jobs, records, log := map[], map[], map[], [], [];
    }

    // --- Lifecycle ---

    method CreateCircle(id: CircleId, dto: NewCircle, valid: bool) returns (reply: Reply)
      requires Valid()
      modifies this`store
      ensures (World(), reply) == Circles.CreateCircle(old(World()), id, dto, valid) && Valid()
    {
      hide Inv, CalculateNextPayoutDate;
      InvCreate(World(), id, dto, valid);
      if id in store { return Refused("duplicate key"); }
      if !(2 <= dto.maxMembers <= 50) { return Refused("validation"); }
      if !valid { return Refused("bad request"); }
      var nextPayoutDate := CalculateNextPayoutDate(dto.startDate, dto.frequency);
      store := store[id := Circle(
        dto.chain, dto.creatorId, dto.amount, dto.frequency, dto.gracePeriodDays, dto.maxMembers,
        [Member(dto.creatorId, 1, false, ActiveMember)],
        PENDING, 0, dto.maxMembers, dto.startDate, nextPayoutDate, None)];
      reply := Ok;
    }

    method GetCircleById(id: CircleId) returns (found: Option<Circle>)
      requires Valid()
      modifies this`cache
      ensures (World(), found) == Circles.GetCircleById(old(World()), id) && Valid()
      ensures found.Some? <==> id in store
      ensures id in store ==> Agrees(found.value, store[id])
    {
      hide Inv, Agrees;
      InvView(World(), id);
      if id in cache { return Some(cache[id]); }
      if id !in store { return None; }
      cache := cache[id := store[id]];
      found := Some(store[id]);
    }

    method ActivateCircle(id: CircleId, user: UserId, accountOk: bool, deployed: Option<string>) returns (reply: Reply)
      requires Valid()
      modifies this
      ensures (World(), reply) == Circles.ActivateCircle(old(World()), id, user, accountOk, deployed) && Valid()
    {
      hide Inv, Agrees;
      InvActivate(World(), id, user, accountOk, deployed);
      var found := GetCircleById(id);
      if found.None? { return Refused("Circle not found"); }
      var circle := found.value;
      if circle.creatorId != user { return Refused("Only the circle creator can activate it"); }
      if circle.status != PENDING { return Refused("cannot activate"); }
      if !accountOk { return Refused("Creator must have an account"); }
      if deployed.None? { return Refused("deployment failed"); }
      if id !in store { return Refused("Failed to activate circle"); }
      store := store[id := store[id].(contractAddress := deployed, status := RECRUITING)];
      log := log + [Activated(id)];
      cache := cache - {id};
      reply := Ok;
    }

    /** circleRepository.addMember */
    method AddMember(id: CircleId, member: Member)
      requires id in store
      modifies this`store
      ensures store == old(store)[id := old(store)[id].(members := old(store)[id].members + [member])]
    {
      store := store[id := store[id].(members := store[id].members + [member])];
    }

    method JoinCircle(id: CircleId, user: UserId, allowed: bool) returns (reply: Reply)
      requires Valid()
      modifies this`store, this`cache
      ensures (World(), reply) == Circles.JoinCircle(old(World()), id, user, allowed) && Valid()
    {
      hide Inv, FindMember;
      InvJoin(World(), id, user, allowed);
      if id !in store { return Refused("Circle not found"); }
      if !allowed { return Refused("not whitelisted"); }
      var circle := store[id];
      if circle.status != RECRUITING { return Refused("not accepting new members"); }
      var active := ActiveMembers(circle.members);
      if |active| >= circle.maxMembers { return Refused("This circle is full"); }
      if FindMember(circle.members, user).Some? { return Refused("already a member"); }
      AddMember(id, Member(user, |active| + 1, false, ActiveMember));
      cache := cache - {id};
      reply := Ok;
    }

    method StartCircle(id: CircleId, user: UserId, onChainOk: bool, today: Day) returns (reply: Reply)
      requires Valid()
      modifies this
      ensures (World(), reply) == Circles.StartCircle(old(World()), id, user, onChainOk, today) && Valid()
    {
      hide Inv, Agrees, ActiveMembers;
      InvStart(World(), id, user, onChainOk, today);
      var found := GetCircleById(id);
      if found.None? { return Refused("Circle not found"); }
      var circle := found.value;
      if circle.creatorId != user { return Refused("Only the circle creator can start it"); }
      if circle.status != RECRUITING { return Refused("must be in RECRUITING status"); }
      var active := ActiveMembers(circle.members);
      if |active| < 2 { return Refused("at least 2 active members"); }
      if circle.contractAddress.None? { return Refused("Circle contract not deployed"); }
      if !onChainOk { return Refused("on-chain start failed"); }
      if id !in store { return Refused("Failed to start circle"); }
      store := store[id := store[id].(
        status := ACTIVE, currentRound := firstRound, startDate := today, totalRounds := |active|)];
      log := log + [Started(id)];
      cache := cache - {id};
      reply := Ok;
    }

    // --- Scheduling ---

    /** The body of the scheduling loop. The account lookup may throw, which ends the loop. */
    method ScheduleRound(
        id: CircleId, circle: Circle, sortedMembers: seq<Member>, payoutDates: seq<Day>, round: nat, env: Surroundings)
      returns (returned: bool)
      requires sortedMembers == SortByPosition(ActiveMembers(circle.members))
      requires 1 <= round <= |sortedMembers| == |payoutDates|
      requires payoutDates[round - 1] == PayoutDate(circle.startDate, circle.frequency, round)
      modifies this`jobs
      ensures returned <==> sortedMembers[round - 1].userId !in env.lookupFails
      ensures jobs == if returned then Circles.ScheduleRound(old(jobs), id, circle, round, env) else old(jobs)
    {
      hide SortByPosition, ActiveMembers, PayoutAmount, PayoutDate;
      var recipient := sortedMembers[round - 1];
      if recipient.userId in env.lookupFails { return false; }
      returned := true;
      if recipient.userId !in env.accounts { return; }
      if round in env.queueDown { return; }
      var jobId := JobId(id, round);
      if jobId in jobs { return; }
      var jobData := JobData(
        id, round, recipient.userId, circle.chain, PayoutAmount(circle), payoutDates[round - 1]);
      jobs := jobs[jobId := Job(jobData, 0, Waiting)];
    }

    /** The result is whether it returned, rather than throwing half-way. */
    method ScheduleCirclePayouts(id: CircleId, env: Surroundings) returns (returned: bool)
      requires id in store
      modifies this`store, this`jobs
      ensures World() == Circles.ScheduleCirclePayouts(old(World()), id, env)
      ensures returned <==> SchedulingReturns(old(store)[id], env)
    {
      hide SortByPosition, ActiveMembers, PayoutDate, Circles.ScheduleRound, RoundsReached;
      var circle := store[id];
      var sortedMembers := SortByPosition(ActiveMembers(circle.members));
      var totalRounds := |sortedMembers|;
      if totalRounds == 0 { return true; }
      var payoutDates := CalculateAllPayoutDates(circle.startDate, circle.frequency, totalRounds);
      RoundsReachedIs(sortedMembers, env);
      for round := 1 to totalRounds + 1
        invariant store == old(store) && jobs == ScheduleRounds(old(jobs), id, circle, round - 1, env)
        invariant round - 1 <= RoundsReached(sortedMembers, env)
      {
        returned := ScheduleRound(id, circle, sortedMembers, payoutDates, round, env);
        if !returned { return; }
      }
      if env.updateFails { return false; }
      store := store[id := circle.(nextPayoutDate := payoutDates[0], totalRounds := totalRounds)];
      returned := true;
    }

    method HandleCircleActivated(id: CircleId, announced: Option<string>, env: Surroundings)
      requires Valid()
      modifies this`store, this`jobs
      ensures World() == Circles.HandleCircleActivated(old(World()), id, announced, env) && Valid()
    {
      hide Inv, Circles.ScheduleCirclePayouts;
      if id !in store { return; }
      if store[id].status != ACTIVE { return; }
      if store[id].contractAddress.None? && announced.None? { return; }
      InvSchedule(World(), id, env);
      var _ := ScheduleCirclePayouts(id, env);
    }

    method ReconcilePendingPayouts(ids: seq<CircleId>, env: Surroundings) returns (finished: bool)
      requires Valid()
      modifies this`store, this`jobs
      ensures (World(), finished) == Reconcile(old(World()), ids, env) && Valid()
    {
      hide Inv, Circles.ScheduleCirclePayouts, MissingRounds, SchedulingReturns;
      InvReconcile(World(), ids, env);
      for i := 0 to |ids|
        invariant (World(), true) == Reconcile(old(World()), ids[..i], env)
      {
        assert ids[..i + 1][..i] == ids[..i];
        var id := ids[i];
        if id in store && store[id].status == ACTIVE && MissingRounds(jobs, id, store[id]) {
          finished := ScheduleCirclePayouts(id, env);
          if !finished {
            assert (World(), false) == Reconcile(old(World()), ids[..i + 1], env);
            StoppedEarly(old(World()), ids, i + 1, env);
            return;
          }
        }
      }
      assert ids[..|ids|] == ids;
      finished := true;
    }

    // --- The payout processor ---

    method VerifyPayoutEligibility(data: JobData, weather: Weather) returns (reason: Option<string>)
      ensures reason == Ineligible(World(), data, weather)
    {
      hide FindMember;
      if data.circleId !in store { return Some("Circle not found"); }
      var circle := store[data.circleId];
      if circle.status != ACTIVE { return Some("not ACTIVE"); }
      if circle.contractAddress.None? { return Some("Circle has no contract address"); }
      if circle.currentRound >= data.roundNumber { return Some("already processed"); }
      var member := FindMember(circle.members, data.recipientUserId);
      if member.None? { return Some("no longer an active member"); }
      if member.value.hasReceivedPayout { return Some("already received payout"); }
      if !weather.hasAccount { return Some("no account"); }
      if !weather.balanceOk { return Some("insufficient balance"); }
      reason := None;
    }

    /** executeBasePayout calls releasePayout on the circle's contract, with neither recipient nor amount. */
    ghost method ReleasePayout(data: JobData, reach: Reach)
      modifies this`log
      ensures log == old(log) + [Sent(data.circleId, data.roundNumber, ByContract, reach)]
    {
      log := log + [Sent(data.circleId, data.roundNumber, ByContract, reach)];
    }

    /** executeNearPayout and executeTokenPayout send the job's amount to the job's recipient. */
    ghost method FundAccount(data: JobData, reach: Reach)
      modifies this`log
      ensures
        var payee := Direct(data.recipientUserId, data.payoutAmount);
        log == old(log) + [Sent(data.circleId, data.roundNumber, payee, reach)]
    {
      log := log + [Sent(data.circleId, data.roundNumber, Direct(data.recipientUserId, data.payoutAmount), reach)];
    }

    /** The pending record, the transfer and the confirmation, as far as the attempt gets. */
    method ExecutePayout(data: JobData, reach: Reach) returns (executed: bool)
      modifies this`records, this`log
      ensures records == old(records) + Records(data, reach) && log == old(log) + Sends(data, reach)
      ensures executed <==> reach.Rank() >= Confirmed.Rank()
    {
      executed := false;
      if reach.Rank() < Recorded.Rank() { return; }
      records := records + [PayoutRecord(data.circleId, data.roundNumber, false)];
      if reach.Rank() < Transferred.Rank() { return; }
      if data.chain == BASE {
        ReleasePayout(data, reach);
      } else {
        FundAccount(data, reach);
      }
      if reach.Rank() < Confirmed.Rank() { return; }
      records := records[|records| - 1 := records[|records| - 1].(confirmed := true)];
      executed := true;
    }

    /** circleRepository.markPayoutReceived */
    method MarkPayoutReceived(id: CircleId, user: UserId)
      requires id in store
      modifies this`store
      ensures store == old(store)[id := old(store)[id].(members := MarkMembers(old(store)[id].members, user))]
    {
      store := store[id := store[id].(members := MarkMembers(store[id].members, user))];
    }

    /** circleRepository.advanceRound */
    method AdvanceRound(id: CircleId)
      requires id in store
      modifies this`store
      ensures store == old(store)[id := old(store)[id].(currentRound := old(store)[id].currentRound + 1)]
    {
      store := store[id := store[id].(currentRound := store[id].currentRound + 1)];
    }

    /** circleRepository.updateStatus */
    method UpdateStatus(id: CircleId, status: CircleStatus)
      requires id in store
      modifies this`store
      ensures store == old(store)[id := old(store)[id].(status := status)]
    {
      store := store[id := store[id].(status := status)];
    }

    /** The mark, the round counter and the completion check, as far as the attempt gets. */
    method HandlePayoutSuccess(data: JobData, reach: Reach) returns (handled: bool)
      requires data.circleId in store
      modifies this`store
      ensures store == old(store)[data.circleId := Settle(old(store)[data.circleId], data.recipientUserId, reach)]
      ensures handled <==> reach == Notified
    {
      hide MarkMembers, SomeoneUnpaid;
      handled := false;
      if reach.Rank() < Marked.Rank() { return; }
      MarkPayoutReceived(data.circleId, data.recipientUserId);
      if reach.Rank() < Advanced.Rank() { return; }
      AdvanceRound(data.circleId);
      if reach.Rank() < Checked.Rank() { return; }
      if !SomeoneUnpaid(store[data.circleId].members) {
        UpdateStatus(data.circleId, COMPLETED);
      }
      handled := reach == Notified;
    }

    method Process(j: JobId, weather: Weather)
      requires Valid()
      modifies this`store, this`jobs, this`records, this`log
      ensures World() == Circles.Process(old(World()), j, weather) && Valid()
    {
      hide Inv, Ineligible, Settle, Records, Sends;
      InvProcess(World(), j, weather);
      if j !in jobs || jobs[j].state != Waiting { return; }
      var data := jobs[j].data;
      var reason := VerifyPayoutEligibility(data, weather);
      var finished := false;
      if reason.None? {
        EligibleIsStored(World(), data, weather);
        var executed := ExecutePayout(data, weather.reach);
        if executed {
          finished := HandlePayoutSuccess(data, weather.reach);
        } else {
          SettleBeforeConfirmed(store[data.circleId], data.recipientUserId, weather.reach);
        }
      }
      jobs := jobs[j := AfterAttempt(jobs[j], finished, weather.dies)];
    }

    method RemoveFinished(j: JobId)
      requires Valid()
      modifies this`jobs
      ensures World() == Evict(old(World()), j) && Valid()
    {
      hide Inv;
      InvEvict(World(), j);
      if j in jobs && jobs[j].state == Finished {
        jobs := jobs - {j};
      }
    }
  }

  /** A reconciliation that stopped early ends as it was then. */
  lemma {:induction false} StoppedEarly(w: World, ids: seq<CircleId>, stop: nat, env: Surroundings)
    requires stop <= |ids| && !Reconcile(w, ids[..stop], env).1
    ensures Reconcile(w, ids, env) == Reconcile(w, ids[..stop], env)
    decreases |ids|
  {
    hide ReconcileCircle, NeedsReconciling, SchedulingReturns;
    if stop == |ids| {
      assert ids[..stop] == ids;
    } else {
      assert ids[..|ids| - 1][..stop] == ids[..stop];
      StoppedEarly(w, ids[..|ids| - 1], stop, env);
    }
  }

  lemma EligibleIsStored(w: World, data: JobData, weather: Weather)
    requires Ineligible(w, data, weather).None?
    ensures data.circleId in w.store
  {
  }

  lemma SettleBeforeConfirmed(c: Circle, user: UserId, reach: Reach)
    requires reach.Rank() < Confirmed.Rank()
    ensures Settle(c, user, reach) == c && reach != Notified
  {
  }
}
