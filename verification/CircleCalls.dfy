/** When each lifecycle call of the backend goes through, what it then stores, and where a stored circle comes from. */
module CircleCalls {
  import opened Options
  import opened Calendar
  import opened PayoutDates
  import opened Circles
  import opened CircleInvariant
  import opened CircleProgress
  import opened CircleSchedules
  import opened CircleTheorems
  import opened CircleReconciliation

  // --- Creating ---

  /** The record has the terms of the request. */
  predicate HasTerms(c: Circle, dto: NewCircle) {
    && c.chain == dto.chain && c.creatorId == dto.creatorId && c.amount == dto.amount && c.frequency == dto.frequency
    && c.gracePeriodDays == dto.gracePeriodDays && c.maxMembers == dto.maxMembers
  }

  /** Nothing has been started: the dates are those of the request, the first payout one period after the start. */
  predicate Unstarted(c: Circle, dto: NewCircle) {
    && c.startDate == dto.startDate
    && c.nextPayoutDate == dto.startDate + PeriodLength(dto.startDate, dto.frequency)
    && c.currentRound == 0 && c.totalRounds == dto.maxMembers
  }

  predicate Creatable(w: World, id: CircleId, dto: NewCircle, valid: bool) {
    id !in w.store && 2 <= dto.maxMembers <= 50 && valid
  }

  /** A circle is created exactly if the id is new, the size allowed and the request valid, with the request's terms. */
  lemma CreatesExactlyWhen(w: World, id: CircleId, dto: NewCircle, valid: bool)
    ensures
      var (w', reply) := CreateCircle(w, id, dto, valid);
      && (reply == Ok <==> Creatable(w, id, dto, valid))
      && (if Creatable(w, id, dto, valid)
          then && id in w'.store && w' == w.(store := w.store[id := w'.store[id]])
               && HasTerms(w'.store[id], dto) && Unstarted(w'.store[id], dto)
               && w'.store[id].members == [Member(dto.creatorId, 1, false, ActiveMember)]
               && w'.store[id].status == PENDING && w'.store[id].contractAddress == None
          else w' == w)
  {
    hide AddFrequencyPeriod, PeriodLength;
    StepLength(dto.startDate, dto.frequency, 0);
  }

  // --- Viewing ---

  /** What is cached is shown as it is; else the stored circle is shown, and cached. */
  lemma ViewsExactly(w: World, id: CircleId)
    ensures
      var (w', found) := GetCircleById(w, id);
      && (id in w.cache ==> w' == w && found == Some(w.cache[id]))
      && (id !in w.cache && id in w.store ==>
            w' == w.(cache := w.cache[id := w.store[id]]) && found == Some(w.store[id]))
      && (id !in w.cache && id !in w.store ==> w' == w && found == None)
  {
  }

  /** The action may drop this circle from the cache. */
  predicate MayDrop(a: Action, id: CircleId) {
    match a
    case Activate(x, _, _, _) => x == id
    case Join(x, _, _) => x == id
    case Start(x, _, _, _) => x == id
    case CacheExpires(x) => x == id
    case _ => false
  }

  lemma ReconcileKeepsCache(w: World, ids: seq<CircleId>, env: Surroundings)
    requires Inv(w)
    ensures Reconcile(w, ids, env).0.cache == w.cache
  {
    hide Inv, Reconcile, Reconciled;
    PassIs(w, ids, env);
  }

  lemma CachedStays(w: World, a: Action, id: CircleId)
    requires Inv(w) && id in w.cache && !MayDrop(a, id)
    ensures id in Step(w, a).cache && Step(w, a).cache[id] == w.cache[id]
  {
    hide Inv, Reconcile, HandleCircleActivated, Process, ActivateCircle, StartCircle, JoinCircle, CreateCircle;
    match a
    case Activate(x, user, accountOk, deployed) => ActivateIs(w, x, user, accountOk, deployed);
    case Join(x, user, allowed) => JoinIs(w, x, user, allowed);
    case Start(x, user, onChainOk, today) => StartIs(w, x, user, onChainOk, today);
    case Create(x, dto, valid) => CreatesExactlyWhen(w, x, dto, valid);
    case Announce(x, announced, env) => AnnounceKeepsCache(w, x, announced, env);
    case ReconcileAll(ids, env) => ReconcileKeepsCache(w, ids, env);
    case RunJob(j, weather) => AttemptKeepsCache(w, j, weather);
    case _ =>
  }

  lemma AnnounceKeepsCache(w: World, id: CircleId, announced: Option<string>, env: Surroundings)
    ensures HandleCircleActivated(w, id, announced, env).cache == w.cache
  {
    hide ScheduleRounds, SchedulingReturns, RoundsReached, SortByPosition, ActiveMembers, PayoutDate;
  }

  lemma AttemptKeepsCache(w: World, j: JobId, weather: Weather)
    ensures Process(w, j, weather).cache == w.cache
  {
    hide Ineligible, Settle, AfterAttempt, Records, Sends;
  }

  lemma {:induction false} CachedThroughout(w: World, id: CircleId, more: seq<Action>)
    requires Inv(w) && id in w.cache && forall i :: 0 <= i < |more| ==> !MayDrop(more[i], id)
    ensures id in Run(w, more).cache && Run(w, more).cache[id] == w.cache[id]
    decreases |more|
  {
    hide Inv, Step, MayDrop;
    if more != [] {
      CachedStays(w, more[0], id);
      InvStep(w, more[0]);
      CachedThroughout(Step(w, more[0]), id, more[1..]);
    }
  }

  /**
    A second view shows what the first did, whatever was paid in between, unless the circle was activated, joined or
    started or the entry expired.
   */
  lemma ViewsAreRepeatable(firstRound: nat, actions: seq<Action>, id: CircleId, more: seq<Action>)
    requires id in Reached(firstRound, actions).store
    requires forall i :: 0 <= i < |more| ==> !MayDrop(more[i], id)
    ensures
      var (seen, found) := GetCircleById(Reached(firstRound, actions), id);
      found.Some? && GetCircleById(Run(seen, more), id).1 == found
  {
    hide Inv, Run, MayDrop;
    ReachableInv(firstRound, actions);
    var seen := GetCircleById(Reached(firstRound, actions), id).0;
    InvView(Reached(firstRound, actions), id);
    CachedThroughout(seen, id, more);
  }

  // --- Activating, joining and starting ---

  predicate Activatable(w: World, id: CircleId, user: UserId, accountOk: bool, deployed: Option<string>) {
    && id in w.store && w.store[id].creatorId == user && w.store[id].status == PENDING
    && accountOk && deployed.Some?
  }

  predicate Joinable(w: World, id: CircleId, user: UserId, allowed: bool) {
    && id in w.store && allowed && w.store[id].status == RECRUITING
    && |w.store[id].members| < w.store[id].maxMembers
    && forall i :: 0 <= i < |w.store[id].members| ==> w.store[id].members[i].userId != user
  }

  predicate Startable(w: World, id: CircleId, user: UserId, onChainOk: bool) {
    && id in w.store && w.store[id].creatorId == user && w.store[id].status == RECRUITING
    && |w.store[id].members| >= 2 && onChainOk
  }

  function ActivatedAt(c: Circle, deployed: Option<string>): Circle {
    c.(contractAddress := deployed, status := RECRUITING)
  }

  function Joined(c: Circle, user: UserId): Circle {
    c.(members := c.members + [Member(user, |c.members| + 1, false, ActiveMember)])
  }

  function StartedOn(c: Circle, firstRound: nat, today: Day): Circle {
    c.(status := ACTIVE, currentRound := firstRound, startDate := today, totalRounds := |c.members|)
  }

  /** The circle is stored anew and no longer cached. */
  predicate Replaced(w: World, w': World, id: CircleId, c': Circle, log: seq<Event>) {
    w' == w.(store := w.store[id := c'], cache := w.cache - {id}, log := w.log + log)
  }

  /** Only that the circle may now be cached as it is stored. */
  predicate OnlyViewed(w: World, w': World, id: CircleId) { w' == GetCircleById(w, id).0 }

  /**
    From every reachable state activation goes through exactly if the creator asks for a stored PENDING circle and the
    contract was deployed, although what it looks at may be the cached circle.
   */
  lemma ActivatesExactlyWhen(
      firstRound: nat, actions: seq<Action>, id: CircleId, user: UserId, accountOk: bool, deployed: Option<string>)
    ensures
      var w := Reached(firstRound, actions);
      var (w', reply) := ActivateCircle(w, id, user, accountOk, deployed);
      && (reply == Ok <==> Activatable(w, id, user, accountOk, deployed))
      && (if reply == Ok
          then id in w.store && Replaced(w, w', id, ActivatedAt(w.store[id], deployed), [Activated(id)])
          else OnlyViewed(w, w', id))
  {
    hide Inv, Run, ActivateCircle, Replaced, OnlyViewed;
    ReachableInv(firstRound, actions);
    ActivateIs(Reached(firstRound, actions), id, user, accountOk, deployed);
  }

  lemma ActivateIs(w: World, id: CircleId, user: UserId, accountOk: bool, deployed: Option<string>)
    requires Inv(w)
    ensures
      var (w', reply) := ActivateCircle(w, id, user, accountOk, deployed);
      && (reply == Ok <==> Activatable(w, id, user, accountOk, deployed))
      && (if reply == Ok
          then id in w.store && Replaced(w, w', id, ActivatedAt(w.store[id], deployed), [Activated(id)])
          else OnlyViewed(w, w', id))
  {
    hide Inv, CircleInv, SameRoster;
    InvView(w, id);
    var seen := GetCircleById(w, id).0;
    assert seen.cache - {id} == w.cache - {id};
  }

  /** Joining goes through exactly for a new member of a RECRUITING circle that is not full, at the next position. */
  lemma JoinsExactlyWhen(firstRound: nat, actions: seq<Action>, id: CircleId, user: UserId, allowed: bool)
    ensures
      var w := Reached(firstRound, actions);
      var (w', reply) := JoinCircle(w, id, user, allowed);
      && (reply == Ok <==> Joinable(w, id, user, allowed))
      && (if reply == Ok
          then id in w.store && Replaced(w, w', id, Joined(w.store[id], user), [])
          else w' == w)
  {
    hide Inv, Run, JoinCircle, Replaced, Joined;
    ReachableInv(firstRound, actions);
    JoinIs(Reached(firstRound, actions), id, user, allowed);
  }

  lemma JoinIs(w: World, id: CircleId, user: UserId, allowed: bool)
    requires Inv(w)
    ensures
      var (w', reply) := JoinCircle(w, id, user, allowed);
      && (reply == Ok <==> Joinable(w, id, user, allowed))
      && (if reply == Ok
          then id in w.store && Replaced(w, w', id, Joined(w.store[id], user), [])
          else w' == w)
  {
    hide Inv;
    assert w.log + [] == w.log;
    if id in w.store {
      StoredCircle(w, id);
      RosterIsSorted(w.store[id]);
      FindMemberIs(w.store[id].members, user);
    }
  }

  /**
    From every reachable state a start goes through exactly if the creator asks for a stored RECRUITING circle of two
    members or more and the contract was started. The check for a contract address never refuses.
   */
  lemma StartsExactlyWhen(
      firstRound: nat, actions: seq<Action>, id: CircleId, user: UserId, onChainOk: bool, today: Day)
    ensures
      var w := Reached(firstRound, actions);
      var (w', reply) := StartCircle(w, id, user, onChainOk, today);
      && (reply == Ok <==> Startable(w, id, user, onChainOk))
      && (if reply == Ok
          then id in w.store && Replaced(w, w', id, StartedOn(w.store[id], firstRound, today), [Started(id)])
          else OnlyViewed(w, w', id))
  {
    hide Inv, Run, StartCircle, Replaced, OnlyViewed, StartedOn;
    ReachedInv(firstRound, actions, id);
    StartIs(Reached(firstRound, actions), id, user, onChainOk, today);
  }

  lemma StartIs(w: World, id: CircleId, user: UserId, onChainOk: bool, today: Day)
    requires Inv(w)
    ensures
      var (w', reply) := StartCircle(w, id, user, onChainOk, today);
      && (reply == Ok <==> Startable(w, id, user, onChainOk))
      && (if reply == Ok
          then id in w.store && Replaced(w, w', id, StartedOn(w.store[id], w.firstRound, today), [Started(id)])
          else OnlyViewed(w, w', id))
  {
    hide Inv, CircleInv, ActiveMembers, SameRoster;
    InvView(w, id);
    var seen := GetCircleById(w, id).0;
    assert seen.cache - {id} == w.cache - {id};
    if id in w.store {
      CachedMembersCount(w, id, GetCircleById(w, id).1.value);
      RecruitingHasContract(w, id);
    }
  }

  lemma RecruitingHasContract(w: World, id: CircleId)
    requires Inv(w) && id in w.store
    ensures w.store[id].status == RECRUITING ==> w.store[id].contractAddress.Some?
  {
    hide JobsOk, CacheOk, RosterOk, PaymentsOk;
    assert CircleInv(w, id);
  }

  /**
    The announcement of a start schedules every stored ACTIVE circle, and does nothing else. The check for a contract
    address never stops it.
   */
  lemma AnnouncesExactlyWhen(
      firstRound: nat, actions: seq<Action>, id: CircleId, announced: Option<string>, env: Surroundings)
    ensures
      var w := Reached(firstRound, actions);
      var w' := HandleCircleActivated(w, id, announced, env);
      if id in w.store && w.store[id].status == ACTIVE
      then OnlyCircle(w, w', id) && Reconciled(w, w', id, true, env)
      else w' == w
  {
    hide Inv, Run, ScheduleCirclePayouts, Reconciled;
    ReachableInv(firstRound, actions);
    var w := Reached(firstRound, actions);
    if id in w.store && w.store[id].status == ACTIVE {
      StoredCircle(w, id);
      ScheduledCircle(w, id, env);
    }
  }

  // --- Guards that no run reaches ---

  /** In any world, reachable or not, a start needs a contract address. */
  lemma StartNeedsContract(w: World, id: CircleId, user: UserId, onChainOk: bool, today: Day)
    ensures
      var found := GetCircleById(w, id).1;
      StartCircle(w, id, user, onChainOk, today).1 == Ok ==> found.Some? && found.value.contractAddress.Some?
  {
  }

  /** And so does an announcement, which may bring it; and scheduling needs members. */
  lemma AnnounceNeedsContract(w: World, id: CircleId, announced: Option<string>, env: Surroundings)
    ensures
      HandleCircleActivated(w, id, announced, env) != w ==>
        && id in w.store && (w.store[id].contractAddress.Some? || announced.Some?)
        && ActiveMembers(w.store[id].members) != []
    ensures
      id in w.store && w.store[id].status == ACTIVE && announced.Some? ==>
        HandleCircleActivated(w, id, announced, env) == ScheduleCirclePayouts(w, id, env)
  {
    hide ScheduleRounds, RoundsReached, PayoutDate;
  }

  // --- Where a stored circle comes from ---

  /** The call that created the circle. */
  ghost predicate CreatedBy(a: Action, id: CircleId, c: Circle) {
    && a.Create? && a.id == id && a.valid && 2 <= a.dto.maxMembers <= 50 && HasTerms(c, a.dto)
    && (!HasStarted(c) ==> Unstarted(c, a.dto))
    && c.members != [] && c.members[0].userId == a.dto.creatorId
  }

  /** Every part of the record was put there by a call that could. */
  ghost predicate ComesFrom(actions: seq<Action>, id: CircleId, c: Circle) {
    && (exists k :: 0 <= k < |actions| && CreatedBy(actions[k], id, c))
    && (c.status != PENDING ==> Activate(id, c.creatorId, true, c.contractAddress) in actions)
    && (HasStarted(c) ==> Start(id, c.creatorId, true, c.startDate) in actions)
    && (forall i :: 1 <= i < |c.members| ==> Join(id, c.members[i].userId, true) in actions)
  }

  /** What one step may do to a stored circle. */
  ghost predicate Grows(a: Action, id: CircleId, c: Circle, c': Circle) {
    && c'.chain == c.chain && c'.creatorId == c.creatorId && c'.amount == c.amount && c'.frequency == c.frequency
    && c'.gracePeriodDays == c.gracePeriodDays && c'.maxMembers == c.maxMembers
    && (if c.status == PENDING && c'.status != PENDING then a == Activate(id, c.creatorId, true, c'.contractAddress)
        else c'.contractAddress == c.contractAddress && (c'.status == PENDING <==> c.status == PENDING))
    && (if !HasStarted(c) && HasStarted(c') then a == Start(id, c.creatorId, true, c'.startDate)
        else c'.startDate == c.startDate && (HasStarted(c') <==> HasStarted(c)))
    && (!HasStarted(c') ==>
          c'.nextPayoutDate == c.nextPayoutDate && c'.currentRound == c.currentRound && c'.totalRounds == c.totalRounds)
    && |c.members| <= |c'.members|
    && (forall i :: 0 <= i < |c.members| ==> c'.members[i].userId == c.members[i].userId)
    && (forall i :: |c.members| <= i < |c'.members| ==> a == Join(id, c'.members[i].userId, true))
  }

  lemma StepGrows(w: World, a: Action, id: CircleId)
    requires Inv(w) && id in w.store
    ensures id in Step(w, a).store && Grows(a, id, w.store[id], Step(w, a).store[id])
  {
    hide Inv, Reconcile, HandleCircleActivated, Process, ActivateCircle, StartCircle, JoinCircle, CreateCircle;
    match a
    case Activate(x, user, accountOk, deployed) => ActivateIs(w, x, user, accountOk, deployed);
    case Join(x, user, allowed) => JoinIs(w, x, user, allowed);
    case Start(x, user, onChainOk, today) => StartIs(w, x, user, onChainOk, today);
    case Create(x, dto, valid) => CreatesExactlyWhen(w, x, dto, valid);
    case View(x) => InvView(w, x);
    case Announce(_, _, _) => QuietGrows(w, a, id);
    case ReconcileAll(_, _) => QuietGrows(w, a, id);
    case RunJob(_, _) => QuietGrows(w, a, id);
    case _ =>
  }

  /** Scheduling and payout attempts leave circles that have not started, and the terms and dates of those that have. */
  lemma QuietGrows(w: World, a: Action, id: CircleId)
    requires Inv(w) && id in w.store && (a.Announce? || a.ReconcileAll? || a.RunJob?)
    ensures id in Step(w, a).store && Grows(a, id, w.store[id], Step(w, a).store[id])
  {
    hide Inv, Step;
    if HasStarted(w.store[id]) {
      StartedCircleStep(w, a, id);
    } else {
      UnstartedStays(w, a, id);
    }
  }

  lemma UnstartedStays(w: World, a: Action, id: CircleId)
    requires Inv(w) && id in w.store && !HasStarted(w.store[id]) && (a.Announce? || a.ReconcileAll? || a.RunJob?)
    ensures id in Step(w, a).store && Step(w, a).store[id] == w.store[id]
  {
    hide Inv, Reconcile, ScheduleCirclePayouts, JobsFilled, Breaks, PayoutDate, Ineligible, Settle, Visited;
    match a
    case ReconcileAll(ids, env) => PassIs(w, ids, env);
    case RunJob(j, weather) => if j in w.jobs { JobNames(w, j); JobsHaveStarted(w, j); }
    case Announce(x, announced, env) =>
      if x in w.store && w.store[x].status == ACTIVE { ScheduledCircle(w, x, env); }
  }

  lemma JobsHaveStarted(w: World, j: JobId)
    requires Inv(w) && j in w.jobs
    ensures j.circleId in w.store && HasStarted(w.store[j.circleId])
  {
    JobDataIs(w, j);
  }

  lemma StillComesFrom(actions: seq<Action>, a: Action, id: CircleId, c: Circle, c': Circle)
    requires ComesFrom(actions, id, c) && Grows(a, id, c, c')
    ensures ComesFrom(actions + [a], id, c')
  {
    hide PeriodLength;
    var all := actions + [a];
    var k :| 0 <= k < |actions| && CreatedBy(actions[k], id, c);
    assert all[k] == actions[k] && CreatedBy(all[k], id, c');
    assert all[|actions|] == a;
    forall i | 1 <= i < |c'.members| ensures Join(id, c'.members[i].userId, true) in all {
      if i < |c.members| { assert Join(id, c.members[i].userId, true) in actions; }
    }
  }

  lemma NewComesFrom(actions: seq<Action>, w: World, a: Action, id: CircleId)
    requires id !in w.store && id in Step(w, a).store && Inv(w)
    ensures ComesFrom(actions + [a], id, Step(w, a).store[id])
  {
    hide Inv, PeriodLength;
    OnlyCreateAdds(w, a, id);
    hide CreateCircle;
    CreatesExactlyWhen(w, id, a.dto, a.valid);
    assert (actions + [a])[|actions|] == a && CreatedBy(a, id, Step(w, a).store[id]);
  }

  lemma OnlyCreateAdds(w: World, a: Action, id: CircleId)
    requires Inv(w) && id !in w.store && id in Step(w, a).store
    ensures a.Create? && a.id == id
  {
    hide Inv, Reconcile, ScheduleCirclePayouts, PassOk, Ineligible, Settle, ActivateCircle, StartCircle, JoinCircle;
    match a
    case Activate(x, user, accountOk, deployed) => ActivateIs(w, x, user, accountOk, deployed);
    case Join(x, user, allowed) => JoinIs(w, x, user, allowed);
    case Start(x, user, onChainOk, today) => StartIs(w, x, user, onChainOk, today);
    case ReconcileAll(ids, env) => ReconcileOnlyReschedules(w, ids, env);
    case RunJob(j, weather) => if j in w.jobs { JobNames(w, j); }
    case _ =>
  }

  /**
    Over any run, a stored circle has the terms of a valid request to create it, its members joined it, and its contract
    address and start date are those with which its creator activated and started it.
   */
  lemma {:induction false} RecordsComeFromCalls(firstRound: nat, actions: seq<Action>, id: CircleId)
    requires id in Reached(firstRound, actions).store
    ensures ComesFrom(actions, id, Reached(firstRound, actions).store[id])
    decreases |actions|
  {
    hide Inv, Step, ComesFrom, Grows;
    var n := |actions| - 1;
    if n >= 0 {
      hide Run;
      var front, a := actions[..n], actions[n];
      var w := Reached(firstRound, front);
      assert actions == front + [a];
      RunAppend(StartWith(firstRound), front, a);
      ReachableInv(firstRound, front);
      if id in w.store {
        RecordsComeFromCalls(firstRound, front, id);
        StepGrows(w, a, id);
        StillComesFrom(front, a, id, w.store[id], Step(w, a).store[id]);
      } else {
        NewComesFrom(front, w, a, id);
      }
    }
  }
}
