/** What every reachable state of the backend satisfies, circle by circle. */
module CircleInvariant {
  import opened Counting
  import opened Options
  import opened Calendar
  import opened PayoutDates
  import opened Circles

  // --- Reading the log ---

  /** The transfers made for one circle, oldest first. */
  ghost function Payouts(log: seq<Event>, id: CircleId): (ps: seq<Event>)
    ensures forall i :: 0 <= i < |ps| ==> ps[i].Sent?
  {
    if log == [] then []
    else
      var last := log[|log| - 1];
      Payouts(log[..|log| - 1], id) + if last.Sent? && last.circleId == id then [last] else []
  }

  ghost function Activations(log: seq<Event>, id: CircleId): nat { multiset(log)[Activated(id)] }

  ghost function Starts(log: seq<Event>, id: CircleId): nat { multiset(log)[Started(id)] }

  lemma Logged(log: seq<Event>, e: Event, id: CircleId)
    ensures Payouts(log + [e], id) == Payouts(log, id) + if e.Sent? && e.circleId == id then [e] else []
    ensures Activations(log + [e], id) == Activations(log, id) + if e == Activated(id) then 1 else 0
    ensures Starts(log + [e], id) == Starts(log, id) + if e == Started(id) then 1 else 0
  {
    assert (log + [e])[..|log|] == log;
  }

  /** The attempt got as far as marking the recipient paid. */
  predicate Marks(e: Event) { e.Sent? && e.reach.Rank() >= Marked.Rank() }

  /** The rounds whose recipients were marked paid, in that order. */
  ghost function MarkedRounds(ps: seq<Event>): seq<nat> {
    if ps == [] then []
    else
      var last := ps[|ps| - 1];
      MarkedRounds(ps[..|ps| - 1]) + if Marks(last) then [last.round] else []
  }

  /** Attempts that marked the recipient but did not advance the round. */
  ghost function Stalled(ps: seq<Event>): nat {
    if ps == [] then 0
    else
      var last := ps[|ps| - 1];
      Stalled(ps[..|ps| - 1]) + if last.Sent? && last.reach == Marked then 1 else 0
  }

  /** Payouts made by the job of one round. */
  ghost function RoundPayouts(ps: seq<Event>, round: nat): nat {
    if ps == [] then 0
    else
      var last := ps[|ps| - 1];
      RoundPayouts(ps[..|ps| - 1], round) + if last.Sent? && last.round == round then 1 else 0
  }

  /** Those whose attempt did not get to marking the recipient. */
  ghost function LostPayouts(ps: seq<Event>, round: nat): nat {
    if ps == [] then 0
    else
      var last := ps[|ps| - 1];
      LostPayouts(ps[..|ps| - 1], round) + if last.Sent? && last.round == round && !Marks(last) then 1 else 0
  }

  lemma PaidOut(ps: seq<Event>, e: Event)
    requires e.Sent?
    ensures MarkedRounds(ps + [e]) == MarkedRounds(ps) + if Marks(e) then [e.round] else []
    ensures Stalled(ps + [e]) == Stalled(ps) + if e.reach == Marked then 1 else 0
    ensures forall r :: RoundPayouts(ps + [e], r) == RoundPayouts(ps, r) + if e.round == r then 1 else 0
    ensures forall r :: LostPayouts(ps + [e], r) == LostPayouts(ps, r) + if e.round == r && !Marks(e) then 1 else 0
  {
    assert (ps + [e])[..|ps|] == ps;
  }

  // --- One circle ---

  /** Positions are 1..n in joining order, user ids are distinct, and the circle is not overfull. */
  ghost predicate RosterOk(c: Circle) {
    && 2 <= c.maxMembers <= 50
    && 1 <= |c.members| <= c.maxMembers
    && (forall i :: 0 <= i < |c.members| ==> c.members[i].position == i + 1 && c.members[i].status == ActiveMember)
    && (forall i, j :: 0 <= i < j < |c.members| ==> c.members[i].userId != c.members[j].userId)
    && c.members[0].userId == c.creatorId
  }

  predicate HasStarted(c: Circle) { c.status == ACTIVE || c.status == COMPLETED }

  ghost predicate LifecycleOk(c: Circle, firstRound: nat, activations: nat, starts: nat) {
    && c.status != CANCELLED
    && (c.status == PENDING ==> c.contractAddress.None? && activations == 0)
    && (c.status != PENDING ==> c.contractAddress.Some? && activations == 1)
    && (HasStarted(c) ==>
          starts == 1 && |c.members| >= 2 && c.currentRound >= firstRound && c.totalRounds == |c.members|)
    && (!HasStarted(c) ==> starts == 0)
  }

  /** The marked rounds are distinct, lie after the first round, and are exactly the positions of the paid members. */
  ghost predicate MarksOk(firstRound: nat, members: seq<Member>, marked: seq<nat>) {
    && Distinct(marked)
    && (forall k :: 0 <= k < |marked| ==>
          firstRound < marked[k] <= |members| && members[marked[k] - 1].hasReceivedPayout)
    && (forall i :: 0 <= i < |members| && members[i].hasReceivedPayout ==> i + 1 in marked)
  }

  /** Every payout of a round either marked its member or was lost; a member is marked once. */
  ghost predicate RoundPayoutsOk(members: seq<Member>, ps: seq<Event>) {
    forall i :: 0 <= i < |members| ==>
      RoundPayouts(ps, i + 1) == LostPayouts(ps, i + 1) + if members[i].hasReceivedPayout then 1 else 0
  }

  /** Without stalled attempts the k-th payout is for a round later than the first k. */
  ghost predicate ClimbOk(firstRound: nat, marked: seq<nat>, stalled: nat) {
    stalled == 0 ==> forall k :: 0 <= k < |marked| ==> marked[k] > firstRound + k
  }

  /** Who the round's payout should go to, if the backend has a say. */
  function RoundsPayee(c: Circle, round: nat): Payee
    requires 1 <= round <= |c.members|
  {
    match c.chain
    case NEAR => Direct(c.members[round - 1].userId, PayoutAmount(c))
    case BASE => ByContract
  }

  /** On NEAR every payout went to the member at the round's position, for one contribution per member. */
  ghost predicate PayeesOk(firstRound: nat, c: Circle, ps: seq<Event>) {
    forall i :: 0 <= i < |ps| ==>
      && ps[i].Sent?
      && firstRound < ps[i].round <= |c.members|
      && ps[i].payee == RoundsPayee(c, ps[i].round)
  }

  /** Once everyone is paid the circle is complete exactly if the last attempt got to the completion check. */
  ghost predicate CompletionOk(c: Circle, ps: seq<Event>) {
    && (c.status == COMPLETED ==> !SomeoneUnpaid(c.members))
    && (HasStarted(c) && !SomeoneUnpaid(c.members) ==>
          ps != [] && (c.status == COMPLETED <==> GotToCheck(ps[|ps| - 1])))
  }

  predicate GotToCheck(e: Event) { e.Sent? && e.reach.Rank() >= Checked.Rank() }

  ghost predicate PaymentsOk(firstRound: nat, c: Circle, ps: seq<Event>) {
    && (!HasStarted(c) ==> ps == [])
    && (HasStarted(c) ==> c.currentRound + Stalled(ps) == firstRound + |MarkedRounds(ps)|)
    && MarksOk(firstRound, c.members, MarkedRounds(ps))
    && RoundPayoutsOk(c.members, ps)
    && ClimbOk(firstRound, MarkedRounds(ps), Stalled(ps))
    && PayeesOk(firstRound, c, ps)
    && CompletionOk(c, ps)
  }

  ghost predicate JobOk(id: CircleId, c: Circle, round: nat, data: JobData) {
    && HasStarted(c)
    && 1 <= round <= |c.members|
    && data == JobData(id, round, c.members[round - 1].userId, c.chain, PayoutAmount(c),
                       PayoutDate(c.startDate, c.frequency, round))
  }

  ghost predicate JobsOk(jobs: map<JobId, Job>, id: CircleId, c: Circle) {
    forall r :: JobId(id, r) in jobs ==> JobOk(id, c, r, jobs[JobId(id, r)].data)
  }

  ghost predicate SameRoster(a: seq<Member>, b: seq<Member>) {
    && |a| == |b|
    && forall i :: 0 <= i < |a| ==> a[i] == b[i].(hasReceivedPayout := a[i].hasReceivedPayout)
  }

  /** A cached circle differs from the stored one only in payout progress. */
  ghost predicate Agrees(cached: Circle, stored: Circle) {
    && SameRoster(cached.members, stored.members)
    && (cached.status == stored.status || (cached.status == ACTIVE && stored.status == COMPLETED))
    && cached == stored.(members := cached.members, status := cached.status, currentRound := cached.currentRound,
                         nextPayoutDate := cached.nextPayoutDate)
  }

  ghost predicate CacheOk(cache: map<CircleId, Circle>, id: CircleId, c: Circle) {
    id in cache ==> Agrees(cache[id], c)
  }

  ghost predicate CircleOk(firstRound: nat, c: Circle, ps: seq<Event>, activations: nat, starts: nat) {
    && RosterOk(c)
    && LifecycleOk(c, firstRound, activations, starts)
    && PaymentsOk(firstRound, c, ps)
  }

  // --- The world ---

  ghost predicate Unknown(log: seq<Event>, id: CircleId) {
    Payouts(log, id) == [] && Activations(log, id) == 0 && Starts(log, id) == 0
  }

  ghost predicate CircleInv(w: World, id: CircleId)
    requires id in w.store
  {
    && CircleOk(w.firstRound, w.store[id], Payouts(w.log, id), Activations(w.log, id), Starts(w.log, id))
    && JobsOk(w.jobs, id, w.store[id])
    && CacheOk(w.cache, id, w.store[id])
  }

  ghost predicate Inv(w: World) {
    && (forall id :: id in w.store ==> CircleInv(w, id))
    && (forall id :: id !in w.store ==> Unknown(w.log, id))
    && (forall j :: j in w.jobs ==> j.circleId in w.store)
    && w.cache.Keys <= w.store.Keys
  }

  lemma StoredCircle(w: World, id: CircleId)
    requires Inv(w) && id in w.store
    ensures RosterOk(w.store[id]) && JobsOk(w.jobs, id, w.store[id])
    ensures HasStarted(w.store[id]) ==>
              && w.store[id].totalRounds == |w.store[id].members|
              && w.store[id].contractAddress.Some?
              && w.firstRound <= w.store[id].currentRound
    ensures CompletionOk(w.store[id], Payouts(w.log, id)) && PayeesOk(w.firstRound, w.store[id], Payouts(w.log, id))
  {
    assert CircleInv(w, id);
  }

  /** A step that touches one circle only needs to restore that circle's part. */
  lemma InvFrame(w: World, w': World, id: CircleId)
    requires Inv(w) && w'.firstRound == w.firstRound
    requires id in w'.store && w'.store == w.store[id := w'.store[id]]
    requires forall x :: x != id ==> (x in w'.cache <==> x in w.cache) && (x in w.cache ==> w'.cache[x] == w.cache[x])
    requires forall j: JobId :: j.circleId != id ==>
          (j in w'.jobs <==> j in w.jobs) && (j in w.jobs ==> w'.jobs[j] == w.jobs[j])
    requires forall x :: x != id ==>
               && Payouts(w'.log, x) == Payouts(w.log, x)
               && Activations(w'.log, x) == Activations(w.log, x)
               && Starts(w'.log, x) == Starts(w.log, x)
    requires CircleInv(w', id)
    ensures Inv(w')
  {
    hide CircleOk, Agrees, JobOk, Payouts, Activations, Starts;
    forall x | x in w'.store && x != id ensures CircleInv(w', x) {
      assert CircleInv(w, x);
    }
  }

  /** Nothing was logged and only this circle's part of the store, cache and queue may have changed. */
  lemma InvQuiet(w: World, w': World, id: CircleId)
    requires Inv(w) && w'.firstRound == w.firstRound && w'.log == w.log
    requires id in w'.store && w'.store == w.store[id := w'.store[id]]
    requires forall x :: x != id ==> (x in w'.cache <==> x in w.cache) && (x in w.cache ==> w'.cache[x] == w.cache[x])
    requires forall j: JobId :: j.circleId != id ==>
          (j in w'.jobs <==> j in w.jobs) && (j in w.jobs ==> w'.jobs[j] == w.jobs[j])
    requires CircleInv(w', id)
    ensures Inv(w')
  {
    hide CircleInv, Payouts, Activations, Starts;
    InvFrame(w, w', id);
  }

  // --- Members ---

  lemma {:induction false} AllActive(members: seq<Member>)
    requires forall i :: 0 <= i < |members| ==> members[i].status == ActiveMember
    ensures ActiveMembers(members) == members
  {
    if members != [] {
      AllActive(members[1..]);
      assert members == [members[0]] + members[1..];
    }
  }

  lemma {:induction false} AlreadySorted(members: seq<Member>)
    requires forall i, j :: 0 <= i < j < |members| ==> members[i].position <= members[j].position
    ensures SortByPosition(members) == members
  {
    if members != [] {
      AlreadySorted(members[1..]);
      assert members == [members[0]] + members[1..];
    }
  }

  /** In a circle of the backend the scheduler's filter and sort change nothing: round r is for position r. */
  lemma RosterIsSorted(c: Circle)
    requires RosterOk(c)
    ensures ActiveMembers(c.members) == c.members
    ensures SortByPosition(ActiveMembers(c.members)) == c.members
  {
    AllActive(c.members);
    AlreadySorted(c.members);
  }

  lemma {:induction false} FindMemberIs(members: seq<Member>, user: UserId)
    requires forall i :: 0 <= i < |members| ==> members[i].status == ActiveMember
    ensures
      match FindMember(members, user)
      case None => forall i :: 0 <= i < |members| ==> members[i].userId != user
      case Some(m) => exists i :: 0 <= i < |members| && members[i] == m && m.userId == user
  {
    if members != [] {
      FindMemberIs(members[1..], user);
    }
  }

  // --- Lifecycle steps ---

  lemma FreshCircleOk(firstRound: nat, dto: NewCircle, next: Day)
    requires 2 <= dto.maxMembers <= 50
    ensures
      var c := Circle(
        dto.chain, dto.creatorId, dto.amount, dto.frequency, dto.gracePeriodDays, dto.maxMembers,
        [Member(dto.creatorId, 1, false, ActiveMember)],
        PENDING, 0, dto.maxMembers, dto.startDate, next, None);
      CircleOk(firstRound, c, [], 0, 0)
  {
  }

  lemma InvCreate(w: World, id: CircleId, dto: NewCircle, valid: bool)
    requires Inv(w)
    ensures Inv(CreateCircle(w, id, dto, valid).0)
  {
    hide CircleOk, Agrees, JobOk, CalculateNextPayoutDate, Payouts, Activations, Starts;
    var w' := CreateCircle(w, id, dto, valid).0;
    if id !in w.store && id in w'.store {
      assert Unknown(w.log, id);
      FreshCircleOk(w.firstRound, dto, CalculateNextPayoutDate(dto.startDate, dto.frequency));
      InvQuiet(w, w', id);
    }
  }

  lemma SelfAgrees(c: Circle)
    ensures Agrees(c, c)
  {
  }

  lemma InvView(w: World, id: CircleId)
    requires Inv(w)
    ensures Inv(GetCircleById(w, id).0)
    ensures GetCircleById(w, id).0 == w.(cache := GetCircleById(w, id).0.cache)
    ensures GetCircleById(w, id).1.Some? <==> id in w.store
    ensures id in w.store ==> Agrees(GetCircleById(w, id).1.value, w.store[id]) && CircleInv(w, id)
  {
    hide CircleOk, JobsOk, Agrees, Payouts, Activations, Starts;
    if id in w.store {
      assert CircleInv(w, id);
      SelfAgrees(w.store[id]);
      if id !in w.cache {
        InvQuiet(w, w.(cache := w.cache[id := w.store[id]]), id);
      }
    }
  }

  lemma InvCacheDrop(w: World, id: CircleId)
    requires Inv(w)
    ensures Inv(w.(cache := w.cache - {id}))
  {
    hide CircleOk, JobsOk, Agrees;
    var w' := w.(cache := w.cache - {id});
    forall x | x in w'.store ensures CircleInv(w', x) {
      assert CircleInv(w, x);
    }
  }

  lemma InvActivate(w: World, id: CircleId, user: UserId, accountOk: bool, deployed: Option<string>)
    requires Inv(w)
    ensures Inv(ActivateCircle(w, id, user, accountOk, deployed).0)
    ensures ActivateCircle(w, id, user, accountOk, deployed).1 == Ok ==> id in w.store && w.store[id].status == PENDING
  {
    hide Inv, CircleInv, SameRoster;
    InvView(w, id);
    var seen := GetCircleById(w, id).0;
    var w' := ActivateCircle(w, id, user, accountOk, deployed).0;
    if w' != seen {
      Activating(seen, id, deployed);
    }
  }

  lemma Activating(w: World, id: CircleId, deployed: Option<string>)
    requires Inv(w) && id in w.store && w.store[id].status == PENDING && deployed.Some?
    ensures
      var c' := w.store[id].(contractAddress := deployed, status := RECRUITING);
      Inv(w.(store := w.store[id := c'], cache := w.cache - {id}, log := w.log + [Activated(id)]))
  {
    hide Payouts, Activations, Starts, MarksOk, RoundPayoutsOk, PayeesOk, Agrees, MarkedRounds, Stalled;
    assert CircleInv(w, id);
    var c' := w.store[id].(contractAddress := deployed, status := RECRUITING);
    var w' := w.(store := w.store[id := c'], cache := w.cache - {id}, log := w.log + [Activated(id)]);
    forall x ensures
      && Payouts(w'.log, x) == Payouts(w.log, x)
      && Starts(w'.log, x) == Starts(w.log, x)
      && Activations(w'.log, x) == Activations(w.log, x) + if x == id then 1 else 0
    {
      Logged(w.log, Activated(id), x);
    }
    NoPayees(w.firstRound, c', Payouts(w.log, id));
    InvFrame(w, w', id);
  }

  lemma NoPayees(firstRound: nat, c: Circle, ps: seq<Event>)
    requires ps == []
    ensures PayeesOk(firstRound, c, ps)
  {
  }

  lemma InvJoin(w: World, id: CircleId, user: UserId, allowed: bool)
    requires Inv(w)
    ensures Inv(JoinCircle(w, id, user, allowed).0)
  {
    hide Payouts, Activations, Starts, CircleOk, JobsOk, CacheOk;
    var w' := JoinCircle(w, id, user, allowed).0;
    if w' != w {
      assert CircleInv(w, id);
      var c := w.store[id];
      Joining(w.firstRound, c, Payouts(w.log, id), Activations(w.log, id), Starts(w.log, id), user);
      NoJobs(w.jobs, id, c, w'.store[id]);
      NotCached(w'.cache, id, w'.store[id]);
      InvQuiet(w, w', id);
    }
  }

  lemma NotCached(cache: map<CircleId, Circle>, id: CircleId, c: Circle)
    requires id !in cache
    ensures CacheOk(cache, id, c)
  {
  }

  /** Before the start there are no jobs, so the members and settings may still change. */
  lemma NoJobs(jobs: map<JobId, Job>, id: CircleId, c: Circle, c': Circle)
    requires JobsOk(jobs, id, c) && !HasStarted(c)
    ensures JobsOk(jobs, id, c')
  {
  }

  lemma Joining(firstRound: nat, c: Circle, ps: seq<Event>, activations: nat, starts: nat, user: UserId)
    requires CircleOk(firstRound, c, ps, activations, starts)
    requires c.status == RECRUITING && |ActiveMembers(c.members)| < c.maxMembers && FindMember(c.members, user).None?
    ensures
      var c' := c.(members := c.members + [Member(user, |ActiveMembers(c.members)| + 1, false, ActiveMember)]);
      CircleOk(firstRound, c', ps, activations, starts)
  {
    RosterIsSorted(c);
    FindMemberIs(c.members, user);
    var c' := c.(members := c.members + [Member(user, |c.members| + 1, false, ActiveMember)]);
    assert ps == [] && MarkedRounds(ps) == [];
  }

  lemma InvStart(w: World, id: CircleId, user: UserId, onChainOk: bool, today: Day)
    requires Inv(w)
    ensures Inv(StartCircle(w, id, user, onChainOk, today).0)
    ensures StartCircle(w, id, user, onChainOk, today).1 == Ok ==> id in w.store && w.store[id].status == RECRUITING
  {
    hide Inv, CircleInv, ActiveMembers;
    InvView(w, id);
    var seen := GetCircleById(w, id).0;
    var w' := StartCircle(w, id, user, onChainOk, today).0;
    if w' != seen {
      CachedMembersCount(w, id, GetCircleById(w, id).1.value);
      Starting(seen, id, today);
    }
  }

  lemma CachedMembersCount(w: World, id: CircleId, cached: Circle)
    requires id in w.store && CircleInv(w, id) && Agrees(cached, w.store[id])
    ensures |ActiveMembers(cached.members)| == |w.store[id].members|
  {
    AllActive(cached.members);
  }

  lemma Starting(w: World, id: CircleId, today: Day)
    requires Inv(w) && id in w.store && w.store[id].status == RECRUITING && |w.store[id].members| >= 2
    ensures
      var c' := w.store[id].(status := ACTIVE, currentRound := w.firstRound, startDate := today,
                             totalRounds := |w.store[id].members|);
      Inv(w.(store := w.store[id := c'], cache := w.cache - {id}, log := w.log + [Started(id)]))
  {
    hide Payouts, Activations, Starts, CircleOk, JobsOk, CacheOk;
    assert CircleInv(w, id);
    var c := w.store[id];
    var c' := c.(status := ACTIVE, currentRound := w.firstRound, startDate := today, totalRounds := |c.members|);
    var w' := w.(store := w.store[id := c'], cache := w.cache - {id}, log := w.log + [Started(id)]);
    forall x ensures
      && Payouts(w'.log, x) == Payouts(w.log, x)
      && Activations(w'.log, x) == Activations(w.log, x)
      && Starts(w'.log, x) == Starts(w.log, x) + if x == id then 1 else 0
    {
      Logged(w.log, Started(id), x);
    }
    StartedOk(w.firstRound, c, c', Payouts(w.log, id), Activations(w.log, id), Starts(w.log, id));
    NoJobs(w.jobs, id, c, c');
    NotCached(w'.cache, id, c');
    InvFrame(w, w', id);
  }

  lemma StartedOk(firstRound: nat, c: Circle, c': Circle, ps: seq<Event>, activations: nat, starts: nat)
    requires CircleOk(firstRound, c, ps, activations, starts)
    requires c.status == RECRUITING && |c.members| >= 2
    requires c' == c.(
               status := ACTIVE, currentRound := firstRound, startDate := c'.startDate, totalRounds := |c.members|)
    ensures CircleOk(firstRound, c', ps, activations, starts + 1)
  {
    assert ps == [] && MarkedRounds(ps) == [];
    hide RoundPayoutsOk;
  }

  // --- Scheduling steps ---

  /** Only jobs of this circle are new, and the old ones are untouched. */
  ghost predicate AddsJobsOf(jobs: map<JobId, Job>, jobs': map<JobId, Job>, id: CircleId) {
    && (forall j: JobId :: j.circleId != id ==> (j in jobs' <==> j in jobs))
    && (forall j: JobId :: j in jobs ==> j in jobs' && jobs'[j] == jobs[j])
  }

  lemma AddsTwice(jobs: map<JobId, Job>, jobs': map<JobId, Job>, jobs'': map<JobId, Job>, id: CircleId)
    ensures AddsJobsOf(jobs, jobs, id)
    ensures AddsJobsOf(jobs, jobs', id) && AddsJobsOf(jobs', jobs'', id) ==> AddsJobsOf(jobs, jobs'', id)
  {
  }

  lemma ScheduledRound(jobs: map<JobId, Job>, id: CircleId, c: Circle, round: nat, env: Surroundings)
    requires RosterOk(c) && HasStarted(c) && JobsOk(jobs, id, c)
    requires 1 <= round <= |SortByPosition(ActiveMembers(c.members))|
    ensures JobsOk(ScheduleRound(jobs, id, c, round, env), id, c)
    ensures AddsJobsOf(jobs, ScheduleRound(jobs, id, c, round, env), id)
  {
    hide ActiveMembers, SortByPosition, PayoutDate, PayoutAmount;
    RosterIsSorted(c);
  }

  lemma {:induction false} ScheduledRoundsOk(
      jobs: map<JobId, Job>, id: CircleId, c: Circle, rounds: nat, env: Surroundings)
    requires RosterOk(c) && HasStarted(c) && JobsOk(jobs, id, c)
    requires rounds <= |SortByPosition(ActiveMembers(c.members))|
    ensures JobsOk(ScheduleRounds(jobs, id, c, rounds, env), id, c)
    ensures AddsJobsOf(jobs, ScheduleRounds(jobs, id, c, rounds, env), id)
  {
    hide ScheduleRound, JobsOk, RosterOk, ActiveMembers, SortByPosition, AddsJobsOf;
    AddsTwice(jobs, jobs, jobs, id);
    if rounds > 0 {
      var jobs' := ScheduleRounds(jobs, id, c, rounds - 1, env);
      ScheduledRoundsOk(jobs, id, c, rounds - 1, env);
      ScheduledRound(jobs', id, c, rounds, env);
      AddsTwice(jobs, jobs', ScheduleRounds(jobs, id, c, rounds, env), id);
    }
  }

  lemma InvSchedule(w: World, id: CircleId, env: Surroundings)
    requires Inv(w) && id in w.store && w.store[id].status == ACTIVE
    ensures Inv(ScheduleCirclePayouts(w, id, env))
  {
    hide Payouts, Activations, Starts, CircleOk, JobsOk, CacheOk, ScheduleRounds, PayoutDate, ActiveMembers;
    hide SortByPosition;
    assert CircleInv(w, id);
    var c := w.store[id];
    RosterOf(w, id);
    RosterIsSorted(c);
    ScheduledRoundsOk(w.jobs, id, c, RoundsReached(c.members, env), env);
    var w' := ScheduleCirclePayouts(w, id, env);
    NextPayoutDateIsFree(w, id, w'.jobs, w'.store[id]);
    InvQuiet(w, w', id);
  }

  lemma RosterOf(w: World, id: CircleId)
    requires id in w.store && CircleInv(w, id)
    ensures RosterOk(w.store[id])
    ensures HasStarted(w.store[id]) ==> w.store[id].totalRounds == |w.store[id].members|
  {
  }

  lemma NextPayoutDateIsFree(w: World, id: CircleId, jobs': map<JobId, Job>, c': Circle)
    requires id in w.store && CircleInv(w, id) && HasStarted(w.store[id])
    requires c' == w.store[id].(nextPayoutDate := c'.nextPayoutDate, totalRounds := |w.store[id].members|)
    requires JobsOk(jobs', id, w.store[id])
    ensures
      && CircleOk(w.firstRound, c', Payouts(w.log, id), Activations(w.log, id), Starts(w.log, id))
      && JobsOk(jobs', id, c')
      && CacheOk(w.cache, id, c')
  {
    hide Payouts, Activations, Starts, MarksOk, RoundPayoutsOk, ClimbOk, PayoutDate;
    assert PayoutAmount(c') == PayoutAmount(w.store[id]);
    forall r | JobId(id, r) in jobs' ensures JobOk(id, c', r, jobs'[JobId(id, r)].data) {
      assert JobOk(id, w.store[id], r, jobs'[JobId(id, r)].data);
    }
  }

  lemma InvReconcileCircle(w: World, id: CircleId, env: Surroundings)
    requires Inv(w)
    ensures Inv(ReconcileCircle(w, id, env))
  {
    hide Inv, MissingRounds, ScheduleCirclePayouts;
    if NeedsReconciling(w, id) { InvSchedule(w, id, env); }
  }

  lemma {:induction false} InvReconcile(w: World, ids: seq<CircleId>, env: Surroundings)
    requires Inv(w)
    ensures Inv(Reconcile(w, ids, env).0)
    decreases |ids|
  {
    hide Inv, ReconcileCircle, NeedsReconciling, SchedulingReturns;
    if ids != [] {
      InvReconcile(w, ids[..|ids| - 1], env);
      InvReconcileCircle(Reconcile(w, ids[..|ids| - 1], env).0, ids[|ids| - 1], env);
    }
  }

  // --- Payout steps ---

  /** Marking the recipient of a round marks exactly the member at that position. */
  lemma MarkedOne(c: Circle, round: nat)
    requires RosterOk(c) && 1 <= round <= |c.members|
    ensures
      var members' := MarkMembers(c.members, c.members[round - 1].userId);
      members' == c.members[round - 1 := c.members[round - 1].(hasReceivedPayout := true)]
  {
    var user := c.members[round - 1].userId;
    forall i | 0 <= i < |c.members| && i != round - 1 ensures c.members[i].userId != user {
    }
  }

  /** The eligibility check finds the member at the round's position, so that member was unpaid. */
  lemma FoundIsRecipient(c: Circle, round: nat)
    requires RosterOk(c) && 1 <= round <= |c.members|
    ensures FindMember(c.members, c.members[round - 1].userId) == Some(c.members[round - 1])
  {
    FindMemberIs(c.members, c.members[round - 1].userId);
  }

  /** What the members look like after an attempt. */
  ghost predicate OnlyMarked(c: Circle, c': Circle, round: nat, marked: bool)
    requires 1 <= round <= |c.members|
  {
    c'.members == if marked then c.members[round - 1 := c.members[round - 1].(hasReceivedPayout := true)] else c.members
  }

  lemma MarkKeepsRoster(c: Circle, c': Circle, round: nat, marked: bool)
    requires RosterOk(c) && 1 <= round <= |c.members| && OnlyMarked(c, c', round, marked)
    requires c'.maxMembers == c.maxMembers && c'.creatorId == c.creatorId && c'.amount == c.amount
    ensures RosterOk(c') && PayoutAmount(c') == PayoutAmount(c)
  {
    SamePayoutAmount(c, c');
  }

  lemma SamePayoutAmount(c: Circle, c': Circle)
    requires forall i :: 0 <= i < |c.members| ==> c.members[i].status == ActiveMember
    requires forall i :: 0 <= i < |c'.members| ==> c'.members[i].status == ActiveMember
    requires |c'.members| == |c.members| && c'.amount == c.amount
    ensures PayoutAmount(c') == PayoutAmount(c)
  {
    AllActive(c.members);
    AllActive(c'.members);
  }

  lemma MarkKeepsMarks(firstRound: nat, c: Circle, c': Circle, round: nat, marked: seq<nat>)
    requires 1 <= round <= |c.members| && OnlyMarked(c, c', round, true)
    requires MarksOk(firstRound, c.members, marked) && firstRound < round && !c.members[round - 1].hasReceivedPayout
    ensures MarksOk(firstRound, c'.members, marked + [round])
  {
    assert round !in marked;
    forall i | 0 <= i < |c'.members| && c'.members[i].hasReceivedPayout ensures i + 1 in marked + [round] {
      if i == round - 1 { assert (marked + [round])[|marked|] == i + 1; } else { assert i + 1 in marked; }
    }
  }

  lemma SentKeepsRoundPayouts(c: Circle, c': Circle, ps: seq<Event>, e: Event)
    requires RoundPayoutsOk(c.members, ps)
    requires e.Sent? && 1 <= e.round <= |c.members|
    requires OnlyMarked(c, c', e.round, Marks(e)) && !c.members[e.round - 1].hasReceivedPayout
    ensures RoundPayoutsOk(c'.members, ps + [e])
  {
    hide RoundPayouts, LostPayouts;
    PaidOut(ps, e);
  }

  lemma SentKeepsPayees(firstRound: nat, c: Circle, c': Circle, ps: seq<Event>, e: Event)
    requires PayeesOk(firstRound, c, ps)
    requires e.Sent? && firstRound < e.round <= |c.members| && OnlyMarked(c, c', e.round, Marks(e))
    requires e.payee == RoundsPayee(c, e.round) && PayoutAmount(c) == PayoutAmount(c') && c.chain == c'.chain
    ensures PayeesOk(firstRound, c', ps + [e])
  {
    hide PayoutAmount;
  }

  /** The attempt that pays the last member decides whether the circle completes. */
  lemma SentKeepsCompletion(c: Circle, ps: seq<Event>, e: Event)
    requires c.status == ACTIVE && e.Sent?
    requires 1 <= e.round <= |c.members| && c.members[e.round - 1].status == ActiveMember
    requires !c.members[e.round - 1].hasReceivedPayout
    ensures CompletionOk(Settle(c, c.members[e.round - 1].userId, e.reach), ps + [e])
  {
    if !Marks(e) {
      assert SomeoneUnpaid(c.members);
    }
  }

  lemma SentKeepsClimb(firstRound: nat, ps: seq<Event>, e: Event, currentRound: nat)
    requires e.Sent? && ClimbOk(firstRound, MarkedRounds(ps), Stalled(ps))
    requires currentRound + Stalled(ps) == firstRound + |MarkedRounds(ps)| && currentRound < e.round
    ensures ClimbOk(firstRound, MarkedRounds(ps + [e]), Stalled(ps + [e]))
  {
    hide MarkedRounds, Stalled;
    PaidOut(ps, e);
  }

  /** An eligible attempt that transfers, however far it gets after that. */
  lemma SettleOk(firstRound: nat, c: Circle, ps: seq<Event>, activations: nat, starts: nat, e: Event)
    requires CircleOk(firstRound, c, ps, activations, starts)
    requires c.status == ACTIVE && e.Sent? && e.reach.Rank() >= Transferred.Rank()
    requires c.currentRound < e.round <= |c.members| && !c.members[e.round - 1].hasReceivedPayout
    requires e.payee == RoundsPayee(c, e.round)
    ensures CircleOk(firstRound, Settle(c, c.members[e.round - 1].userId, e.reach), ps + [e], activations, starts)
  {
    hide MarkedRounds, Stalled, RoundPayouts, LostPayouts, RoundPayoutsOk, PayeesOk, MarksOk, ClimbOk, CompletionOk;
    hide PayoutAmount;
    hide RosterOk, MarkMembers;
    var c' := Settle(c, c.members[e.round - 1].userId, e.reach);
    MarkedOne(c, e.round);
    RosterStatus(c, e.round);
    assert OnlyMarked(c, c', e.round, Marks(e));
    MarkKeepsRoster(c, c', e.round, Marks(e));
    PaidOut(ps, e);
    SentKeepsRoundPayouts(c, c', ps, e);
    SentKeepsPayees(firstRound, c, c', ps, e);
    SentKeepsClimb(firstRound, ps, e, c.currentRound);
    SentKeepsCompletion(c, ps, e);
    if Marks(e) { MarkKeepsMarks(firstRound, c, c', e.round, MarkedRounds(ps)); }
    else { assert MarkedRounds(ps + [e]) == MarkedRounds(ps); }
  }

  lemma RosterStatus(c: Circle, round: nat)
    requires RosterOk(c) && 1 <= round <= |c.members|
    ensures c.members[round - 1].status == ActiveMember
  {
  }

  lemma SettleKeepsJobs(jobs: map<JobId, Job>, id: CircleId, c: Circle, c': Circle, round: nat, marked: bool)
    requires JobsOk(jobs, id, c) && RosterOk(c) && 1 <= round <= |c.members| && OnlyMarked(c, c', round, marked)
    requires HasStarted(c') && PayoutAmount(c') == PayoutAmount(c)
    requires c'.startDate == c.startDate && c'.frequency == c.frequency && c'.chain == c.chain
    ensures JobsOk(jobs, id, c')
  {
    hide PayoutAmount, PayoutDate;
    forall r | JobId(id, r) in jobs ensures JobOk(id, c', r, jobs[JobId(id, r)].data) {
      assert JobOk(id, c, r, jobs[JobId(id, r)].data);
    }
  }

  lemma SettleKeepsCache(cache: map<CircleId, Circle>, id: CircleId, c: Circle, c': Circle, round: nat, marked: bool)
    requires CacheOk(cache, id, c) && 1 <= round <= |c.members| && OnlyMarked(c, c', round, marked)
    requires c.status == ACTIVE && HasStarted(c')
    requires c' == c.(members := c'.members, status := c'.status, currentRound := c'.currentRound)
    ensures CacheOk(cache, id, c')
  {
  }

  /** Requeueing a job does not change its data. */
  lemma SameData(jobs: map<JobId, Job>, j: JobId, job: Job, id: CircleId, c: Circle)
    requires JobsOk(jobs, id, c) && j in jobs && job.data == jobs[j].data
    ensures JobsOk(jobs[j := job], id, c)
  {
  }

  lemma JobDataIs(w: World, j: JobId)
    requires Inv(w) && j in w.jobs
    ensures j.circleId in w.store && CircleInv(w, j.circleId)
    ensures JobOk(j.circleId, w.store[j.circleId], j.round, w.jobs[j].data)
  {
    assert CircleInv(w, j.circleId);
  }

  /** What eligibility means for a queued job. */
  lemma EligibleMeans(w: World, j: JobId, weather: Weather)
    requires Inv(w) && j in w.jobs && Ineligible(w, w.jobs[j].data, weather).None?
    ensures
      var c := w.store[j.circleId];
      && c.status == ACTIVE && c.currentRound < j.round <= |c.members|
      && !c.members[j.round - 1].hasReceivedPayout
  {
    hide CircleOk, JobsOk, CacheOk, PayoutDate, PayoutAmount, FindMember;
    JobDataIs(w, j);
    RosterOf(w, j.circleId);
    FoundIsRecipient(w.store[j.circleId], j.round);
  }

  lemma InvProcess(w: World, j: JobId, weather: Weather)
    requires Inv(w)
    ensures Inv(Process(w, j, weather))
  {
    hide CircleOk, JobsOk, CacheOk, PayoutDate, PayoutAmount, FindMember, Payouts, Activations, Starts, Settle;
    hide Ineligible;
    if j in w.jobs && w.jobs[j].state == Waiting {
      JobDataIs(w, j);
      var id, job := j.circleId, w.jobs[j];
      if Ineligible(w, job.data, weather).Some? {
        var w' := w.(jobs := w.jobs[j := AfterAttempt(job, false, weather.dies)]);
        SameData(w.jobs, j, w'.jobs[j], id, w.store[id]);
        InvQuiet(w, w', id);
      } else {
        EligibleMeans(w, j, weather);
        Paying(w, j, weather);
      }
    }
  }

  lemma Paying(w: World, j: JobId, weather: Weather)
    requires Inv(w) && j in w.jobs && j.circleId in w.store
    requires CircleInv(w, j.circleId) && JobOk(j.circleId, w.store[j.circleId], j.round, w.jobs[j].data)
    requires
      var c := w.store[j.circleId];
      c.status == ACTIVE && c.currentRound < j.round <= |c.members| && !c.members[j.round - 1].hasReceivedPayout
    ensures
      var id, job := j.circleId, w.jobs[j];
      Inv(w.(store := w.store[id := Settle(w.store[id], job.data.recipientUserId, weather.reach)],
             jobs := w.jobs[j := AfterAttempt(job, weather.reach == Notified, weather.dies)],
             records := w.records + Records(job.data, weather.reach),
             log := w.log + Sends(job.data, weather.reach)))
  {
    hide CircleOk, JobsOk, CacheOk, PayoutDate, PayoutAmount, Payouts, Activations, Starts, MarkMembers, RosterOk;
    var id, job, reach := j.circleId, w.jobs[j], weather.reach;
    var c := w.store[id];
    var c' := Settle(c, job.data.recipientUserId, reach);
    var jobs' := w.jobs[j := AfterAttempt(job, reach == Notified, weather.dies)];
    SameData(w.jobs, j, jobs'[j], id, c);
    RosterOf(w, id);
    MarkedOne(c, j.round);
    var marked := reach.Rank() >= Marked.Rank();
    MarkKeepsRoster(c, c', j.round, marked);
    SettleKeepsJobs(jobs', id, c, c', j.round, marked);
    SettleKeepsCache(w.cache, id, c, c', j.round, marked);
    var w' := w.(store := w.store[id := c'], jobs := jobs', records := w.records + Records(job.data, reach),
                 log := w.log + Sends(job.data, reach));
    if reach.Rank() < Transferred.Rank() {
      assert w'.log == w.log;
      InvQuiet(w, w', id);
    } else {
      var e := Sent(id, j.round, PayeeOf(job.data), reach);
      SettleOk(w.firstRound, c, Payouts(w.log, id), Activations(w.log, id), Starts(w.log, id), e);
      SentLogged(w.log, e);
      InvFrame(w, w', id);
    }
  }

  lemma SentLogged(log: seq<Event>, e: Event)
    requires e.Sent?
    ensures Payouts(log + [e], e.circleId) == Payouts(log, e.circleId) + [e]
    ensures forall x :: x != e.circleId ==> Payouts(log + [e], x) == Payouts(log, x)
    ensures forall x :: Activations(log + [e], x) == Activations(log, x) && Starts(log + [e], x) == Starts(log, x)
  {
    hide Payouts, Activations, Starts;
    forall x ensures
      && Payouts(log + [e], x) == Payouts(log, x) + (if e.circleId == x then [e] else [])
      && Activations(log + [e], x) == Activations(log, x) && Starts(log + [e], x) == Starts(log, x)
    {
      Logged(log, e, x);
    }
  }

  lemma InvEvict(w: World, j: JobId)
    requires Inv(w)
    ensures Inv(Evict(w, j))
  {
    hide CircleOk, CacheOk, JobsOk, JobOk, Payouts, Activations, Starts;
    var w' := Evict(w, j);
    if w' != w {
      JobDataIs(w, j);
      FewerJobs(w.jobs, j, j.circleId, w.store[j.circleId]);
      InvQuiet(w, w', j.circleId);
    }
  }

  lemma FewerJobs(jobs: map<JobId, Job>, j: JobId, id: CircleId, c: Circle)
    requires JobsOk(jobs, id, c)
    ensures JobsOk(jobs - {j}, id, c)
  {
  }

  // --- Runs ---

  lemma InvStep(w: World, a: Action)
    requires Inv(w)
    ensures Inv(Step(w, a))
  {
    hide Inv, CreateCircle, ActivateCircle, JoinCircle, StartCircle, GetCircleById, ScheduleCirclePayouts, Reconcile;
    hide Process, Evict;
    match a
    case Create(id, dto, valid) => InvCreate(w, id, dto, valid);
    case Activate(id, user, accountOk, deployed) => InvActivate(w, id, user, accountOk, deployed);
    case Join(id, user, allowed) => InvJoin(w, id, user, allowed);
    case Start(id, user, onChainOk, today) => InvStart(w, id, user, onChainOk, today);
    case View(id) => InvView(w, id);
    case CacheExpires(id) => InvCacheDrop(w, id);
    case Announce(id, announced, env) =>
      if id in w.store && w.store[id].status == ACTIVE { InvSchedule(w, id, env); }
    case ReconcileAll(ids, env) => InvReconcile(w, ids, env);
    case RunJob(job, weather) => InvProcess(w, job, weather);
    case EvictJob(job) => InvEvict(w, job);
  }

  lemma {:induction false} InvRun(w: World, actions: seq<Action>)
    requires Inv(w)
    ensures Inv(Run(w, actions)) && Run(w, actions).firstRound == w.firstRound
    decreases |actions|
  {
    if actions != [] {
      hide Inv, Step;
      InvStep(w, actions[0]);
      FirstRoundFixed(w, actions[0]);
      InvRun(Step(w, actions[0]), actions[1..]);
    }
  }

  lemma FirstRoundFixed(w: World, a: Action)
    ensures Step(w, a).firstRound == w.firstRound
  {
    hide ScheduleRounds, PayoutDate, Reconcile, Ineligible, Settle, SortByPosition, ActiveMembers, FindMember;
    if a.ReconcileAll? { ReconcileIsSilent(w, a.ids, a.env); }
  }

  lemma {:induction false} ReconcileIsSilent(w: World, ids: seq<CircleId>, env: Surroundings)
    ensures Reconcile(w, ids, env).0.firstRound == w.firstRound
    ensures Reconcile(w, ids, env).0.log == w.log && Reconcile(w, ids, env).0.records == w.records
    decreases |ids|
  {
    hide ScheduleRounds, MissingRounds, PayoutDate, SortByPosition, ActiveMembers;
    if ids != [] {
      ReconcileIsSilent(w, ids[..|ids| - 1], env);
    }
  }

  lemma ReachableInv(firstRound: nat, actions: seq<Action>)
    ensures Inv(Run(StartWith(firstRound), actions))
    ensures Run(StartWith(firstRound), actions).firstRound == firstRound
  {
    hide Run;
    InvRun(StartWith(firstRound), actions);
  }
}
