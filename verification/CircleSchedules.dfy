/** Which jobs scheduling and reconciliation leave in the queue, and what running those jobs in order does. */
module CircleSchedules {
  import opened Counting
  import opened Options
  import opened Calendar
  import opened PayoutDates
  import opened Circles
  import opened CircleInvariant

  // --- Sorting by position ---

  ghost predicate SortedByPosition(s: seq<Member>) {
    forall i, j :: 0 <= i < j < |s| ==> s[i].position <= s[j].position
  }

  lemma {:induction false} InsertKeepsElements(m: Member, sorted: seq<Member>)
    ensures multiset(Insert(m, sorted)) == multiset(sorted)[m := multiset(sorted)[m] + 1]
  {
    if sorted != [] && m.position > sorted[0].position {
      InsertKeepsElements(m, sorted[1..]);
      assert sorted == [sorted[0]] + sorted[1..];
    }
  }

  lemma {:induction false} InsertSorts(m: Member, sorted: seq<Member>)
    requires SortedByPosition(sorted)
    ensures SortedByPosition(Insert(m, sorted))
  {
    if sorted == [] || m.position <= sorted[0].position {
    } else {
      var rest := Insert(m, sorted[1..]);
      InsertSorts(m, sorted[1..]);
      InsertKeepsElements(m, sorted[1..]);
      forall x | x in rest ensures sorted[0].position <= x.position {
        assert x in multiset(rest);
        assert x == m || x in multiset(sorted[1..]);
      }
      HeadFirst(sorted[0], rest);
    }
  }

  lemma HeadFirst(m: Member, rest: seq<Member>)
    requires SortedByPosition(rest)
    requires forall x :: x in rest ==> m.position <= x.position
    ensures SortedByPosition([m] + rest)
  {
  }

  lemma {:induction false} SortSorts(members: seq<Member>)
    ensures SortedByPosition(SortByPosition(members))
    ensures multiset(SortByPosition(members)) == multiset(members)
  {
    if members != [] {
      SortSorts(members[1..]);
      InsertSorts(members[0], SortByPosition(members[1..]));
      InsertKeepsElements(members[0], SortByPosition(members[1..]));
      assert members == [members[0]] + members[1..];
    }
  }

  lemma OnceEachIsDistinct<T(!new)>(s: seq<T>)
    requires forall x :: multiset(s)[x] <= 1
    ensures Distinct(s)
  {
    forall i, j | 0 <= i < j < |s| ensures s[i] != s[j] {
      assert s == s[..j] + ([s[j]] + s[j + 1..]);
      assert s[i] in s[..j];
      assert multiset(s) == multiset(s[..j]) + multiset{s[j]} + multiset(s[j + 1..]);
      assert multiset(s)[s[i]] >= 1 + multiset{s[j]}[s[i]];
    }
  }

  lemma {:induction false} StrictlyIncreasing(picks: seq<nat>, k: nat)
    requires k < |picks| && picks[0] >= 1
    requires forall i, j :: 0 <= i < j < |picks| ==> picks[i] < picks[j]
    ensures picks[k] > k
  {
    if k > 0 { StrictlyIncreasing(picks, k - 1); }
  }

  /** Whatever the order of the list, when positions are 1..n without repeats the sort hands round r to position r. */
  lemma SortHandsRoundsToPositions(members: seq<Member>)
    requires forall i, j :: 0 <= i < j < |members| ==> members[i].position != members[j].position
    requires forall i :: 0 <= i < |members| ==> 1 <= members[i].position <= |members|
    ensures |SortByPosition(members)| == |members|
    ensures forall k :: 0 <= k < |members| ==> SortByPosition(members)[k].position == k + 1
  {
    var s := SortByPosition(members);
    SortSorts(members);
    assert |s| == |multiset(s)| == |members|;
    SameElements(s, members);
    DistinctPositionsKept(members, s);
    forall i | 0 <= i < |s| ensures 1 <= s[i].position <= |s| {
      assert s[i] in members;
    }
    StrictPositions(s);
  }

  lemma SameElements<T>(a: seq<T>, b: seq<T>)
    requires multiset(a) == multiset(b)
    ensures forall x :: x in a <==> x in b
  {
    forall x ensures x in a <==> x in b {
      assert x in multiset(a) <==> x in multiset(b);
    }
  }

  lemma DistinctPositionsKept(members: seq<Member>, s: seq<Member>)
    requires multiset(s) == multiset(members)
    requires forall i, j :: 0 <= i < j < |members| ==> members[i].position != members[j].position
    ensures forall i, j :: 0 <= i < j < |s| ==> s[i].position != s[j].position
  {
    assert Distinct(members);
    DistinctMultiset(members);
    OnceEachIsDistinct(s);
    SameElements(s, members);
    forall i, j | 0 <= i < j < |s| ensures s[i].position != s[j].position {
      assert s[i] in members && s[j] in members;
    }
  }

  lemma StrictPositions(s: seq<Member>)
    requires forall i, j :: 0 <= i < j < |s| ==> s[i].position < s[j].position
    requires forall i :: 0 <= i < |s| ==> 1 <= s[i].position <= |s|
    ensures forall k :: 0 <= k < |s| ==> s[k].position == k + 1
  {
    var picks := seq(|s|, i requires 0 <= i < |s| => s[i].position);
    forall k | 0 <= k < |picks| ensures k < picks[k] {
      StrictlyIncreasing(picks, k);
    }
    ClimbingPicksAreSorted(picks);
    assert forall k :: 0 <= k < |s| ==> picks[k] == s[k].position;
  }

  // --- What scheduling leaves in the queue ---

  /** If the loop gets to this round, it can queue its job. */
  predicate Queueable(c: Circle, round: nat, env: Surroundings)
    requires 1 <= round <= |c.members|
  {
    c.members[round - 1].userId in env.accounts && round !in env.queueDown
  }

  /** The scheduling loop gets to this round and can queue its job. */
  predicate Schedulable(c: Circle, round: nat, env: Surroundings)
    requires 1 <= round <= |c.members|
  {
    && (forall q :: 0 <= q < round ==> c.members[q].userId !in env.lookupFails)
    && Queueable(c, round, env)
  }

  /** The loop gets past exactly the rounds before the first lookup that throws. */
  lemma {:induction false} RoundsReachedIs(sorted: seq<Member>, env: Surroundings)
    ensures
      var n := RoundsReached(sorted, env);
      && (forall q :: 0 <= q < n ==> sorted[q].userId !in env.lookupFails)
      && (n < |sorted| ==> sorted[n].userId in env.lookupFails)
  {
    if sorted != [] && sorted[0].userId !in env.lookupFails {
      RoundsReachedIs(sorted[1..], env);
      assert forall q :: 1 <= q < |sorted| ==> sorted[q] == sorted[1..][q - 1];
    }
  }

  function FreshJob(id: CircleId, c: Circle, round: nat): Job
    requires 1 <= round <= |c.members|
  {
    var recipient := c.members[round - 1].userId;
    var date := PayoutDate(c.startDate, c.frequency, round);
    Job(JobData(id, round, recipient, c.chain, PayoutAmount(c), date), 0, Waiting)
  }

  /** One turn of the loop queues the round's job if it was not there and can be. */
  lemma OneRound(jobs: map<JobId, Job>, id: CircleId, c: Circle, round: nat, env: Surroundings)
    requires RosterOk(c) && 1 <= round <= |SortByPosition(ActiveMembers(c.members))| == |c.members|
    ensures ScheduleRound(jobs, id, c, round, env)
         == if JobId(id, round) !in jobs && Queueable(c, round, env)
            then jobs[JobId(id, round) := FreshJob(id, c, round)] else jobs
  {
    hide RosterOk, ActiveMembers, SortByPosition, PayoutDate, PayoutAmount;
    RosterIsSorted(c);
  }

  /** The old jobs, and a fresh one for each of the first rounds that had none and is queueable. */
  ghost predicate QueuedUpTo(
    jobs: map<JobId, Job>, jobs': map<JobId, Job>, id: CircleId, c: Circle, rounds: nat, env: Surroundings)
    requires rounds <= |c.members|
  {
    && (forall j :: j in jobs' <==>
          j in jobs || (j.circleId == id && 1 <= j.round <= rounds && Queueable(c, j.round, env)))
    && (forall j :: j in jobs' ==> jobs'[j] == if j in jobs then jobs[j] else FreshJob(id, c, j.round))
  }

  lemma QueueOneMore(
      jobs: map<JobId, Job>, jobs': map<JobId, Job>, id: CircleId, c: Circle, rounds: nat, env: Surroundings)
    requires 1 <= rounds <= |c.members| && QueuedUpTo(jobs, jobs', id, c, rounds - 1, env)
    ensures
      var jobs'' := if JobId(id, rounds) !in jobs' && Queueable(c, rounds, env)
                    then jobs'[JobId(id, rounds) := FreshJob(id, c, rounds)] else jobs';
      QueuedUpTo(jobs, jobs'', id, c, rounds, env)
  {
    hide FreshJob, Queueable;
  }

  lemma {:induction false} ScheduledExactly(
      jobs: map<JobId, Job>, id: CircleId, c: Circle, rounds: nat, env: Surroundings)
    requires RosterOk(c) && rounds <= |SortByPosition(ActiveMembers(c.members))| == |c.members|
    ensures QueuedUpTo(jobs, ScheduleRounds(jobs, id, c, rounds, env), id, c, rounds, env)
  {
    if rounds > 0 {
      hide RosterOk, ScheduleRound, FreshJob, Queueable, ActiveMembers, SortByPosition, QueuedUpTo;
      var jobs' := ScheduleRounds(jobs, id, c, rounds - 1, env);
      ScheduledExactly(jobs, id, c, rounds - 1, env);
      OneRound(jobs', id, c, rounds, env);
      QueueOneMore(jobs, jobs', id, c, rounds, env);
    }
  }

  lemma SchedulableIff(c: Circle, round: nat, env: Surroundings)
    requires 1 <= round <= |c.members|
    ensures Schedulable(c, round, env) <==> round <= RoundsReached(c.members, env) && Queueable(c, round, env)
  {
    hide Queueable;
    RoundsReachedIs(c.members, env);
  }

  /** After scheduling, a round has a job exactly if it had one before or the loop got to it and could queue it. */
  lemma ScheduledRoundsAre(w: World, id: CircleId, env: Surroundings)
    requires Inv(w) && id in w.store
    ensures
      var w', c := ScheduleCirclePayouts(w, id, env), w.store[id];
      && (forall j :: j in w'.jobs <==>
            j in w.jobs || (j.circleId == id && 1 <= j.round <= |c.members| && Schedulable(c, j.round, env)))
      && (forall j :: j in w'.jobs ==> w'.jobs[j] == if j in w.jobs then w.jobs[j] else FreshJob(id, c, j.round))
  {
    hide Inv, RosterOk, ScheduleRounds, PayoutDate, ActiveMembers, SortByPosition, Schedulable, Queueable, FreshJob;
    hide SchedulingReturns;
    StoredCircle(w, id);
    var c := w.store[id];
    RosterIsSorted(c);
    forall r | 1 <= r <= |c.members| ensures
      Schedulable(c, r, env) <==> r <= RoundsReached(c.members, env) && Queueable(c, r, env)
    {
      SchedulableIff(c, r, env);
    }
    ScheduledExactly(w.jobs, id, c, RoundsReached(c.members, env), env);
  }

  /** Every member has an account, the queue takes every job, and nothing throws. */
  ghost predicate AllClear(c: Circle, env: Surroundings) {
    !env.updateFails && forall r :: 1 <= r <= |c.members| ==> Schedulable(c, r, env)
  }

  ghost predicate FullyQueued(jobs: map<JobId, Job>, id: CircleId, c: Circle) {
    forall r :: 1 <= r <= |c.members| ==> JobId(id, r) in jobs
  }

  lemma ClearReturns(c: Circle, env: Surroundings)
    requires RosterOk(c) && AllClear(c, env)
    ensures SchedulingReturns(c, env)
  {
    hide PayoutAmount;
    RosterIsSorted(c);
    RoundsReachedIs(c.members, env);
    assert Schedulable(c, |c.members|, env);
  }

  /** With every round queued, scheduling again in any surroundings changes nothing but the next payout date. */
  lemma ReschedulingAddsNothing(w: World, id: CircleId, env: Surroundings)
    requires Inv(w) && id in w.store && w.store[id].status == ACTIVE && FullyQueued(w.jobs, id, w.store[id])
    ensures
      var w', c := ScheduleCirclePayouts(w, id, env), w.store[id];
      w' == if SchedulingReturns(c, env)
            then w.(store := w.store[id := c.(nextPayoutDate := PayoutDate(c.startDate, c.frequency, 1))])
            else w
  {
    hide Inv, ScheduleRounds, PayoutDate, ActiveMembers, SortByPosition, PayoutAmount;
    ScheduledRoundsAre(w, id, env);
    StoredCircle(w, id);
    RosterIsSorted(w.store[id]);
    var w' := ScheduleCirclePayouts(w, id, env);
    assert w'.jobs == w.jobs;
  }

  /** With nothing in the way, scheduling queues every round and stores the first payout date. */
  lemma ClearScheduling(w: World, id: CircleId, env: Surroundings)
    requires Inv(w) && id in w.store && w.store[id].status == ACTIVE && AllClear(w.store[id], env)
    ensures
      var w', c := ScheduleCirclePayouts(w, id, env), w.store[id];
      && w'.store == w.store[id := c.(nextPayoutDate := PayoutDate(c.startDate, c.frequency, 1))]
      && FullyQueued(w'.jobs, id, w'.store[id])
      && w'.log == w.log
  {
    hide Inv, RosterOk, ScheduleRounds, PayoutDate, ActiveMembers, SortByPosition, SchedulingReturns, Schedulable;
    hide FreshJob;
    var c := w.store[id];
    StoredCircle(w, id);
    ClearReturns(c, env);
    RosterIsSorted(c);
    ScheduledRoundsAre(w, id, env);
  }

  /** A circle scheduled in full is left alone. */
  lemma ScheduledAlready(w: World, id: CircleId, again: Surroundings)
    requires Inv(w) && id in w.store && w.store[id].status == ACTIVE && FullyQueued(w.jobs, id, w.store[id])
    requires w.store[id].nextPayoutDate == PayoutDate(w.store[id].startDate, w.store[id].frequency, 1)
    ensures ScheduleCirclePayouts(w, id, again) == w
  {
    hide Inv, ScheduleCirclePayouts, PayoutDate, SchedulingReturns, FullyQueued;
    ReschedulingAddsNothing(w, id, again);
    assert w.store[id := w.store[id]] == w.store;
  }

  /** Scheduling twice is scheduling once. */
  lemma SchedulingTwice(w: World, id: CircleId, env: Surroundings, again: Surroundings)
    requires Inv(w) && id in w.store && w.store[id].status == ACTIVE && AllClear(w.store[id], env)
    ensures
      var w' := ScheduleCirclePayouts(w, id, env);
      FullyQueued(w'.jobs, id, w'.store[id]) && ScheduleCirclePayouts(w', id, again) == w'
  {
    hide Inv, ScheduleCirclePayouts, PayoutDate, SchedulingReturns, AllClear, FullyQueued;
    InvSchedule(w, id, env);
    ClearScheduling(w, id, env);
    ScheduledAlready(ScheduleCirclePayouts(w, id, env), id, again);
  }

  // --- What reconciliation finds ---

  lemma JobsNameThemselves(w: World)
    requires Inv(w)
    ensures forall j :: j in w.jobs ==> w.jobs[j].data.circleId == j.circleId && w.jobs[j].data.roundNumber == j.round
  {
    hide Inv;
    forall j | j in w.jobs ensures w.jobs[j].data.circleId == j.circleId && w.jobs[j].data.roundNumber == j.round {
      JobDataIs(w, j);
    }
  }

  lemma ScheduledMeans(w: World, id: CircleId, round: nat)
    requires Inv(w)
    ensures round in ScheduledRounds(w.jobs, id)
            <==> JobId(id, round) in w.jobs && w.jobs[JobId(id, round)].state != Exhausted
  {
    hide Inv;
    JobsNameThemselves(w);
  }

  /** Reconciliation sees a missing round exactly if an unpaid member's job is gone or used up. */
  lemma MissingMeans(w: World, id: CircleId)
    requires Inv(w) && id in w.store
    ensures
      var c := w.store[id];
      MissingRounds(w.jobs, id, c) <==>
      exists i :: 0 <= i < |c.members| && !c.members[i].hasReceivedPayout
               && (JobId(id, i + 1) !in w.jobs || w.jobs[JobId(id, i + 1)].state == Exhausted)
  {
    hide Inv;
    StoredCircle(w, id);
    var c := w.store[id];
    forall r: nat ensures
      r in ScheduledRounds(w.jobs, id) <==> JobId(id, r) in w.jobs && w.jobs[JobId(id, r)].state != Exhausted
    {
      ScheduledMeans(w, id, r);
    }
  }

  /**
    Right after scheduling with all accounts present, reconciliation has nothing to do unless an unpaid round's job is
    used up.
   */
  lemma ReconcileAfterScheduling(w: World, id: CircleId, env: Surroundings, later: Surroundings)
    requires Inv(w) && id in w.store && w.store[id].status == ACTIVE && AllClear(w.store[id], env)
    ensures
      var w' := ScheduleCirclePayouts(w, id, env);
      var c := w.store[id];
      && (MissingRounds(w'.jobs, id, w'.store[id]) <==>
          exists i :: 0 <= i < |c.members| && !c.members[i].hasReceivedPayout
                   && JobId(id, i + 1) in w.jobs && w.jobs[JobId(id, i + 1)].state == Exhausted)
      && ReconcileCircle(w', id, later) == w'
  {
    hide Inv, PayoutDate, ScheduleRounds, PayoutAmount, ActiveMembers, SortByPosition, MissingRounds;
    var w' := ScheduleCirclePayouts(w, id, env);
    StoredCircle(w, id);
    RosterIsSorted(w.store[id]);
    InvSchedule(w, id, env);
    ScheduledRoundsAre(w, id, env);
    MissingMeans(w', id);
    SchedulingTwice(w, id, env, later);
  }

  // --- Running the jobs in order ---

  /** An attempt that meets no obstacle. */
  const FAIR := Weather(true, true, Notified, false)

  /** One fair attempt for each of the rounds 1..k, in order. */
  function InRoundOrder(id: CircleId, k: nat): seq<Action> {
    if k == 0 then [] else InRoundOrder(id, k - 1) + [RunJob(JobId(id, k), FAIR)]
  }

  /** Just started and scheduled: nobody paid, every round waiting. */
  ghost predicate Launched(w: World, id: CircleId) {
    && Inv(w) && id in w.store
    && w.store[id].status == ACTIVE && w.store[id].currentRound == w.firstRound
    && (forall i :: 0 <= i < |w.store[id].members| ==> !w.store[id].members[i].hasReceivedPayout)
    && (forall r :: 1 <= r <= |w.store[id].members| ==>
          JobId(id, r) in w.jobs && w.jobs[JobId(id, r)].state == Waiting && w.jobs[JobId(id, r)].attemptsMade == 0)
    && Payouts(w.log, id) == []
  }

  lemma UnstartedIsQuiet(w: World, id: CircleId)
    requires Inv(w) && id in w.store && !HasStarted(w.store[id])
    ensures Payouts(w.log, id) == []
    ensures forall r :: JobId(id, r) !in w.jobs
    ensures forall i :: 0 <= i < |w.store[id].members| ==> !w.store[id].members[i].hasReceivedPayout
  {
    hide Payouts, RoundPayoutsOk, PayeesOk, ClimbOk, RosterOk, CacheOk, CompletionOk, Stalled;
    assert CircleInv(w, id);
    forall r ensures JobId(id, r) !in w.jobs {
    }
  }

  /** A successful start, announced while all members have accounts, launches the circle with today as its first day. */
  lemma StartAndAnnounceLaunches(
      w: World, id: CircleId, user: UserId, today: Day, announced: Option<string>, env: Surroundings)
    requires Inv(w) && StartCircle(w, id, user, true, today).1 == Ok
    requires id in w.store && AllClear(w.store[id], env)
    ensures
      var w' := HandleCircleActivated(StartCircle(w, id, user, true, today).0, id, announced, env);
      && Launched(w', id)
      && w'.store[id].members == w.store[id].members
      && w'.store[id].chain == w.store[id].chain && w'.store[id].amount == w.store[id].amount
      && forall r :: 1 <= r <= |w.store[id].members| ==>
           w'.jobs[JobId(id, r)].data.scheduledPayoutDate == PayoutDate(today, w.store[id].frequency, r)
  {
    hide Inv, Payouts, ScheduleRounds, PayoutDate, ActiveMembers, SortByPosition, PayoutAmount;
    InvView(w, id);
    var started := StartCircle(w, id, user, true, today).0;
    InvStart(w, id, user, true, today);
    UnstartedIsQuiet(w, id);
    Logged(w.log, Started(id), id);
    StoredCircle(started, id);
    RosterIsSorted(started.store[id]);
    InvSchedule(started, id, env);
    ScheduledRoundsAre(started, id, env);
    assert started.store[id].members == w.store[id].members;
    forall r | 1 <= r <= |w.store[id].members| ensures Schedulable(started.store[id], r, env) {
      assert Schedulable(w.store[id], r, env);
    }
  }

  /**
    The members after the first round up to the k-th are paid, the round is k, and the circle is complete if that is
    all.
   */
  ghost predicate CircleAt(firstRound: nat, c: Circle, c': Circle, k: nat) {
    && |c'.members| == |c.members| && c'.chain == c.chain && c'.amount == c.amount
    && (forall i :: 0 <= i < |c.members| ==>
          && c'.members[i].userId == c.members[i].userId
          && (c'.members[i].hasReceivedPayout <==> firstRound <= i < k))
    && c'.currentRound == (if k > firstRound then k else firstRound)
    && c'.status == (if firstRound == 0 && k == |c.members| then COMPLETED else ACTIVE)
  }

  /** The transfers were for the rounds after the first up to the k-th, in order. */
  ghost predicate PayoutsAt(firstRound: nat, ps: seq<Event>, k: nat) {
    && |ps| == (if k > firstRound then k - firstRound else 0)
    && forall t :: 0 <= t < |ps| ==> ps[t].Sent? && ps[t].round == firstRound + t + 1 && ps[t].reach == Notified
  }

  /** Where a launched circle stands after fair attempts for the rounds 1..k. */
  ghost predicate StandsAt(w: World, w': World, id: CircleId, k: nat)
    requires id in w.store
  {
    && Inv(w') && w'.firstRound == w.firstRound && id in w'.store
    && CircleAt(w.firstRound, w.store[id], w'.store[id], k)
    && (forall r :: k < r <= |w.store[id].members| ==>
          JobId(id, r) in w'.jobs && w'.jobs[JobId(id, r)].state == Waiting)
    && PayoutsAt(w.firstRound, Payouts(w'.log, id), k)
  }

  lemma {:induction false} RunAppend(w: World, actions: seq<Action>, a: Action)
    ensures Run(w, actions + [a]) == Step(Run(w, actions), a)
    decreases |actions|
  {
    hide Step;
    if actions == [] {
      assert [a][1..] == [];
    } else {
      assert (actions + [a])[1..] == actions[1..] + [a];
      RunAppend(Step(w, actions[0]), actions[1..], a);
    }
  }

  lemma EligibleHere(w: World, id: CircleId, round: nat)
    requires Inv(w) && id in w.store && w.store[id].status == ACTIVE && JobId(id, round) in w.jobs
    ensures
      var c := w.store[id];
      && 1 <= round <= |c.members|
      && (Ineligible(w, w.jobs[JobId(id, round)].data, FAIR).None?
          <==> c.currentRound < round && !c.members[round - 1].hasReceivedPayout)
  {
    hide Inv, FindMember;
    JobDataIs(w, JobId(id, round));
    StoredCircle(w, id);
    FoundIsRecipient(w.store[id], round);
  }

  lemma NextCircle(firstRound: nat, c: Circle, before: Circle, k: nat)
    requires RosterOk(before) && 1 <= k <= |c.members| && CircleAt(firstRound, c, before, k - 1)
    requires k > firstRound
    ensures CircleAt(firstRound, c, Settle(before, before.members[k - 1].userId, Notified), k)
  {
    MarkedOne(before, k);
    var members' := MarkMembers(before.members, before.members[k - 1].userId);
    if firstRound > 0 {
      assert !members'[0].hasReceivedPayout;
    } else if k < |members'| {
      assert !members'[k].hasReceivedPayout;
    }
  }

  lemma NextRound(w: World, before: World, id: CircleId, k: nat)
    requires id in w.store && 1 <= k <= |w.store[id].members| && StandsAt(w, before, id, k - 1)
    ensures StandsAt(w, Process(before, JobId(id, k), FAIR), id, k)
  {
    hide Inv, Ineligible, Payouts, PayoutAmount, PayoutDate, FindMember, RosterOk, Settle;
    var j := JobId(id, k);
    InvProcess(before, j, FAIR);
    EligibleHere(before, id, k);
    if k > w.firstRound {
      JobDataIs(before, j);
      StoredCircle(before, id);
      NextCircle(w.firstRound, w.store[id], before.store[id], k);
      var data := before.jobs[j].data;
      SentLogged(before.log, Sent(id, k, PayeeOf(data), Notified));
    }
  }

  /**
    Fair attempts for the rounds 1..k of a launched circle pay, in order, exactly the positions after the first round,
    and complete the circle exactly when the first round is 0 and all n rounds were run.
   */
  lemma {:induction false} InOrderRun(w: World, id: CircleId, k: nat)
    requires Launched(w, id) && k <= |w.store[id].members|
    ensures StandsAt(w, Run(w, InRoundOrder(id, k)), id, k)
  {
    hide Inv, StandsAt, Step, Process, Payouts;
    if k == 0 {
      LaunchStandsAtZero(w, id);
    } else {
      InOrderRun(w, id, k - 1);
      NextRound(w, Run(w, InRoundOrder(id, k - 1)), id, k);
      RunAppend(w, InRoundOrder(id, k - 1), RunJob(JobId(id, k), FAIR));
      StepRunsJob(Run(w, InRoundOrder(id, k - 1)), JobId(id, k));
    }
  }

  lemma StepRunsJob(w: World, j: JobId)
    ensures Step(w, RunJob(j, FAIR)) == Process(w, j, FAIR)
  {
    hide Process;
  }

  lemma LaunchStandsAtZero(w: World, id: CircleId)
    requires Launched(w, id)
    ensures StandsAt(w, w, id, 0)
  {
    hide Payouts;
    StoredCircle(w, id);
  }
}
