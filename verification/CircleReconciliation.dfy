/** What one pass of reconciliation does to every circle of its list, and when it gets through. */
module CircleReconciliation {
  import opened PayoutDates
  import opened Circles
  import opened CircleInvariant
  import opened CircleSchedules
  import opened CircleTheorems

  /** The circle is ACTIVE, and the job of an unpaid member is gone or used up. */
  ghost predicate Misses(w: World, id: CircleId) {
    && id in w.store && w.store[id].status == ACTIVE
    && exists i :: 0 <= i < |w.store[id].members| && !w.store[id].members[i].hasReceivedPayout
                && (JobId(id, i + 1) !in w.jobs || w.jobs[JobId(id, i + 1)].state == Exhausted)
  }

  /** Some member's account lookup throws, or the final update does. */
  ghost predicate Breaks(c: Circle, env: Surroundings) {
    env.updateFails || exists i :: 0 <= i < |c.members| && c.members[i].userId in env.lookupFails
  }

  ghost predicate Throws(w: World, id: CircleId, env: Surroundings) {
    Misses(w, id) && Breaks(w.store[id], env)
  }

  /** The pass gets to this circle: nothing before it in the list throws. */
  ghost predicate Visited(w: World, ids: seq<CircleId>, env: Surroundings, id: CircleId) {
    exists i :: 0 <= i < |ids| && ids[i] == id && forall k :: 0 <= k < i ==> !Throws(w, ids[k], env)
  }

  /** The first payout date is stored if the scheduling got through. */
  ghost predicate DateStored(c: Circle, c': Circle, scheduled: bool, env: Surroundings) {
    c' == if scheduled && !Breaks(c, env) then c.(nextPayoutDate := PayoutDate(c.startDate, c.frequency, 1)) else c
  }

  /** Jobs that were there are as they were; a scheduled circle has a fresh one for each round it could queue. */
  ghost predicate JobsFilled(w: World, w': World, id: CircleId, scheduled: bool, env: Surroundings)
    requires id in w.store
  {
    var c := w.store[id];
    forall r: nat ::
      && (JobId(id, r) in w'.jobs <==>
            JobId(id, r) in w.jobs || (scheduled && 1 <= r <= |c.members| && Schedulable(c, r, env)))
      && (JobId(id, r) in w'.jobs ==>
            w'.jobs[JobId(id, r)] == if JobId(id, r) in w.jobs then w.jobs[JobId(id, r)] else FreshJob(id, c, r))
  }

  ghost predicate Reconciled(w: World, w': World, id: CircleId, scheduled: bool, env: Surroundings)
    requires id in w.store
  {
    id in w'.store && DateStored(w.store[id], w'.store[id], scheduled, env) && JobsFilled(w, w', id, scheduled, env)
  }

  // --- One circle ---

  lemma NeedsIff(w: World, id: CircleId)
    requires Inv(w)
    ensures NeedsReconciling(w, id) <==> Misses(w, id)
  {
    hide Inv, MissingRounds;
    if id in w.store { MissingMeans(w, id); }
  }

  lemma ReturnsIff(c: Circle, env: Surroundings)
    requires RosterOk(c)
    ensures SchedulingReturns(c, env) <==> !Breaks(c, env)
  {
    RosterIsSorted(c);
    RoundsReachedIs(c.members, env);
  }

  lemma StoredRoster(w: World, id: CircleId)
    requires Inv(w) && id in w.store
    ensures RosterOk(w.store[id]) && |w.store[id].members| >= 1
    ensures HasStarted(w.store[id]) ==> w.store[id].totalRounds == |w.store[id].members|
  {
    hide Inv;
    StoredCircle(w, id);
  }

  lemma ScheduledCircle(w: World, id: CircleId, env: Surroundings)
    requires Inv(w) && id in w.store && w.store[id].status == ACTIVE
    ensures
      var w' := ScheduleCirclePayouts(w, id, env);
      && Reconciled(w, w', id, true, env)
      && w'.store == w.store[id := w'.store[id]]
      && (forall j: JobId :: j.circleId != id ==>
            (j in w'.jobs <==> j in w.jobs) && (j in w.jobs ==> w'.jobs[j] == w.jobs[j]))
      && w' == w.(store := w'.store, jobs := w'.jobs)
  {
    hide Inv, ScheduleRounds, ActiveMembers, SortByPosition, SchedulingReturns, Schedulable, FreshJob, Breaks;
    hide RosterOk, PayoutDate;
    StoredRoster(w, id);
    RosterIsSorted(w.store[id]);
    ReturnsIff(w.store[id], env);
    ScheduledRoundsAre(w, id, env);
  }

  /** Everything but this circle is as it was. */
  ghost predicate OnlyCircle(w: World, w': World, id: CircleId) {
    && w'.store.Keys == w.store.Keys
    && (forall x :: x in w.store && x != id ==> w'.store[x] == w.store[x])
    && (forall j: JobId :: j.circleId != id ==>
          (j in w'.jobs <==> j in w.jobs) && (j in w.jobs ==> w'.jobs[j] == w.jobs[j]))
    && w' == w.(store := w'.store, jobs := w'.jobs)
  }

  lemma ReconciledCircle(w: World, id: CircleId, env: Surroundings)
    requires Inv(w)
    ensures OnlyCircle(w, ReconcileCircle(w, id, env), id)
    ensures id in w.store ==> Reconciled(w, ReconcileCircle(w, id, env), id, Misses(w, id), env)
    ensures
      id in w.store ==>
        (NeedsReconciling(w, id) ==> SchedulingReturns(w.store[id], env)) == !Throws(w, id, env)
    ensures id !in w.store ==> !NeedsReconciling(w, id) && !Misses(w, id)
  {
    hide Inv, MissingRounds, ScheduleCirclePayouts, Misses, Breaks, RosterOk, Schedulable, FreshJob, PayoutDate;
    hide SchedulingReturns;
    NeedsIff(w, id);
    if id in w.store {
      StoredRoster(w, id);
      ReturnsIff(w.store[id], env);
      if NeedsReconciling(w, id) { ScheduledCircle(w, id, env); }
    } else {
      assert !Misses(w, id) by { NeedsIff(w, id); }
    }
  }

  // --- The whole pass ---

  /** Every circle the pass got to and found missing a round was scheduled, and no other. */
  ghost predicate PassOk(w: World, w': World, ids: seq<CircleId>, env: Surroundings) {
    && w'.store.Keys == w.store.Keys
    && w' == w.(store := w'.store, jobs := w'.jobs)
    && (forall id :: id in w.store ==> Reconciled(w, w', id, Visited(w, ids, env, id) && Misses(w, id), env))
  }

  /** A circle the pass has not changed is still missing what it missed, and can throw as it could. */
  lemma StillMisses(w: World, w': World, id: CircleId, env: Surroundings)
    requires id in w.store && Reconciled(w, w', id, false, env)
    ensures Misses(w', id) <==> Misses(w, id)
    ensures Throws(w', id, env) <==> Throws(w, id, env)
  {
    hide Schedulable, FreshJob;
  }

  lemma StillBreaks(c: Circle, c': Circle, scheduled: bool, env: Surroundings)
    requires DateStored(c, c', scheduled, env)
    ensures Breaks(c', env) <==> Breaks(c, env)
  {
    hide PayoutDate;
  }

  lemma SameRounds(c: Circle, c': Circle, r: nat, env: Surroundings)
    requires c' == c.(nextPayoutDate := c'.nextPayoutDate) && 1 <= r <= |c.members|
    ensures Schedulable(c', r, env) <==> Schedulable(c, r, env)
    ensures forall id :: FreshJob(id, c', r) == FreshJob(id, c, r)
  {
    hide PayoutDate;
  }

  /** Scheduling a second time in the same surroundings changes nothing. */
  lemma AgainAddsNothing(w: World, w': World, w'': World, id: CircleId, again: bool, env: Surroundings)
    requires id in w.store && Reconciled(w, w', id, true, env) && Reconciled(w', w'', id, again, env)
    ensures Reconciled(w, w'', id, true, env)
  {
    hide Schedulable, FreshJob, Breaks, PayoutDate;
    var c, c' := w.store[id], w'.store[id];
    StillBreaks(c, c', true, env);
    forall r: nat | 1 <= r <= |c.members| { SameRounds(c, c', r, env); }
  }

  /** A circle that was left alone so far. */
  lemma FirstTime(w: World, w': World, w'': World, id: CircleId, scheduled: bool, env: Surroundings)
    requires id in w.store && Reconciled(w, w', id, false, env) && Reconciled(w', w'', id, scheduled, env)
    ensures Reconciled(w, w'', id, scheduled, env)
  {
    hide Schedulable, FreshJob, Breaks, PayoutDate;
  }

  /** The next circle of the list, which may have come up before. */
  lemma NextCircle(w: World, before: World, id: CircleId, seen: bool, env: Surroundings)
    requires Inv(before) && id in w.store && Reconciled(w, before, id, seen && Misses(w, id), env)
    requires seen ==> !Throws(w, id, env)
    ensures Reconciled(w, ReconcileCircle(before, id, env), id, Misses(w, id), env)
    ensures Throws(before, id, env) <==> Throws(w, id, env)
  {
    hide Inv, ReconcileCircle, Reconciled, Misses, Breaks;
    var after := ReconcileCircle(before, id, env);
    assert id in before.store by { InStore(w, before, id, seen && Misses(w, id), env); }
    ReconciledCircle(before, id, env);
    if seen && Misses(w, id) {
      AgainAddsNothing(w, before, after, id, Misses(before, id), env);
      DatesKeepBreaks(w, before, id, true, env);
    } else {
      StillMisses(w, before, id, env);
      FirstTime(w, before, after, id, Misses(w, id), env);
    }
  }

  lemma InStore(w: World, w': World, id: CircleId, scheduled: bool, env: Surroundings)
    requires id in w.store && Reconciled(w, w', id, scheduled, env)
    ensures id in w'.store
  {
  }

  lemma DatesKeepBreaks(w: World, w': World, id: CircleId, scheduled: bool, env: Surroundings)
    requires id in w.store && Reconciled(w, w', id, scheduled, env)
    ensures id in w'.store && (Breaks(w'.store[id], env) <==> Breaks(w.store[id], env))
  {
    hide Breaks, JobsFilled;
    StillBreaks(w.store[id], w'.store[id], scheduled, env);
  }

  /** Other circles are not affected. */
  lemma OtherCircle(
      w: World, before: World, after: World, id: CircleId, x: CircleId, scheduled: bool, env: Surroundings)
    requires OnlyCircle(before, after, id) && x != id && x in w.store && Reconciled(w, before, x, scheduled, env)
    ensures Reconciled(w, after, x, scheduled, env)
  {
    hide Schedulable, FreshJob, Breaks, PayoutDate;
  }

  /** Which circles are visited when the list is one longer. */
  lemma VisitedOneMore(w: World, ids: seq<CircleId>, env: Surroundings, n: nat, x: CircleId)
    requires |ids| == n + 1
    ensures
      var clear := forall k :: 0 <= k < n ==> !Throws(w, ids[k], env);
      && (Visited(w, ids, env, x) <==> Visited(w, ids[..n], env, x) || (clear && x == ids[n]))
      && (Visited(w, ids[..n], env, x) && clear ==> !Throws(w, x, env))
  {
    hide Throws;
    if i :| 0 <= i < |ids| && ids[i] == x && forall k :: 0 <= k < i ==> !Throws(w, ids[k], env) {
      if i < n { assert ids[..n][i] == x; }
    }
    if i :| 0 <= i < n && ids[..n][i] == x && forall k :: 0 <= k < i ==> !Throws(w, ids[..n][k], env) {
      assert ids[i] == x && forall k :: 0 <= k < i ==> ids[k] == ids[..n][k];
    }
    if (forall k :: 0 <= k < n ==> !Throws(w, ids[k], env)) && x == ids[n] {
      assert ids[n] == x;
    }
  }

  lemma {:induction false} PassIs(w: World, ids: seq<CircleId>, env: Surroundings)
    requires Inv(w)
    ensures
      var (w', finished) := Reconcile(w, ids, env);
      && Inv(w') && PassOk(w, w', ids, env)
      && (finished <==> forall i :: 0 <= i < |ids| ==> !Throws(w, ids[i], env))
    decreases |ids|
  {
    hide Inv, ReconcileCircle, NeedsReconciling, SchedulingReturns, Throws, Reconciled, Visited, Misses, PassOk;
    if ids == [] {
      NothingVisited(w, env);
    } else {
      var n := |ids| - 1;
      var (before, going) := Reconcile(w, ids[..n], env);
      PassIs(w, ids[..n], env);
      assert forall k :: 0 <= k < n ==> ids[..n][k] == ids[k];
      if going {
        OneMoreCircle(w, before, ids, n, env);
      } else {
        assert exists k :: 0 <= k < n && Throws(w, ids[k], env);
        StoppedBefore(w, before, ids, n, env);
      }
    }
  }

  lemma NothingVisited(w: World, env: Surroundings)
    ensures PassOk(w, w, [], env)
  {
    hide Schedulable, FreshJob, Breaks, PayoutDate, Misses;
  }

  lemma StoppedBefore(w: World, before: World, ids: seq<CircleId>, n: nat, env: Surroundings)
    requires |ids| == n + 1 && PassOk(w, before, ids[..n], env) && exists k :: 0 <= k < n && Throws(w, ids[k], env)
    ensures PassOk(w, before, ids, env)
  {
    hide Throws, Reconciled, Visited, Misses;
    forall x | x in w.store ensures Reconciled(w, before, x, Visited(w, ids, env, x) && Misses(w, x), env) {
      VisitedOneMore(w, ids, env, n, x);
    }
  }

  lemma OneMoreCircle(w: World, before: World, ids: seq<CircleId>, n: nat, env: Surroundings)
    requires |ids| == n + 1 && Inv(before) && PassOk(w, before, ids[..n], env)
    requires forall k :: 0 <= k < n ==> !Throws(w, ids[k], env)
    ensures
      var after := ReconcileCircle(before, ids[n], env);
      && Inv(after) && PassOk(w, after, ids, env)
      && (NeedsReconciling(before, ids[n]) ==> ids[n] in before.store)
      && ((NeedsReconciling(before, ids[n]) ==> SchedulingReturns(before.store[ids[n]], env))
          <==> !Throws(w, ids[n], env))
  {
    hide Inv, ReconcileCircle, NeedsReconciling, SchedulingReturns, Throws, Reconciled, Visited, Misses;
    var id, after := ids[n], ReconcileCircle(before, ids[n], env);
    InvReconcileCircle(before, id, env);
    ReconciledCircle(before, id, env);
    VisitedOneMore(w, ids, env, n, id);
    if id in w.store {
      NextCircle(w, before, id, Visited(w, ids[..n], env, id), env);
    } else {
      UnknownNeverThrows(w, id, env);
    }
    forall x | x in w.store ensures Reconciled(w, after, x, Visited(w, ids, env, x) && Misses(w, x), env) {
      VisitedOneMore(w, ids, env, n, x);
      if x != id {
        OtherCircle(w, before, after, id, x, Visited(w, ids[..n], env, x) && Misses(w, x), env);
      }
    }
  }

  lemma UnknownNeverThrows(w: World, id: CircleId, env: Surroundings)
    requires id !in w.store
    ensures !Throws(w, id, env)
  {
  }

  // --- Theorems ---

  /**
    From every reachable state, for any list and any surroundings: the pass finishes exactly if none of its circles
    throws. It schedules the circles that miss a round, up to and including the first that throws: those keep their
    jobs and get a fresh one for each round that can be queued, and the others are left as they are.
   */
  lemma ReconciliationQueuesExactly(
      firstRound: nat, actions: seq<Action>, ids: seq<CircleId>, env: Surroundings)
    ensures
      var w := Reached(firstRound, actions);
      var (w', finished) := Reconcile(w, ids, env);
      && (finished <==> forall i :: 0 <= i < |ids| ==> !Throws(w, ids[i], env))
      && PassOk(w, w', ids, env)
  {
    hide Inv, Run, Reconcile, PassOk, Throws;
    ReachableInv(firstRound, actions);
    PassIs(Reached(firstRound, actions), ids, env);
  }

  /** With nothing in the way the pass goes through the whole list, and no ACTIVE circle of it is left without a job. */
  lemma ReconciliationReachesEveryCircle(
      firstRound: nat, actions: seq<Action>, ids: seq<CircleId>, env: Surroundings)
    requires
      var w := Reached(firstRound, actions);
      forall id :: id in ids && id in w.store ==> AllClear(w.store[id], env)
    ensures
      var w := Reached(firstRound, actions);
      var (w', finished) := Reconcile(w, ids, env);
      && finished
      && (forall id :: id in ids && Misses(w, id) ==> id in w'.store && FullyQueued(w'.jobs, id, w'.store[id]))
      && (forall id :: id in ids && Misses(w, id) ==>
            w'.store[id].nextPayoutDate == PayoutDate(w.store[id].startDate, w.store[id].frequency, 1))
  {
    hide Inv, Run, Reconcile, PassOk, Throws, Misses, AllClear, FullyQueued, Visited;
    ReachableInv(firstRound, actions);
    var w := Reached(firstRound, actions);
    var w' := Reconcile(w, ids, env).0;
    PassIs(w, ids, env);
    forall i | 0 <= i < |ids| ensures !Throws(w, ids[i], env) {
      if ids[i] in w.store { ClearNeverThrows(w, ids[i], env); } else { UnknownNeverThrows(w, ids[i], env); }
    }
    forall id | id in ids && Misses(w, id) ensures
      && id in w.store && id in w'.store && FullyQueued(w'.jobs, id, w'.store[id])
      && w'.store[id].nextPayoutDate == PayoutDate(w.store[id].startDate, w.store[id].frequency, 1)
    {
      MissingIsStored(w, id);
      ListedIsVisited(w, ids, env, id);
      FilledIsFull(w, w', ids, id, env);
    }
  }

  lemma MissingIsStored(w: World, id: CircleId)
    requires Misses(w, id)
    ensures id in w.store
  {
  }

  lemma ClearNeverThrows(w: World, id: CircleId, env: Surroundings)
    requires Inv(w) && id in w.store && AllClear(w.store[id], env)
    ensures !Throws(w, id, env) && !Breaks(w.store[id], env)
  {
    hide Inv, Misses;
    StoredRoster(w, id);
    assert Schedulable(w.store[id], |w.store[id].members|, env);
  }

  lemma ListedIsVisited(w: World, ids: seq<CircleId>, env: Surroundings, id: CircleId)
    requires id in ids && forall i :: 0 <= i < |ids| ==> !Throws(w, ids[i], env)
    ensures Visited(w, ids, env, id)
  {
    hide Throws;
    var i :| 0 <= i < |ids| && ids[i] == id;
  }

  lemma FilledIsFull(w: World, w': World, ids: seq<CircleId>, id: CircleId, env: Surroundings)
    requires Inv(w) && id in w.store && AllClear(w.store[id], env)
    requires PassOk(w, w', ids, env) && Visited(w, ids, env, id) && Misses(w, id)
    ensures id in w'.store && FullyQueued(w'.jobs, id, w'.store[id])
    ensures w'.store[id].nextPayoutDate == PayoutDate(w.store[id].startDate, w.store[id].frequency, 1)
  {
    hide Inv, Visited, Misses, Schedulable, FreshJob, PayoutDate, Breaks;
    assert Reconciled(w, w', id, true, env);
    ClearNeverThrows(w, id, env);
  }
}
