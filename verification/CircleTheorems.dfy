/** What the backend guarantees over whole runs: who is paid, how often, in what order, and when a circle completes. */
module CircleTheorems {
  import opened Counting
  import opened Options
  import opened Calendar
  import opened PayoutDates
  import opened Circles
  import opened CircleInvariant
  import opened CircleFutures
  import opened CircleProgress
  import opened CircleSchedules

  ghost function Reached(firstRound: nat, actions: seq<Action>): World {
    Run(StartWith(firstRound), actions)
  }

  lemma ReachedInv(firstRound: nat, actions: seq<Action>, id: CircleId)
    ensures Inv(Reached(firstRound, actions)) && Reached(firstRound, actions).firstRound == firstRound
    ensures
      var w := Reached(firstRound, actions);
      id in w.store ==>
        && RosterOk(w.store[id])
        && LifecycleOk(w.store[id], firstRound, Activations(w.log, id), Starts(w.log, id))
        && PaymentsOk(firstRound, w.store[id], Payouts(w.log, id))
        && CacheOk(w.cache, id, w.store[id])
  {
    hide RosterOk, LifecycleOk, PaymentsOk, CacheOk, JobsOk, Run, Payouts, Activations, Starts;
    ReachableInv(firstRound, actions);
  }

  // --- Rosters and lifecycle ---

  /** Circles made by create and join: distinct members at positions 1..n, never overfull, headed by the creator. */
  lemma RostersAreOrderly(firstRound: nat, actions: seq<Action>, id: CircleId)
    requires id in Reached(firstRound, actions).store
    ensures
      var c := Reached(firstRound, actions).store[id];
      && 1 <= |c.members| <= c.maxMembers <= 50
      && c.members[0].userId == c.creatorId
      && (forall i, j :: 0 <= i < j < |c.members| ==> c.members[i].userId != c.members[j].userId)
      && |SortByPosition(ActiveMembers(c.members))| == |c.members|
      && (forall k :: 0 <= k < |c.members| ==> SortByPosition(ActiveMembers(c.members))[k].position == k + 1)
  {
    hide Reached, PaymentsOk, LifecycleOk, CacheOk, Inv;
    ReachedInv(firstRound, actions, id);
    RosterIsSorted(Reached(firstRound, actions).store[id]);
  }

  /** activateCircle and startCircle each succeed at most once per circle, and the status says which have. */
  lemma LifecycleHappensOnce(firstRound: nat, actions: seq<Action>, id: CircleId)
    ensures
      var w := Reached(firstRound, actions);
      && Starts(w.log, id) <= Activations(w.log, id) <= 1
      && (Activations(w.log, id) == 1 <==> id in w.store && w.store[id].status != PENDING)
      && (Starts(w.log, id) == 1 <==> id in w.store && HasStarted(w.store[id]))
  {
    hide Reached, PaymentsOk, RosterOk, CacheOk, Activations, Starts, CircleInv;
    ReachedInv(firstRound, actions, id);
  }

  /**
    A cached circle has the stored settings, contract address, member ids and positions; its status can only lag
    at ACTIVE.
   */
  lemma CacheAgreesWithStore(firstRound: nat, actions: seq<Action>, id: CircleId)
    requires id in Reached(firstRound, actions).cache
    ensures
      var w := Reached(firstRound, actions);
      && id in w.store
      && var cached, stored := w.cache[id], w.store[id];
      && cached.contractAddress == stored.contractAddress
      && cached.creatorId == stored.creatorId
      && cached.amount == stored.amount && cached.frequency == stored.frequency
      && cached.gracePeriodDays == stored.gracePeriodDays && cached.maxMembers == stored.maxMembers
      && cached.startDate == stored.startDate && cached.chain == stored.chain
      && |cached.members| == |stored.members|
      && (forall i :: 0 <= i < |stored.members| ==>
            && cached.members[i].userId == stored.members[i].userId
            && cached.members[i].position == stored.members[i].position)
      && (cached.status != stored.status ==> cached.status == ACTIVE && stored.status == COMPLETED)
  {
    hide Reached, PaymentsOk, LifecycleOk, RosterOk, CircleInv;
    ReachedInv(firstRound, actions, id);
  }

  // --- Payments ---

  /** Transfers that went straight to a user. */
  ghost function TransfersTo(ps: seq<Event>, user: UserId): nat {
    if ps == [] then 0
    else
      var last := ps[|ps| - 1];
      TransfersTo(ps[..|ps| - 1], user)
      + if last.Sent? && last.payee.Direct? && last.payee.recipient == user then 1 else 0
  }

  /** On NEAR a member is sent what the jobs of its round send. */
  lemma {:induction false} TransfersAreRoundPayouts(firstRound: nat, c: Circle, ps: seq<Event>, i: nat)
    requires RosterOk(c) && c.chain == NEAR && PayeesOk(firstRound, c, ps) && i < |c.members|
    ensures TransfersTo(ps, c.members[i].userId) == RoundPayouts(ps, i + 1)
  {
    hide PayoutAmount;
    if ps != [] {
      var last := ps[|ps| - 1];
      TransfersAreRoundPayouts(firstRound, c, ps[..|ps| - 1], i);
      assert last.payee.recipient == c.members[i].userId <==> last.round == i + 1;
    }
  }

  /**
    The payouts made for a round are exactly the attempts that stopped between the payout and the mark, and one more
    once its member is marked. With no such attempt, at most one.
   */
  lemma RoundPayoutsAreMarksAndLosses(firstRound: nat, actions: seq<Action>, id: CircleId, i: nat)
    requires id in Reached(firstRound, actions).store
    requires i < |Reached(firstRound, actions).store[id].members|
    ensures
      var w := Reached(firstRound, actions);
      var m, ps := w.store[id].members[i], Payouts(w.log, id);
      && RoundPayouts(ps, i + 1) == LostPayouts(ps, i + 1) + (if m.hasReceivedPayout then 1 else 0)
      && (LostPayouts(ps, i + 1) == 0 ==> RoundPayouts(ps, i + 1) <= 1)
  {
    hide Reached, LifecycleOk, MarksOk, PayeesOk, ClimbOk, CompletionOk, CacheOk, Inv, Payouts, RoundPayouts;
    hide LostPayouts;
    ReachedInv(firstRound, actions, id);
  }

  /** On NEAR, where the job names the recipient, this counts the transfers to the member itself. */
  lemma TransfersAreMarksAndLosses(firstRound: nat, actions: seq<Action>, id: CircleId, i: nat)
    requires id in Reached(firstRound, actions).store && Reached(firstRound, actions).store[id].chain == NEAR
    requires i < |Reached(firstRound, actions).store[id].members|
    ensures
      var w := Reached(firstRound, actions);
      var m, ps := w.store[id].members[i], Payouts(w.log, id);
      && TransfersTo(ps, m.userId) == LostPayouts(ps, i + 1) + (if m.hasReceivedPayout then 1 else 0)
      && (LostPayouts(ps, i + 1) == 0 ==> TransfersTo(ps, m.userId) <= 1)
  {
    hide Reached, LifecycleOk, MarksOk, PayeesOk, RoundPayoutsOk, ClimbOk, CompletionOk, CacheOk, RosterOk;
    hide Inv, Payouts, RoundPayouts, LostPayouts, TransfersTo;
    ReachedInv(firstRound, actions, id);
    var w := Reached(firstRound, actions);
    RoundPayoutsAreMarksAndLosses(firstRound, actions, id, i);
    TransfersAreRoundPayouts(firstRound, w.store[id], Payouts(w.log, id), i);
  }

  /** The payee the chain has the backend name: on NEAR the member and the pot, on Base nobody. */
  function NamedPayee(c: Circle, round: nat): Payee
    requires 1 <= round <= |c.members|
  {
    if c.chain == NEAR then Direct(c.members[round - 1].userId, c.amount * |c.members| as real) else ByContract
  }

  lemma PayeesAreNamed(firstRound: nat, c: Circle, ps: seq<Event>)
    requires RosterOk(c) && PayeesOk(firstRound, c, ps)
    ensures
      forall k :: 0 <= k < |ps| ==>
        && firstRound < ps[k].round <= |c.members|
        && c.members[ps[k].round - 1].position == ps[k].round
        && ps[k].payee == NamedPayee(c, ps[k].round)
  {
    RosterIsSorted(c);
  }

  /**
    On NEAR every payout goes to the member at the round's position and is one contribution per member. On Base it is
    a call that names neither.
   */
  lemma PayoutsGoByChain(firstRound: nat, actions: seq<Action>, id: CircleId)
    requires id in Reached(firstRound, actions).store
    ensures
      var w := Reached(firstRound, actions);
      var c, ps := w.store[id], Payouts(w.log, id);
      forall k :: 0 <= k < |ps| ==>
        && firstRound < ps[k].round <= |c.members|
        && c.members[ps[k].round - 1].position == ps[k].round
        && ps[k].payee == NamedPayee(c, ps[k].round)
  {
    hide Reached, LifecycleOk, MarksOk, RoundPayoutsOk, ClimbOk, CompletionOk, CacheOk, Inv, Payouts, PayeesOk;
    hide RosterOk;
    hide NamedPayee;
    ReachedInv(firstRound, actions, id);
    var w := Reached(firstRound, actions);
    PayeesAreNamed(firstRound, w.store[id], Payouts(w.log, id));
  }

  ghost function PaidPositions(members: seq<Member>): set<nat> {
    set i | 0 <= i < |members| && members[i].hasReceivedPayout :: i + 1
  }

  lemma PaidPositionsAreMarked(firstRound: nat, members: seq<Member>, marked: seq<nat>)
    requires MarksOk(firstRound, members, marked)
    ensures PaidPositions(members) == Elements(marked)
    ensures |PaidPositions(members)| == |marked|
  {
    DistinctCard(marked);
    forall p ensures p in PaidPositions(members) <==> p in marked {
      if p in marked {
        var k :| 0 <= k < |marked| && marked[k] == p;
        assert members[p - 1].hasReceivedPayout;
      }
    }
  }

  /** The round counter counts the paid members, except for attempts that stopped between the mark and the advance. */
  lemma RoundCountsPaidMembers(firstRound: nat, actions: seq<Action>, id: CircleId)
    requires id in Reached(firstRound, actions).store
    requires HasStarted(Reached(firstRound, actions).store[id])
    ensures
      var w := Reached(firstRound, actions);
      w.store[id].currentRound + Stalled(Payouts(w.log, id)) == firstRound + |PaidPositions(w.store[id].members)|
  {
    hide Reached, LifecycleOk, MarksOk, RoundPayoutsOk, PayeesOk, ClimbOk, RosterOk, CacheOk, Inv, Payouts, Stalled;
    hide MarkedRounds;
    ReachedInv(firstRound, actions, id);
    var w := Reached(firstRound, actions);
    PaidPositionsAreMarked(firstRound, w.store[id].members, MarkedRounds(Payouts(w.log, id)));
  }

  lemma {:induction false} NoPayouts(ps: seq<Event>, round: nat)
    requires forall i :: 0 <= i < |ps| ==> ps[i].Sent? && ps[i].round != round
    ensures RoundPayouts(ps, round) == 0
  {
    if ps != [] { NoPayouts(ps[..|ps| - 1], round); }
  }

  /**
    A circle that starts at round `firstRound` never pays the rounds up to that one and leaves their members unmarked
    for good; on NEAR those members are never sent anything.
   */
  lemma EarlyPositionsAreNeverPaid(firstRound: nat, actions: seq<Action>, id: CircleId, i: nat)
    requires id in Reached(firstRound, actions).store
    requires i < firstRound && i < |Reached(firstRound, actions).store[id].members|
    ensures
      var w := Reached(firstRound, actions);
      var c, ps := w.store[id], Payouts(w.log, id);
      && !c.members[i].hasReceivedPayout && RoundPayouts(ps, i + 1) == 0
      && (c.chain == NEAR ==> TransfersTo(ps, c.members[i].userId) == 0)
      && c.status != COMPLETED
  {
    hide Reached, LifecycleOk, RoundPayoutsOk, ClimbOk, CacheOk, Inv, Payouts, PayoutAmount, RoundPayouts, MarkedRounds;
    hide TransfersTo, GotToCheck;
    ReachedInv(firstRound, actions, id);
    var w := Reached(firstRound, actions);
    NoPayouts(Payouts(w.log, id), i + 1);
    if w.store[id].chain == NEAR { TransfersAreRoundPayouts(firstRound, w.store[id], Payouts(w.log, id), i); }
  }

  /** So at most n - firstRound members are ever paid. */
  lemma PaidMembersBound(firstRound: nat, actions: seq<Action>, id: CircleId)
    requires id in Reached(firstRound, actions).store
    ensures
      var c := Reached(firstRound, actions).store[id];
      |PaidPositions(c.members)| <= if firstRound <= |c.members| then |c.members| - firstRound else 0
  {
    hide Reached, LifecycleOk, RoundPayoutsOk, ClimbOk, PayeesOk, RosterOk, CacheOk, Inv, Payouts, MarkedRounds;
    hide Stalled;
    ReachedInv(firstRound, actions, id);
    var w := Reached(firstRound, actions);
    var c := w.store[id];
    assert MarksOk(firstRound, c.members, MarkedRounds(Payouts(w.log, id)));
    PaidPositionsAreMarked(firstRound, c.members, MarkedRounds(Payouts(w.log, id)));
    SubsetCard(PaidPositions(c.members), Interval(firstRound, |c.members|));
  }

  /** The rounds after `low` up to `high`. */
  ghost function Interval(low: nat, high: nat): (s: set<nat>)
    ensures forall p: nat :: p in s <==> low < p <= high
    ensures |s| == if low <= high then high - low else 0
  {
    if high <= low then {} else Interval(low, high - 1) + {high}
  }

  /**
    As written, with startCircle setting round 1: the creator's round is never paid and the creator never marked, no
    circle completes, and on NEAR the creator is never sent a payout.
   */
  lemma AsWrittenTheFirstRoundIsNeverPaid(actions: seq<Action>, id: CircleId)
    requires id in Reached(FIRST_ROUND, actions).store
    ensures
      var w := Reached(FIRST_ROUND, actions);
      var c, ps := w.store[id], Payouts(w.log, id);
      && c.members != [] && c.members[0].userId == c.creatorId
      && !c.members[0].hasReceivedPayout && RoundPayouts(ps, 1) == 0
      && (c.chain == NEAR ==> TransfersTo(ps, c.creatorId) == 0)
      && c.status != COMPLETED
      && |PaidPositions(c.members)| <= |c.members| - 1
  {
    hide Reached, LifecycleOk, PaymentsOk, CacheOk, Inv, Payouts, RoundPayouts, TransfersTo, PaidPositions;
    ReachedInv(FIRST_ROUND, actions, id);
    EarlyPositionsAreNeverPaid(FIRST_ROUND, actions, id, 0);
    PaidMembersBound(FIRST_ROUND, actions, id);
  }

  /**
    A completed circle started at round 0 and marked every member paid; every round was paid, once where no attempt
    was lost.
   */
  lemma CompletionPaysEveryone(firstRound: nat, actions: seq<Action>, id: CircleId)
    requires id in Reached(firstRound, actions).store
    requires Reached(firstRound, actions).store[id].status == COMPLETED
    ensures
      var w := Reached(firstRound, actions);
      var c, ps := w.store[id], Payouts(w.log, id);
      && firstRound == 0
      && (forall i :: 0 <= i < |c.members| ==>
            && c.members[i].hasReceivedPayout
            && RoundPayouts(ps, i + 1) == LostPayouts(ps, i + 1) + 1
            && (c.chain == NEAR ==> TransfersTo(ps, c.members[i].userId) == LostPayouts(ps, i + 1) + 1))
  {
    hide Reached, LifecycleOk, MarksOk, RoundPayoutsOk, ClimbOk, PayeesOk, CacheOk, Inv, Payouts;
    hide RoundPayouts, LostPayouts, TransfersTo, GotToCheck;
    ReachedInv(firstRound, actions, id);
    var w := Reached(firstRound, actions);
    var c, ps := w.store[id], Payouts(w.log, id);
    if firstRound > 0 {
      EarlyPositionsAreNeverPaid(firstRound, actions, id, 0);
    }
    forall i | 0 <= i < |c.members| ensures
      && c.members[i].hasReceivedPayout
      && RoundPayouts(ps, i + 1) == LostPayouts(ps, i + 1) + 1
      && (c.chain == NEAR ==> TransfersTo(ps, c.members[i].userId) == LostPayouts(ps, i + 1) + 1)
    {
      RoundPayoutsAreMarksAndLosses(firstRound, actions, id, i);
      if c.chain == NEAR { TransfersAreMarksAndLosses(firstRound, actions, id, i); }
    }
  }

  /**
    With no attempt stopped between mark and advance, everyone is paid exactly when the payouts came in round order.
   */
  lemma EveryonePaidIffInOrder(actions: seq<Action>, id: CircleId)
    requires id in Reached(0, actions).store
    requires Stalled(Payouts(Reached(0, actions).log, id)) == 0
    ensures
      var w := Reached(0, actions);
      var n, marked := |w.store[id].members|, MarkedRounds(Payouts(w.log, id));
      !SomeoneUnpaid(w.store[id].members) <==> marked == seq(n, k => k + 1)
  {
    hide Reached, LifecycleOk, RoundPayoutsOk, PayeesOk, CacheOk, Inv, Payouts, Stalled, MarkedRounds;
    ReachedInv(0, actions, id);
    var w := Reached(0, actions);
    InOrder(w.store[id], MarkedRounds(Payouts(w.log, id)));
  }

  lemma AllPaidInOrder(c: Circle, marked: seq<nat>)
    requires MarksOk(0, c.members, marked) && ClimbOk(0, marked, 0)
    requires forall i :: 0 <= i < |c.members| ==> c.members[i].hasReceivedPayout
    ensures marked == seq(|c.members|, k => k + 1)
  {
    var n := |c.members|;
    PaidPositionsAreMarked(0, c.members, marked);
    forall p | p in Interval(0, n) ensures p in PaidPositions(c.members) {
      assert c.members[p - 1].hasReceivedPayout;
    }
    SubsetCard(Interval(0, n), PaidPositions(c.members));
    SubsetCard(PaidPositions(c.members), Interval(0, n));
    ClimbingPicksAreSorted(marked);
  }

  lemma InOrder(c: Circle, marked: seq<nat>)
    requires RosterOk(c) && MarksOk(0, c.members, marked) && ClimbOk(0, marked, 0)
    ensures !SomeoneUnpaid(c.members) <==> marked == seq(|c.members|, k => k + 1)
  {
    if !SomeoneUnpaid(c.members) {
      AllPaidInOrder(c, marked);
    } else {
      var n := |c.members|;
      var i :| 0 <= i < n && c.members[i].status == ActiveMember && !c.members[i].hasReceivedPayout;
      assert |marked| == n ==> marked[i] != i + 1;
    }
  }

  // --- What never goes back, and what can no longer happen ---

  /** One step moves a status at most one stage on: PENDING, RECRUITING, ACTIVE, COMPLETED. */
  lemma StatusMovesOneStage(firstRound: nat, actions: seq<Action>, a: Action, id: CircleId)
    requires id in Reached(firstRound, actions).store
    ensures
      var w := Reached(firstRound, actions);
      id in Step(w, a).store && NextStatus(w.store[id].status, Step(w, a).store[id].status)
  {
    hide Inv, Run, Step, NextStatus;
    ReachableInv(firstRound, actions);
    StepMovesForward(Reached(firstRound, actions), a, id);
  }

  /** Over any continuation the status never goes back, and members keep their positions and their marks. */
  lemma ProgressIsKept(firstRound: nat, actions: seq<Action>, more: seq<Action>, id: CircleId)
    requires id in Reached(firstRound, actions).store
    ensures
      var w, later := Reached(firstRound, actions), Reached(firstRound, actions + more);
      && id in later.store
      && Stage(w.store[id].status) <= Stage(later.store[id].status)
      && MembersKept(w.store[id].members, later.store[id].members)
  {
    hide Inv, Run, MembersKept, Stage;
    ReachableInv(firstRound, actions);
    RunTwice(StartWith(firstRound), actions, more);
    RunsMoveForward(Reached(firstRound, actions), more, id);
  }

  /** Once a member is marked paid, no later job for that member is ever eligible, whatever else happens. */
  lemma MarkedMembersAreSafe(firstRound: nat, actions: seq<Action>, more: seq<Action>, j: JobId, weather: Weather)
    requires j.circleId in Reached(firstRound, actions).store
    requires 1 <= j.round <= |Reached(firstRound, actions).store[j.circleId].members|
    requires Reached(firstRound, actions).store[j.circleId].members[j.round - 1].hasReceivedPayout
    ensures
      var later := Reached(firstRound, actions + more);
      j in later.jobs ==> Ineligible(later, later.jobs[j].data, weather).Some?
  {
    hide Inv, Run, Ineligible;
    ReachableInv(firstRound, actions);
    RunTwice(StartWith(firstRound), actions, more);
    MarkedMembersAreNeverEligible(Reached(firstRound, actions), more, j, weather);
  }

  /**
    Once everyone is paid, the circle is complete exactly if the last attempt that paid got to the completion check,
    and whichever it is stays so. Only circles started at round 0 get there.
   */
  lemma PaidUpCirclesAreDecided(firstRound: nat, actions: seq<Action>, more: seq<Action>, id: CircleId)
    requires id in Reached(firstRound, actions).store && HasStarted(Reached(firstRound, actions).store[id])
    requires !SomeoneUnpaid(Reached(firstRound, actions).store[id].members)
    ensures
      var ps, later := Payouts(Reached(firstRound, actions).log, id), Reached(firstRound, actions + more);
      && firstRound == 0 && ps != [] && id in later.store
      && (later.store[id].status == COMPLETED <==> ps[|ps| - 1].reach.Rank() >= Checked.Rank())
  {
    hide Inv, Run, MarksOk, RoundPayoutsOk, ClimbOk, PayeesOk, CacheOk, Payouts, Activations, Starts;
    ReachedInv(firstRound, actions, id);
    RunTwice(StartWith(firstRound), actions, more);
    var w := Reached(firstRound, actions);
    if firstRound > 0 { EarlyPositionsAreNeverPaid(firstRound, actions, id, 0); }
    if w.store[id].status == ACTIVE {
      PaidUpCirclesStayActive(w, more, id);
    } else {
      RunsMoveForward(w, more, id);
      ReachedInv(firstRound, actions + more, id);
    }
  }

  /**
    The exact condition for another payout of a round, and so for a second one after a first: some future makes it
    exactly if the circle is ACTIVE, the round lies ahead, its member is unmarked and its job is not used up.
   */
  lemma PayoutIsPossibleIff(firstRound: nat, actions: seq<Action>, id: CircleId, round: nat)
    requires id in Reached(firstRound, actions).store && HasStarted(Reached(firstRound, actions).store[id])
    requires 1 <= round <= |Reached(firstRound, actions).store[id].members|
    ensures
      var w := Reached(firstRound, actions);
      (exists more ::
         RoundPayouts(Payouts(Run(w, more).log, id), round) > RoundPayouts(Payouts(w.log, id), round))
      <==> (&& w.store[id].status == ACTIVE && w.store[id].currentRound < round
            && !w.store[id].members[round - 1].hasReceivedPayout
            && (JobId(id, round) in w.jobs ==> w.jobs[JobId(id, round)].state != Exhausted))
  {
    hide Inv, Run, Payouts, RoundPayouts;
    ReachableInv(firstRound, actions);
    RoundIsPaidAgainIff(Reached(firstRound, actions), id, round);
  }

  /**
    The exact condition for completion: some future completes a started circle exactly if it is complete, or someone
    is unmarked and every unmarked member's round lies ahead with its job not used up. A future in which nothing goes
    wrong is then enough.
   */
  lemma CompletionIsPossibleIff(firstRound: nat, actions: seq<Action>, id: CircleId)
    requires id in Reached(firstRound, actions).store && HasStarted(Reached(firstRound, actions).store[id])
    ensures
      var w := Reached(firstRound, actions);
      (exists more :: id in Run(w, more).store && Run(w, more).store[id].status == COMPLETED)
      <==> w.store[id].status == COMPLETED || Completable(w, id)
    ensures
      var w := Reached(firstRound, actions);
      w.store[id].status == COMPLETED || Completable(w, id) ==>
        exists more ::
          && (forall a :: a in more ==> FaultFree(a))
          && id in Run(w, more).store && Run(w, more).store[id].status == COMPLETED
  {
    hide Inv, Run, Completable, FaultFree;
    ReachableInv(firstRound, actions);
    CompletesIff(Reached(firstRound, actions), id);
  }

  /**
    A round whose job used up its attempts before the round was paid stays that way over any continuation: its member
    is never paid and the circle never completes, whatever is rescheduled or reconciled.
   */
  lemma UsedUpRoundsAreFinal(firstRound: nat, actions: seq<Action>, more: seq<Action>, j: JobId)
    requires DeadRound(Reached(firstRound, actions), j)
    ensures DeadRound(Reached(firstRound, actions + more), j)
  {
    hide Inv, Run, DeadRound;
    ReachableInv(firstRound, actions);
    RunTwice(StartWith(firstRound), actions, more);
    DeadRoundsAreNeverPaid(Reached(firstRound, actions), more, j);
  }

  /**
    An eligible attempt makes one payout if it gets that far, and its job passes the same check again exactly if it
    does not get to the mark. So a second payout follows exactly an attempt that stopped in between.
   */
  lemma PayableAgainIffUnmarked(firstRound: nat, actions: seq<Action>, j: JobId, weather: Weather)
    requires
      var w := Reached(firstRound, actions);
      j in w.jobs && w.jobs[j].state == Waiting && Ineligible(w, w.jobs[j].data, weather).None?
    ensures
      var w, later := Reached(firstRound, actions), Reached(firstRound, actions + [RunJob(j, weather)]);
      var job := w.jobs[j];
      && Payouts(later.log, j.circleId)
         == Payouts(w.log, j.circleId)
            + (if weather.reach.Rank() >= Transferred.Rank()
               then [Sent(j.circleId, j.round, PayeeOf(job.data), weather.reach)] else [])
      && j in later.jobs && later.jobs[j].data == job.data
      && (later.jobs[j].state == Waiting <==>
            weather.dies || (weather.reach != Notified && job.attemptsMade + 1 < MAX_ATTEMPTS))
      && (Ineligible(later, job.data, weather).None? <==> weather.reach.Rank() < Marked.Rank())
  {
    hide Inv, Run, Process, Ineligible, Payouts;
    ReachableInv(firstRound, actions);
    RunAppend(StartWith(firstRound), actions, RunJob(j, weather));
    EligibleAgainIff(Reached(firstRound, actions), j, weather);
  }

  /**
    The confirmed records of a round are exactly its transfers that got confirmed, and no transfer is without a
    record.
   */
  lemma RecordsTellTransfers(firstRound: nat, actions: seq<Action>, id: CircleId, round: nat)
    ensures
      var w := Reached(firstRound, actions);
      && RecordCount(w.records, id, round, true) == SentCount(w.log, id, round, true)
      && RecordCount(w.records, id, round, false) >= SentCount(w.log, id, round, false)
  {
    hide Run;
    RecordsMatchTransfers(StartWith(firstRound), actions, id, round);
  }

  // --- Scheduling and reconciliation ---

  /**
    After scheduling, a round has a job exactly if it had one before, or its member has an account and the queue was
    up. Jobs already there are untouched; a new one carries the member at the round's position, the pot and the date.
   */
  lemma SchedulingQueuesExactly(firstRound: nat, actions: seq<Action>, id: CircleId, env: Surroundings)
    requires id in Reached(firstRound, actions).store
    ensures
      var w, c := Reached(firstRound, actions), Reached(firstRound, actions).store[id];
      var w' := ScheduleCirclePayouts(w, id, env);
      && (forall j :: j in w'.jobs <==>
            j in w.jobs || (j.circleId == id && 1 <= j.round <= |c.members| && Schedulable(c, j.round, env)))
      && (forall j :: j in w'.jobs ==> w'.jobs[j] == if j in w.jobs then w.jobs[j] else FreshJob(id, c, j.round))
  {
    hide Inv, Run, ScheduleCirclePayouts, Schedulable, FreshJob;
    ReachableInv(firstRound, actions);
    ScheduledRoundsAre(Reached(firstRound, actions), id, env);
  }

  /** With all accounts present and the queue up, scheduling twice is scheduling once, whatever the second meets. */
  lemma SchedulingIsIdempotent(
      firstRound: nat, actions: seq<Action>, id: CircleId, env: Surroundings, again: Surroundings)
    requires id in Reached(firstRound, actions).store && Reached(firstRound, actions).store[id].status == ACTIVE
    requires AllClear(Reached(firstRound, actions).store[id], env)
    ensures
      var w' := ScheduleCirclePayouts(Reached(firstRound, actions), id, env);
      ScheduleCirclePayouts(w', id, again) == w'
  {
    hide Inv, Run, ScheduleCirclePayouts, AllClear;
    ReachableInv(firstRound, actions);
    SchedulingTwice(Reached(firstRound, actions), id, env, again);
  }

  /** Reconciliation sees a missing round exactly if an unpaid member's job is gone or used up. */
  lemma ReconciliationSees(firstRound: nat, actions: seq<Action>, id: CircleId)
    requires id in Reached(firstRound, actions).store
    ensures
      var w, c := Reached(firstRound, actions), Reached(firstRound, actions).store[id];
      MissingRounds(w.jobs, id, c) <==>
      exists i :: 0 <= i < |c.members| && !c.members[i].hasReceivedPayout
               && (JobId(id, i + 1) !in w.jobs || w.jobs[JobId(id, i + 1)].state == Exhausted)
  {
    hide Inv, Run, MissingRounds;
    ReachableInv(firstRound, actions);
    MissingMeans(Reached(firstRound, actions), id);
  }

  /**
    Right after scheduling with all accounts present reconciliation changes nothing, and misses only used-up rounds.
   */
  lemma ReconciliationSettles(
      firstRound: nat, actions: seq<Action>, id: CircleId, env: Surroundings, later: Surroundings)
    requires id in Reached(firstRound, actions).store && Reached(firstRound, actions).store[id].status == ACTIVE
    requires AllClear(Reached(firstRound, actions).store[id], env)
    ensures
      var w, c := Reached(firstRound, actions), Reached(firstRound, actions).store[id];
      var w' := ScheduleCirclePayouts(w, id, env);
      && ReconcileCircle(w', id, later) == w'
      && (MissingRounds(w'.jobs, id, w'.store[id]) <==>
          exists i :: 0 <= i < |c.members| && !c.members[i].hasReceivedPayout
                   && JobId(id, i + 1) in w.jobs && w.jobs[JobId(id, i + 1)].state == Exhausted)
  {
    hide Inv, Run, ScheduleCirclePayouts, AllClear, MissingRounds, ReconcileCircle;
    ReachableInv(firstRound, actions);
    ReconcileAfterScheduling(Reached(firstRound, actions), id, env, later);
  }

  // --- The intended run and the written one ---

  /** Exactly the members after the first round are marked, up to the k-th. */
  ghost predicate MarkedInOrder(firstRound: nat, c: Circle, c': Circle, k: nat) {
    && |c'.members| == |c.members|
    && forall i :: 0 <= i < |c.members| ==>
         && c'.members[i].userId == c.members[i].userId
         && (c'.members[i].hasReceivedPayout <==> firstRound <= i < k)
  }

  /** The payouts are for those rounds, one each and in order, to the payee the chain has the backend name. */
  ghost predicate PaidInOrder(firstRound: nat, c: Circle, ps: seq<Event>, k: nat) {
    && |ps| == (if k > firstRound then k - firstRound else 0)
    && forall t :: 0 <= t < |ps| ==> PaidAt(firstRound, c, ps[t], t)
  }

  ghost predicate PaidAt(firstRound: nat, c: Circle, e: Event, t: nat) {
    e.Sent? && e.round == firstRound + t + 1 <= |c.members| && e.payee == NamedPayee(c, e.round)
  }

  /**
    Exactly the members after the first round are paid, up to the k-th, once each and in order, to the payee the chain
    has the backend name; and the circle is COMPLETED exactly if the first round is 0 and all n rounds were run.
   */
  ghost predicate RanInOrder(firstRound: nat, c: Circle, c': Circle, ps: seq<Event>, k: nat) {
    && MarkedInOrder(firstRound, c, c', k)
    && PaidInOrder(firstRound, c, ps, k)
    && (c'.status == COMPLETED <==> firstRound == 0 && k == |c.members|)
  }

  lemma StandsInOrder(firstRound: nat, c: Circle, c': Circle, ps: seq<Event>, k: nat)
    requires CircleAt(firstRound, c, c', k) && PayoutsAt(firstRound, ps, k)
    requires RosterOk(c') && PayeesOk(firstRound, c', ps)
    ensures RanInOrder(firstRound, c, c', ps, k)
  {
    hide NamedPayee, PayoutAmount, PayeesOk, RosterOk;
    PayeesAreNamed(firstRound, c', ps);
    forall t | 0 <= t < |ps| ensures PaidAt(firstRound, c, ps[t], t) {
      SamePayee(c, c', ps[t].round);
    }
  }

  lemma SamePayee(c: Circle, c': Circle, round: nat)
    requires 1 <= round <= |c.members| == |c'.members| && c'.chain == c.chain && c'.amount == c.amount
    requires c'.members[round - 1].userId == c.members[round - 1].userId
    ensures NamedPayee(c, round) == NamedPayee(c', round)
  {
  }

  lemma SameRunInOrder(firstRound: nat, c: Circle, launched: Circle, c': Circle, ps: seq<Event>, k: nat)
    requires launched.members == c.members && launched.chain == c.chain && launched.amount == c.amount
    requires RanInOrder(firstRound, launched, c', ps, k)
    ensures RanInOrder(firstRound, c, c', ps, k)
  {
    hide NamedPayee;
    forall t | 0 <= t < |ps| ensures PaidAt(firstRound, c, ps[t], t) {
      assert PaidAt(firstRound, launched, ps[t], t);
      SamePayee(c, launched, ps[t].round);
    }
  }

  /**
    Start a circle in any reachable state, announce it while all members have accounts, and run rounds 1..k in order.
   */
  lemma LaunchedCirclesRunInOrder(
      firstRound: nat, actions: seq<Action>, id: CircleId, user: UserId, today: Day, announced: Option<string>,
      env: Surroundings, launched: World, k: nat)
    requires
      var w := Reached(firstRound, actions);
      && StartCircle(w, id, user, true, today).1 == Ok
      && launched == HandleCircleActivated(StartCircle(w, id, user, true, today).0, id, announced, env)
      && id in w.store && AllClear(w.store[id], env) && k <= |w.store[id].members|
    ensures
      var w, w' := Reached(firstRound, actions), Run(launched, InRoundOrder(id, k));
      id in w'.store && RanInOrder(firstRound, w.store[id], w'.store[id], Payouts(w'.log, id), k)
  {
    hide Inv, Run, HandleCircleActivated, StartCircle, AllClear, Payouts, RosterOk, PayeesOk, RanInOrder;
    hide CircleAt, PayoutsAt;
    var w := Reached(firstRound, actions);
    ReachableInv(firstRound, actions);
    StartAndAnnounceLaunches(w, id, user, today, announced, env);
    LaunchKeepsFirstRound(w, id, user, today, announced, env);
    InOrderRun(launched, id, k);
    var w' := Run(launched, InRoundOrder(id, k));
    StoredCircle(w', id);
    StandsInOrder(firstRound, launched.store[id], w'.store[id], Payouts(w'.log, id), k);
    SameRunInOrder(firstRound, w.store[id], launched.store[id], w'.store[id], Payouts(w'.log, id), k);
  }

  lemma LaunchKeepsFirstRound(
      w: World, id: CircleId, user: UserId, today: Day, announced: Option<string>, env: Surroundings)
    ensures
      HandleCircleActivated(StartCircle(w, id, user, true, today).0, id, announced, env).firstRound == w.firstRound
  {
    hide ScheduleRounds, PayoutDate, SchedulingReturns, ActiveMembers, SortByPosition, RoundsReached;
  }
}
