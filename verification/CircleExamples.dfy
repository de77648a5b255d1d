/** Concrete runs of two members that meet each fault the theorems speak of. */
module CircleExamples {
  import opened Options
  import opened PayoutDates
  import opened Circles
  import opened CircleInvariant
  import opened CircleProgress
  import opened CircleSchedules
  import opened CircleFutures
  import opened CircleTheorems

  // --- A launched circle ---

  function Terms(chain: Chain): NewCircle { NewCircle(chain, 7, 10.0, WEEKLY, 3, 2, 0) }

  function Founded(chain: Chain): Circle {
    Circle(chain, 7, 10.0, WEEKLY, 3, 2, [Member(7, 1, false, ActiveMember), Member(8, 2, false, ActiveMember)],
           RECRUITING, 0, 2, 0, CalculateNextPayoutDate(0, WEEKLY), Some("contract"))
  }

  /** User 7 creates and activates circle 1, and user 8 joins. */
  function Recruiting(chain: Chain): seq<Action> {
    [Create(1, Terms(chain), true), Activate(1, 7, true, Some("contract")), Join(1, 8, true)]
  }

  lemma RecruitingIs(firstRound: nat, chain: Chain)
    ensures
      var w := Reached(firstRound, Recruiting(chain));
      && w.store == map[1 := Founded(chain)] && w.cache == map[] && w.jobs == map[] && w.firstRound == firstRound
  {
    hide CalculateNextPayoutDate;
    var create, activate, join := Recruiting(chain)[0], Recruiting(chain)[1], Recruiting(chain)[2];
    var w1 := Step(StartWith(firstRound), create);
    var w2 := Step(w1, activate);
    var w3 := Step(w2, join);
    var creator := Member(7, 1, false, ActiveMember);
    assert ActiveMembers([creator]) == [creator] by { assert [creator][1..] == []; }
    assert FindMember([creator], 8) == None by { assert [creator][1..] == []; }
    var c1 := w1.store[1];
    var c2 := c1.(contractAddress := Some("contract"), status := RECRUITING);
    assert w2.store == map[1 := c2] && w2.cache == map[];
    assert c2.members == [creator];
    assert w3.store == map[1 := c2.(members := [creator] + [Member(8, 2, false, ActiveMember)])];
    assert [creator] + [Member(8, 2, false, ActiveMember)] == Founded(chain).members;
    assert Recruiting(chain)[1..] == [activate, join] && [activate, join][1..] == [join];
    RunTwo(w1, activate, join);
  }

  function Launching(chain: Chain): seq<Action> {
    [Start(1, 7, true, 0), Announce(1, None, FairSurroundings(Founded(chain)))]
  }

  /** The circle starts on day 0 and its payouts are scheduled. */
  ghost function LaunchedAt(firstRound: nat, chain: Chain): World {
    Reached(firstRound, Recruiting(chain) + Launching(chain))
  }

  lemma ExampleIsLaunched(firstRound: nat, chain: Chain)
    ensures
      var w := LaunchedAt(firstRound, chain);
      && Launched(w, 1) && w.firstRound == firstRound
      && w.store[1].chain == chain && w.store[1].members == Founded(chain).members
  {
    hide Inv, Run, Payouts, ScheduleCirclePayouts, AllClear, FairSurroundings, CalculateNextPayoutDate;
    var w, env := Reached(firstRound, Recruiting(chain)), FairSurroundings(Founded(chain));
    RecruitingIs(firstRound, chain);
    ReachableInv(firstRound, Recruiting(chain));
    FairIsAllClear(Founded(chain));
    StoredCircle(w, 1);
    RosterIsSorted(w.store[1]);
    StartAndAnnounceLaunches(w, 1, 7, 0, None, env);
    RunTwice(StartWith(firstRound), Recruiting(chain), Launching(chain));
    RunTwo(w, Launching(chain)[0], Launching(chain)[1]);
    LaunchKeepsFirstRound(w, 1, 7, 0, None, env);
  }

  // --- A round paid twice ---

  /** The attempt stops after the confirmed record, before the mark. */
  const STOPS := Reaching(Confirmed)

  lemma LaunchedRoundIsPayable(w: World, id: CircleId, round: nat)
    requires Launched(w, id) && w.firstRound < round <= |w.store[id].members|
    ensures Payable(w, id, round)
  {
    hide Inv;
  }

  /**
    In any launched circle any round after the first can be paid twice, by an attempt that stops before the mark and
    its retry.
   */
  lemma PaidTwice(w: World, id: CircleId, round: nat)
    requires Launched(w, id) && w.firstRound < round <= |w.store[id].members|
    ensures
      var j, c := JobId(id, round), w.store[id];
      var ps := Payouts(Run(w, [RunJob(j, STOPS), RunJob(j, FAIR)]).log, id);
      && RoundPayouts(ps, round) == 2
      && (c.chain == NEAR ==> TransfersTo(ps, c.members[round - 1].userId) == 2)
  {
    hide Inv, Run, Payouts, RoundPayouts, Settle, PayoutAmount, Ineligible, Payable, Process, FindMember, TransfersTo;
    var j, c := JobId(id, round), w.store[id];
    var w' := Step(w, RunJob(j, STOPS));
    LaunchedRoundIsPayable(w, id, round);
    WaitingPays(w, id, round, Confirmed);
    StoppedIsPayable(w, w', id, round);
    StillWaiting(w, j);
    WaitingPays(w', id, round, Notified);
    RunTwo(w, RunJob(j, STOPS), RunJob(j, FAIR));
    var first := Sent(id, round, RoundsPayee(c, round), Confirmed);
    var second := Sent(id, round, RoundsPayee(w'.store[id], round), Notified);
    assert [] + [first] == [first] && [first] + [second] == [first, second];
    TwoPayouts(first, second);
  }

  lemma TwoPayouts(first: Event, second: Event)
    requires first.Sent? && second.Sent? && first.round == second.round
    ensures RoundPayouts([first, second], first.round) == 2
    ensures
      first.payee.Direct? && second.payee.Direct? && first.payee.recipient == second.payee.recipient
      ==> TransfersTo([first, second], first.payee.recipient) == 2
  {
    assert [first, second][..1] == [first] && [first][..0] == [];
    assert RoundPayouts([first], first.round) == 1;
    if first.payee.Direct? && second.payee.Direct? && first.payee.recipient == second.payee.recipient {
      assert TransfersTo([first], first.payee.recipient) == 1;
    }
  }

  lemma StoppedIsPayable(w: World, w': World, id: CircleId, round: nat)
    requires id in w.store && 1 <= round <= |w.store[id].members| && Payable(w, id, round)
    requires PaidRound(w, w', id, round, Confirmed)
    requires JobId(id, round) in w.jobs ==> w.jobs[JobId(id, round)].attemptsMade == 0
    requires w' == Step(w, RunJob(JobId(id, round), STOPS))
    ensures round <= |w'.store[id].members| && Payable(w', id, round)
    ensures w'.store[id].chain == w.store[id].chain
    ensures w'.store[id].members[round - 1].userId == w.store[id].members[round - 1].userId
  {
    hide Inv, Ineligible, Payouts;
  }

  lemma StillWaiting(w: World, j: JobId)
    requires j in w.jobs && w.jobs[j].state == Waiting && w.jobs[j].attemptsMade == 0
    ensures
      var w' := Step(w, RunJob(j, STOPS));
      j in w'.jobs && w'.jobs[j].state == Waiting
  {
    hide Ineligible, Settle;
  }

  // --- A round whose job is used up ---

  /** The recipient has no account. */
  const NO_ACCOUNT := Weather(false, true, Notified, false)

  lemma RefusedAttempt(w: World, j: JobId)
    requires j in w.jobs && w.jobs[j].state == Waiting
    ensures
      Step(w, RunJob(j, NO_ACCOUNT))
      == w.(jobs := w.jobs[j := w.jobs[j].(
              attemptsMade := w.jobs[j].attemptsMade + 1,
              state := if w.jobs[j].attemptsMade + 1 >= MAX_ATTEMPTS then Exhausted else Waiting)])
  {
    hide FindMember;
  }

  /** In any launched circle three refused attempts leave any round dead. */
  lemma UsedUp(w: World, id: CircleId, round: nat)
    requires Launched(w, id) && 1 <= round <= |w.store[id].members|
    ensures
      var refused := RunJob(JobId(id, round), NO_ACCOUNT);
      DeadRound(Run(w, [refused, refused, refused]), JobId(id, round))
  {
    hide Inv, Step;
    var j := JobId(id, round);
    var refused := RunJob(j, NO_ACCOUNT);
    RefusedAttempt(w, j);
    var w1 := Step(w, refused);
    RefusedAttempt(w1, j);
    var w2 := Step(w1, refused);
    RefusedAttempt(w2, j);
    assert [refused, refused, refused][1..] == [refused, refused];
    RunTwo(w1, refused, refused);
  }

  // --- A completion missed ---

  /** The last attempt stops after advancing the round, before the completion check. */
  function Missing(id: CircleId, n: nat): seq<Action>
    requires n >= 1
  {
    InRoundOrder(id, n - 1) + [RunJob(JobId(id, n), Reaching(Advanced))]
  }

  /** A launched circle of round 0 can end with everyone paid and still ACTIVE. */
  lemma CompletionMissed(w: World, id: CircleId)
    requires Launched(w, id) && w.firstRound == 0 && |w.store[id].members| >= 1
    ensures
      var w' := Run(w, Missing(id, |w.store[id].members|));
      && id in w'.store && w'.store[id].status == ACTIVE && !SomeoneUnpaid(w'.store[id].members)
  {
    hide Inv, Run, Payouts, PayoutAmount, Ineligible, Settle, Process, RosterOk;
    var n := |w.store[id].members|;
    var before := Run(w, InRoundOrder(id, n - 1));
    InOrderRun(w, id, n - 1);
    RunAppend(w, InRoundOrder(id, n - 1), RunJob(JobId(id, n), Reaching(Advanced)));
    assert Payable(before, id, n);
    WaitingPays(before, id, n, Advanced);
    StoredCircle(before, id);
    LastAdvanced(before.store[id], n);
  }

  lemma LastAdvanced(c: Circle, n: nat)
    requires RosterOk(c) && n == |c.members| && c.status == ACTIVE
    requires forall i :: 0 <= i < n - 1 ==> c.members[i].hasReceivedPayout
    ensures
      var c' := Settle(c, c.members[n - 1].userId, Advanced);
      c'.status == ACTIVE && !SomeoneUnpaid(c'.members)
  {
    MarkedOne(c, n);
  }

  // --- The faults are reachable ---

  /** The launch, followed by these actions. */
  ghost function After(firstRound: nat, chain: Chain, more: seq<Action>): World {
    Reached(firstRound, Recruiting(chain) + Launching(chain) + more)
  }

  lemma AfterLaunch(firstRound: nat, chain: Chain, more: seq<Action>)
    ensures
      var w := LaunchedAt(firstRound, chain);
      && After(firstRound, chain, more) == Run(w, more)
      && Launched(w, 1) && w.firstRound == firstRound && 1 in w.store
      && w.store[1].members == Founded(chain).members && |w.store[1].members| == 2 && w.store[1].chain == chain
  {
    hide Launched, Run;
    RunTwice(StartWith(firstRound), Recruiting(chain) + Launching(chain), more);
    ExampleIsLaunched(firstRound, chain);
    LaunchedHas(LaunchedAt(firstRound, chain), 1);
  }

  lemma LaunchedHas(w: World, id: CircleId)
    requires Launched(w, id)
    ensures Inv(w) && id in w.store && HasStarted(w.store[id])
  {
  }

  /** As written, a stopped attempt and its retry pay the round of user 8 twice; on NEAR user 8 gets both. */
  lemma SomeRunPaysTwice(chain: Chain)
    ensures
      var retried := [RunJob(JobId(1, 2), STOPS), RunJob(JobId(1, 2), FAIR)];
      var ps := Payouts(After(FIRST_ROUND, chain, retried).log, 1);
      RoundPayouts(ps, 2) == 2 && (chain == NEAR ==> TransfersTo(ps, 8) == 2)
  {
    hide Launched, LaunchedAt, After, Run, Payouts, RoundPayouts, TransfersTo;
    AfterLaunch(FIRST_ROUND, chain, [RunJob(JobId(1, 2), STOPS), RunJob(JobId(1, 2), FAIR)]);
    PaidTwice(LaunchedAt(FIRST_ROUND, chain), 1, 2);
  }

  /** Three refused attempts leave the round of user 8 dead, whatever the first round and the chain. */
  lemma SomeRoundDies(firstRound: nat, chain: Chain)
    ensures
      var refused := RunJob(JobId(1, 2), NO_ACCOUNT);
      DeadRound(After(firstRound, chain, [refused, refused, refused]), JobId(1, 2))
  {
    hide Launched, LaunchedAt, After, Run, DeadRound;
    var refused := RunJob(JobId(1, 2), NO_ACCOUNT);
    AfterLaunch(firstRound, chain, [refused, refused, refused]);
    UsedUp(LaunchedAt(firstRound, chain), 1, 2);
  }

  /**
    Started at round 0, a last attempt that stops before the completion check leaves everyone paid and the circle
    ACTIVE.
   */
  lemma SomeCompletionIsMissed(chain: Chain)
    ensures
      var w := After(0, chain, Missing(1, 2));
      1 in w.store && w.store[1].status == ACTIVE && !SomeoneUnpaid(w.store[1].members)
  {
    hide Launched, LaunchedAt, After, Run, SomeoneUnpaid, Missing;
    AfterLaunch(0, chain, Missing(1, 2));
    CompletionMissed(LaunchedAt(0, chain), 1);
  }
}
