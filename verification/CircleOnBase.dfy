/**
  A Base circle: the backend decides whose job calls releasePayout, the circle's contract decides who is paid.

  The two run separately; what ties them is that startCircle hands the contract its members' addresses by position,
  and that every successful release is one of the backend's payouts.
 */
module CircleOnBase {
  import opened PayoutDates
  import opened Circles
  import opened CircleInvariant
  import opened CircleSchedules
  import opened CircleFutures
  import opened CircleTheorems
  import opened CircleExamples
  import Contract = EtibeCircle
  import ContractTheorems = EtibeCircleTheorems

  /** The contract was started with the circle's members in position order and has made the backend's payouts. */
  ghost predicate Tied(c: Circle, ps: seq<Event>, address: UserId -> Contract.Address, contract: Contract.World) {
    && |contract.state.payoutOrder| == |c.members|
    && (forall i :: 0 <= i < |c.members| ==> contract.state.payoutOrder[i] == address(c.members[i].userId))
    && |Contract.Tally(contract.log).paidTo| == |ps|
  }

  /** The m-th release paid the member at position m, and so its job's member exactly if that was round m. */
  ghost predicate PaidByPosition(
    firstRound: nat, c: Circle, ps: seq<Event>, address: UserId -> Contract.Address, paidTo: seq<Contract.Address>)
  {
    && |paidTo| == |ps| < |c.members|
    && forall m :: 0 <= m < |ps| ==>
         && ps[m].Sent? && firstRound < ps[m].round <= |c.members| && ps[m].payee == ByContract
         && paidTo[m] == address(c.members[m].userId)
         && (paidTo[m] == address(c.members[ps[m].round - 1].userId) <==> ps[m].round == m + 1)
  }

  /** Different members have different addresses. */
  ghost predicate OwnAddresses(c: Circle, address: UserId -> Contract.Address) {
    forall i, j :: 0 <= i < j < |c.members| ==> address(c.members[i].userId) != address(c.members[j].userId)
  }

  /**
    While a first activation lasts, the m-th release has paid the member at position m, whatever round its job was
    for; so a release reached the member its job named exactly if the round was m. The next release pays the next
    position.
   */
  lemma ReleasesPayByPosition(
      firstRound: nat, actions: seq<Action>, id: CircleId,
      cfg: Contract.Config, calls: seq<Contract.Action>, address: UserId -> Contract.Address,
      caller: Contract.Address, sendOk: bool)
    requires id in Reached(firstRound, actions).store && Reached(firstRound, actions).store[id].chain == BASE
    requires Contract.Deployable(cfg)
    requires
      var w, contract := Reached(firstRound, actions), Contract.Run(Contract.Start(cfg), calls);
      && contract.state.isActive && Contract.Tally(contract.log).starts == 1
      && Tied(w.store[id], Payouts(w.log, id), address, contract) && OwnAddresses(w.store[id], address)
    ensures
      var w, contract := Reached(firstRound, actions), Contract.Run(Contract.Start(cfg), calls);
      var c, ps, paidTo := w.store[id], Payouts(w.log, id), Contract.Tally(contract.log).paidTo;
      var next := Contract.Apply(contract.state, Contract.ReleasePayout(caller, sendOk));
      && PaidByPosition(firstRound, c, ps, address, paidTo)
      && (next.Done? ==>
            && next.entries != [] && next.entries[0].PayoutReleased?
            && next.entries[0].to == address(c.members[|ps|].userId))
  {
    hide Reached, Payouts, Contract.Run, Contract.Tally, Contract.Apply, Contract.Deployable;
    ContractTheorems.ReleasesFollowTheOrder(cfg, calls, caller, sendOk);
    PayoutsGoByChain(firstRound, actions, id);
  }

  /**
    As written, with jobs for rounds from 2 on only: from its first release on the contract has paid the creator, whom
    the backend never marks and for whom no job ever runs.
   */
  lemma AsWrittenTheContractPaysTheCreator(
      actions: seq<Action>, id: CircleId,
      cfg: Contract.Config, calls: seq<Contract.Action>, address: UserId -> Contract.Address)
    requires id in Reached(FIRST_ROUND, actions).store && Reached(FIRST_ROUND, actions).store[id].chain == BASE
    requires Contract.Deployable(cfg)
    requires
      var w, contract := Reached(FIRST_ROUND, actions), Contract.Run(Contract.Start(cfg), calls);
      && contract.state.isActive && Contract.Tally(contract.log).starts == 1
      && Tied(w.store[id], Payouts(w.log, id), address, contract) && OwnAddresses(w.store[id], address)
      && Payouts(w.log, id) != []
    ensures
      var w, contract := Reached(FIRST_ROUND, actions), Contract.Run(Contract.Start(cfg), calls);
      var c := w.store[id];
      && c.members != [] && c.members[0].userId == c.creatorId
      && address(c.creatorId) in Contract.Tally(contract.log).paidTo
      && !c.members[0].hasReceivedPayout && RoundPayouts(Payouts(w.log, id), 1) == 0
  {
    hide Reached, Payouts, RoundPayouts, Contract.Run, Contract.Tally, Contract.Apply, Contract.Deployable;
    AsWrittenTheFirstRoundIsNeverPaid(actions, id);
    ReleasesPayByPosition(FIRST_ROUND, actions, id, cfg, calls, address, cfg.owner, true);
    var contract := Contract.Run(Contract.Start(cfg), calls);
    assert Contract.Tally(contract.log).paidTo[0] == address(Reached(FIRST_ROUND, actions).store[id].creatorId);
  }

  // --- A circle of two that meets this ---

  /** The fair attempt of round 2 in the example circle of users 7 and 8. */
  const ATTEMPT := RunJob(JobId(1, 2), FAIR)

  const TERMS := Contract.Config(1, Contract.ZERO_ADDRESS, 10, 2)

  /** The contract has both members, in position order, and the money of both; the backend then releases once. */
  const CALLS := [
    Contract.AddMember(1, 7, 1), Contract.AddMember(1, 8, 2), Contract.SetPayoutOrder(1, [7, 8]),
    Contract.StartCircle(1), Contract.ReceiveEth(20), Contract.ReleasePayout(1, true)]

  const ENTRIES := [
    Contract.MemberAdded(7, 1), Contract.MemberAdded(8, 2), Contract.CircleStarted(2), Contract.EthDonated(20),
    Contract.PayoutReleased(7, 1, 20)]

  lemma ReadEntries()
    ensures Contract.Tally(ENTRIES).starts == 1 && Contract.Tally(ENTRIES).paidTo == [7]
  {
    var e := ENTRIES;
    assert [] + [e[0]] + [e[1]] + [e[2]] + [e[3]] + [e[4]] == e;
    Contract.TallyAppend([], [e[0]]);
    Contract.TallyAppend([] + [e[0]], [e[1]]);
    Contract.TallyAppend([] + [e[0]] + [e[1]], [e[2]]);
    Contract.TallyAppend([] + [e[0]] + [e[1]] + [e[2]], [e[3]]);
    Contract.TallyAppend([] + [e[0]] + [e[1]] + [e[2]] + [e[3]], [e[4]]);
  }

  lemma ContractRun()
    ensures
      var contract := Contract.Run(Contract.Start(TERMS), CALLS);
      && contract.state.isActive && contract.state.payoutOrder == [7, 8] && contract.log == ENTRIES
  {
    hide Contract.Run;
    var w1 := Contract.Step(Contract.Start(TERMS), CALLS[0]);
    var w2 := Contract.Step(w1, CALLS[1]);
    var w3 := Contract.Step(w2, CALLS[2]);
    assert w3.state.payoutOrder == [7, 8] && w3.state.memberList == [7, 8];
    assert w3.log == [Contract.MemberAdded(7, 1), Contract.MemberAdded(8, 2)];
    var w4 := Contract.Step(w3, CALLS[3]);
    assert w4.log == w3.log + [Contract.CircleStarted(2)];
    var w5 := Contract.Step(w4, CALLS[4]);
    var w6 := Contract.Step(w5, CALLS[5]);
    assert w6.log == ENTRIES && w6.state.isActive;
    RunSix(Contract.Start(TERMS), CALLS);
  }

  lemma RunSix(w: Contract.World, calls: seq<Contract.Action>)
    requires |calls| == 6
    ensures
      var w3 := Contract.Step(Contract.Step(Contract.Step(w, calls[0]), calls[1]), calls[2]);
      Contract.Run(w, calls) == Contract.Step(Contract.Step(Contract.Step(w3, calls[3]), calls[4]), calls[5])
  {
    hide Contract.Step;
    var a, b, c := [calls[0], calls[1]], [calls[2], calls[3]], [calls[4], calls[5]];
    assert calls == a + (b + c);
    ContractTheorems.RunAppend(w, a, b + c);
    ContractTheorems.RunAppend(Contract.Run(w, a), b, c);
    ContractTheorems.RunTwo(w, calls[0], calls[1]);
    ContractTheorems.RunTwo(Contract.Run(w, a), calls[2], calls[3]);
    ContractTheorems.RunTwo(Contract.Run(Contract.Run(w, a), b), calls[4], calls[5]);
  }

  /** One payout was made, for round 2, and user 8 is marked for it. */
  ghost predicate PaidRoundTwo(w: World) {
    && Payouts(w.log, 1) == [Sent(1, 2, ByContract, Notified)]
    && 1 in w.store && w.store[1].chain == BASE && |w.store[1].members| == 2
    && w.store[1].members[0].userId == 7 && w.store[1].members[1].userId == 8
    && w.store[1].members[1].hasReceivedPayout
  }

  lemma BackendRun()
    ensures PaidRoundTwo(After(FIRST_ROUND, BASE, [ATTEMPT]))
  {
    hide Inv, Launched, LaunchedAt, After, Run, Step, PaidRoundTwo;
    AfterLaunch(FIRST_ROUND, BASE, [ATTEMPT]);
    var w := LaunchedAt(FIRST_ROUND, BASE);
    RunOne(w, ATTEMPT);
    AttemptPays(w);
  }

  lemma AttemptPays(w: World)
    requires Launched(w, 1) && w.firstRound == FIRST_ROUND
    requires w.store[1].chain == BASE && w.store[1].members == Founded(BASE).members
    ensures PaidRoundTwo(Step(w, ATTEMPT))
  {
    hide Inv, Payouts, PaidRound, Payable, Step, PaidRoundTwo;
    LaunchedWaits(w, 1, 2);
    LaunchedRoundIsPayable(w, 1, 2);
    hide Launched;
    WaitingPays(w, 1, 2, Notified);
    LaunchedPaidNothing(w, 1);
    PaidRoundTwoIs(w, Step(w, ATTEMPT));
  }

  lemma PaidRoundTwoIs(w: World, w': World)
    requires 1 in w.store && w.store[1].chain == BASE && w.store[1].members == Founded(BASE).members
    requires Payouts(w.log, 1) == [] && PaidRound(w, w', 1, 2, Notified)
    ensures PaidRoundTwo(w')
  {
    hide Inv, Payouts, PayoutAmount, SomeoneUnpaid, CalculateNextPayoutDate;
  }

  lemma LaunchedWaits(w: World, id: CircleId, round: nat)
    requires Launched(w, id) && 1 <= round <= |w.store[id].members|
    ensures JobId(id, round) in w.jobs && w.jobs[JobId(id, round)].state == Waiting
  {
  }

  lemma LaunchedPaidNothing(w: World, id: CircleId)
    requires Launched(w, id)
    ensures Payouts(w.log, id) == []
  {
  }

  function OwnId(user: UserId): Contract.Address { user }

  /** Tied on both sides, and the contract has paid user 7, the creator, for a round that marked user 8. */
  ghost predicate CreatorPaidInstead(w: World, contract: Contract.World) {
    && 1 in w.store && w.store[1].chain == BASE
    && contract.state.isActive && Contract.Tally(contract.log).starts == 1
    && Tied(w.store[1], Payouts(w.log, 1), OwnId, contract) && OwnAddresses(w.store[1], OwnId)
    && |Payouts(w.log, 1)| == 1 && Payouts(w.log, 1)[0].round == 2
    && Contract.Tally(contract.log).paidTo == [7] && w.store[1].creatorId == 7
    && |w.store[1].members| == 2
    && !w.store[1].members[0].hasReceivedPayout && w.store[1].members[1].hasReceivedPayout
  }

  /** Such a run exists: everything `ReleasesPayByPosition` asks for can hold together. */
  lemma SomeReleasePaysTheCreator()
    ensures Contract.Deployable(TERMS)
    ensures CreatorPaidInstead(After(FIRST_ROUND, BASE, [ATTEMPT]), Contract.Run(Contract.Start(TERMS), CALLS))
  {
    hide After, Payouts, Contract.Run, Contract.Tally;
    BackendRun();
    ContractRun();
    ReadEntries();
    ExampleLeavesTheCreator();
  }

  lemma ExampleLeavesTheCreator()
    ensures
      var w := After(FIRST_ROUND, BASE, [ATTEMPT]);
      1 in w.store ==>
        && w.store[1].members != []
        && w.store[1].members[0].userId == w.store[1].creatorId && !w.store[1].members[0].hasReceivedPayout
  {
    hide Reached, Payouts, RoundPayouts, PaidPositions;
    var actions := Recruiting(BASE) + Launching(BASE) + [ATTEMPT];
    assert After(FIRST_ROUND, BASE, [ATTEMPT]) == Reached(FIRST_ROUND, actions);
    if 1 in Reached(FIRST_ROUND, actions).store { AsWrittenTheFirstRoundIsNeverPaid(actions, 1); }
  }
}
