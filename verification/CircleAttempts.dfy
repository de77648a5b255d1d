/** What one attempt of a payout job does in every reachable state: when it is refused, and what it writes when not. */
module CircleAttempts {
  import opened PayoutDates
  import opened Circles
  import opened CircleInvariant
  import opened CircleProgress
  import opened CircleTheorems

  /** The circle is ACTIVE, the round lies ahead, its member is unmarked, and account and balance are there. */
  ghost predicate GetsThrough(w: World, j: JobId, weather: Weather)
    requires j.circleId in w.store && 1 <= j.round <= |w.store[j.circleId].members|
  {
    var c := w.store[j.circleId];
    && c.status == ACTIVE && c.currentRound < j.round && !c.members[j.round - 1].hasReceivedPayout
    && weather.hasAccount && weather.balanceOk
  }

  // The writes of an attempt, in their order.
  predicate PaidOut(reach: Reach) { reach != Verified && reach != Recorded }
  predicate RecordConfirmed(reach: Reach) { PaidOut(reach) && reach != Transferred }
  predicate MemberMarked(reach: Reach) { RecordConfirmed(reach) && reach != Confirmed }
  predicate RoundAdvanced(reach: Reach) { MemberMarked(reach) && reach != Marked }
  predicate CompletionChecked(reach: Reach) { reach == Checked || reach == Notified }

  /** What the queue keeps of a job whose attempt did not get to the end: three attempts at most. */
  predicate FailedOnce(job: Job, job': Job) {
    && job'.data == job.data && job'.attemptsMade == job.attemptsMade + 1
    && (job'.state == Exhausted <==> job'.attemptsMade >= 3) && job'.state != Finished
  }

  /** Only the attempt is counted, unless the process dies. */
  ghost predicate OnlyCounted(w: World, w': World, j: JobId, weather: Weather)
    requires j in w.jobs
  {
    && j in w'.jobs && w' == w.(jobs := w.jobs[j := w'.jobs[j]])
    && if weather.dies then w'.jobs[j] == w.jobs[j] else FailedOnce(w.jobs[j], w'.jobs[j])
  }

  /** The circle after an attempt that got this far for one of its rounds. */
  ghost predicate SettledTo(c: Circle, c': Circle, round: nat, reach: Reach)
    requires 1 <= round <= |c.members|
  {
    && |c'.members| == |c.members|
    && (forall i :: 0 <= i < |c.members| ==>
          c'.members[i] == if i == round - 1 && MemberMarked(reach) then c.members[i].(hasReceivedPayout := true)
                           else c.members[i])
    && c'.currentRound == c.currentRound + (if RoundAdvanced(reach) then 1 else 0)
    && (c'.status
        == if CompletionChecked(reach) && forall i :: 0 <= i < |c'.members| ==> c'.members[i].hasReceivedPayout
           then COMPLETED else c.status)
    && c' == c.(members := c'.members, currentRound := c'.currentRound, status := c'.status)
  }

  /** On NEAR one contribution per member for the member at the round's position; on Base the contract is called. */
  ghost predicate PayeeIs(payee: Payee, c: Circle, round: nat)
    requires 1 <= round <= |c.members|
  {
    match c.chain
    case NEAR => payee == Direct(c.members[round - 1].userId, c.amount * |c.members| as real)
    case BASE => payee == ByContract
  }

  ghost predicate Written(w: World, w': World, j: JobId, weather: Weather)
    requires j in w.jobs && j.circleId in w.store && 1 <= j.round <= |w.store[j.circleId].members|
  {
    var id, c, reach := j.circleId, w.store[j.circleId], weather.reach;
    && id in w'.store && w'.store == w.store[id := w'.store[id]] && SettledTo(c, w'.store[id], j.round, reach)
    && w'.records == w.records + (if reach == Verified then [] else [PayoutRecord(id, j.round, RecordConfirmed(reach))])
    && (if PaidOut(reach)
        then && |w'.log| == |w.log| + 1 && w'.log[|w.log|].Sent? && PayeeIs(w'.log[|w.log|].payee, c, j.round)
             && w'.log == w.log + [Sent(id, j.round, w'.log[|w.log|].payee, reach)]
        else w'.log == w.log)
    && j in w'.jobs
    && (if weather.dies then w'.jobs[j] == w.jobs[j]
        else if reach == Notified then w'.jobs[j] == w.jobs[j].(state := Finished)
        else FailedOnce(w.jobs[j], w'.jobs[j]))
    && w' == w.(store := w'.store, records := w'.records, log := w'.log, jobs := w.jobs[j := w'.jobs[j]])
  }

  /**
    From every reachable state, for every waiting job: the attempt pays, records, marks, advances and completes, as far
    as it gets, exactly if the circle is ACTIVE, the round lies ahead, its member is unmarked, the member has an account
    and the contract has the balance. Otherwise it only uses up an attempt: store, records and log are as they were.
   */
  lemma AttemptsExactly(firstRound: nat, actions: seq<Action>, j: JobId, weather: Weather)
    requires j in Reached(firstRound, actions).jobs && Reached(firstRound, actions).jobs[j].state == Waiting
    ensures
      var w := Reached(firstRound, actions);
      var w' := Step(w, RunJob(j, weather));
      && j.circleId in w.store && 1 <= j.round <= |w.store[j.circleId].members|
      && (if GetsThrough(w, j, weather) then Written(w, w', j, weather) else OnlyCounted(w, w', j, weather))
  {
    hide Inv, Run, GetsThrough, Written, OnlyCounted;
    ReachableInv(firstRound, actions);
    AttemptIs(Reached(firstRound, actions), j, weather);
  }

  lemma AttemptIs(w: World, j: JobId, weather: Weather)
    requires Inv(w) && j in w.jobs && w.jobs[j].state == Waiting
    ensures j.circleId in w.store && 1 <= j.round <= |w.store[j.circleId].members|
    ensures
      var w' := Step(w, RunJob(j, weather));
      if GetsThrough(w, j, weather) then Written(w, w', j, weather) else OnlyCounted(w, w', j, weather)
  {
    hide Inv, Ineligible, Settle, Written, GetsThrough;
    JobNames(w, j);
    EligibleIff(w, j, weather);
    if GetsThrough(w, j, weather) { EligibleWrites(w, j, weather); }
  }

  /** The check lets a queued job through exactly in this case, and a refusal names something that is the case. */
  lemma EligibleIff(w: World, j: JobId, weather: Weather)
    requires Inv(w) && j in w.jobs
    ensures j.circleId in w.store && 1 <= j.round <= |w.store[j.circleId].members|
    ensures Ineligible(w, w.jobs[j].data, weather).None? <==> GetsThrough(w, j, weather)
    ensures
      var reason := Ineligible(w, w.jobs[j].data, weather);
      reason.Some? ==> IsSo(w, j, weather, reason.value)
  {
    hide Inv, FindMember, PayoutDate, PayoutAmount, RosterOk;
    JobNames(w, j);
    StoredCircle(w, j.circleId);
    FoundIsRecipient(w.store[j.circleId], j.round);
  }

  /** In any world, reachable or not, a payout needs a contract address and an active member to pay. */
  lemma PayoutNeedsContractAndMember(w: World, data: JobData, weather: Weather)
    ensures
      Ineligible(w, data, weather).None? ==>
        && data.circleId in w.store && w.store[data.circleId].contractAddress.Some?
        && FindMember(w.store[data.circleId].members, data.recipientUserId).Some?
  {
  }

  /** What has to be the case for a queued job to be refused for this reason. */
  ghost predicate IsSo(w: World, j: JobId, weather: Weather, reason: string)
    requires j.circleId in w.store && 1 <= j.round <= |w.store[j.circleId].members|
  {
    var c := w.store[j.circleId];
    match reason
    case "not ACTIVE" => c.status != ACTIVE
    case "already processed" => c.currentRound >= j.round
    case "already received payout" => c.members[j.round - 1].hasReceivedPayout
    case "no account" => !weather.hasAccount
    case "insufficient balance" => !weather.balanceOk
    case _ => false
  }

  lemma EligibleWrites(w: World, j: JobId, weather: Weather)
    requires Inv(w) && j in w.jobs && w.jobs[j].state == Waiting && Ineligible(w, w.jobs[j].data, weather).None?
    requires j.circleId in w.store && 1 <= j.round <= |w.store[j.circleId].members|
    ensures Written(w, Step(w, RunJob(j, weather)), j, weather)
  {
    hide Inv, Ineligible, Settle, SettledTo, PayeeIs, PayoutAmount, PayoutDate;
    JobNames(w, j);
    JobPayee(w, j);
    SettlesTo(w, j, weather);
    var w' := Step(w, RunJob(j, weather));
    if PaidOut(weather.reach) {
      assert w'.log[|w.log|] == Sent(j.circleId, j.round, PayeeOf(w.jobs[j].data), weather.reach);
    }
  }

  lemma JobPayee(w: World, j: JobId)
    requires Inv(w) && j in w.jobs
    ensures j.circleId in w.store && 1 <= j.round <= |w.store[j.circleId].members|
    ensures PayeeIs(PayeeOf(w.jobs[j].data), w.store[j.circleId], j.round)
  {
    hide Inv, PayoutDate, PayoutAmount, RosterOk, PayeeIs, CircleInv;
    JobDataIs(w, j);
    StoredCircle(w, j.circleId);
    PayeeOfRound(w.store[j.circleId], w.jobs[j].data, j.round);
  }

  lemma PayeeOfRound(c: Circle, data: JobData, round: nat)
    requires RosterOk(c) && 1 <= round <= |c.members|
    requires data.chain == c.chain && data.recipientUserId == c.members[round - 1].userId
    requires data.payoutAmount == PayoutAmount(c)
    ensures PayeeIs(PayeeOf(data), c, round)
  {
    hide RosterOk;
    RosterIsSorted(c);
  }

  lemma SettlesTo(w: World, j: JobId, weather: Weather)
    requires Inv(w) && j in w.jobs && Ineligible(w, w.jobs[j].data, weather).None?
    requires j.circleId in w.store && 1 <= j.round <= |w.store[j.circleId].members|
    ensures
      var c := w.store[j.circleId];
      SettledTo(c, Settle(c, w.jobs[j].data.recipientUserId, weather.reach), j.round, weather.reach)
  {
    hide Inv, Ineligible, Settle, SettledTo, RosterOk;
    JobNames(w, j);
    StoredCircle(w, j.circleId);
    EligibleMeans(w, j, weather);
    CircleSettlesTo(w.store[j.circleId], j.round, weather.reach);
  }

  lemma CircleSettlesTo(c: Circle, round: nat, reach: Reach)
    requires RosterOk(c) && 1 <= round <= |c.members| && c.status == ACTIVE
    ensures SettledTo(c, Settle(c, c.members[round - 1].userId, reach), round, reach)
  {
    hide MarkMembers, SomeoneUnpaid, RosterOk;
    var marked := MarkMembers(c.members, c.members[round - 1].userId);
    MarkedOne(c, round);
    RosterIsActive(c, marked, round);
    NobodyUnpaid(c.members);
    NobodyUnpaid(marked);
  }

  lemma RosterIsActive(c: Circle, marked: seq<Member>, round: nat)
    requires RosterOk(c) && 1 <= round <= |c.members|
    requires marked == c.members[round - 1 := c.members[round - 1].(hasReceivedPayout := true)]
    ensures forall i :: 0 <= i < |c.members| ==> c.members[i].status == ActiveMember && marked[i].status == ActiveMember
  {
  }

  lemma NobodyUnpaid(members: seq<Member>)
    requires forall i :: 0 <= i < |members| ==> members[i].status == ActiveMember
    ensures !SomeoneUnpaid(members) <==> forall i :: 0 <= i < |members| ==> members[i].hasReceivedPayout
  {
  }

  /** From every reachable state, what the processor says when it refuses a queued job is the case. */
  lemma RefusalsTellTheTruth(firstRound: nat, actions: seq<Action>, j: JobId, weather: Weather)
    requires j in Reached(firstRound, actions).jobs
    ensures
      var w := Reached(firstRound, actions);
      && j.circleId in w.store && 1 <= j.round <= |w.store[j.circleId].members|
      && var reason := Ineligible(w, w.jobs[j].data, weather);
      && (reason.None? <==> GetsThrough(w, j, weather))
      && (reason.Some? ==> IsSo(w, j, weather, reason.value))
  {
    hide Inv, Run, GetsThrough, IsSo, Ineligible;
    ReachableInv(firstRound, actions);
    EligibleIff(Reached(firstRound, actions), j, weather);
  }
}
