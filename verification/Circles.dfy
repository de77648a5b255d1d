/**
  The backend's circles: lifecycle (circle.service.ts), atomic store updates (circle.repository.ts), payout
  scheduling (payout-scheduler.service.ts) and payout jobs (payout.processor.ts), as one state machine over the
  document store, the circle cache and the payout queue.

  What the outside world does during a call (account lookups, on-chain calls, failing writes, a dying process)
  is an input of the step.
 */
module Circles {
  import opened Calendar
  import opened Options
  import opened PayoutDates

  type CircleId = nat
  type UserId = nat

  datatype Chain = NEAR | BASE

  datatype CircleStatus = PENDING | RECRUITING | ACTIVE | COMPLETED | CANCELLED

  datatype MemberStatus = ActiveMember | RemovedMember

  datatype Member = Member(userId: UserId, position: nat, hasReceivedPayout: bool, status: MemberStatus)

  datatype Circle = Circle(
    chain: Chain,
    creatorId: UserId,
    amount: real,
    frequency: PayoutFrequency,
    gracePeriodDays: nat,
    maxMembers: nat,
    members: seq<Member>,
    status: CircleStatus,
    currentRound: nat,
    totalRounds: nat,
    startDate: Day,
    nextPayoutDate: Day,
    contractAddress: Option<string>)

  /** generatePayoutJobId */
  datatype JobId = JobId(circleId: CircleId, round: nat)

  datatype JobData = JobData(
    circleId: CircleId,
    roundNumber: nat,
    recipientUserId: UserId,
    chain: Chain,
    payoutAmount: real,
    scheduledPayoutDate: Day)

  datatype JobState = Waiting | Finished | Exhausted

  datatype Job = Job(data: JobData, attemptsMade: nat, state: JobState)

  const MAX_ATTEMPTS := 3

  /** What startCircle writes into currentRound. */
  const FIRST_ROUND := 1

  /**
    How far an eligible payout attempt got before it failed: the pending record, the transfer, the confirmed
    record, the member's mark, the round counter, the completion check, and the notification.
   */
  datatype Reach = Verified | Recorded | Transferred | Confirmed | Marked | Advanced | Checked | Notified
  {
    function Rank(): nat {
      match this
      case Verified => 0
      case Recorded => 1
      case Transferred => 2
      case Confirmed => 3
      case Marked => 4
      case Advanced => 5
      case Checked => 6
      case Notified => 7
    }
  }

  /** Who a payout goes to: on NEAR the job says, on Base the circle's contract decides and is told neither. */
  datatype Payee = Direct(recipient: UserId, amount: real) | ByContract

  datatype Event =
    | Activated(circleId: CircleId)
    | Started(circleId: CircleId)
    | Sent(circleId: CircleId, round: nat, payee: Payee, reach: Reach)

  /** The payout transaction records. */
  datatype PayoutRecord = PayoutRecord(circleId: CircleId, round: nat, confirmed: bool)

  datatype World = World(
    firstRound: nat,
    store: map<CircleId, Circle>,
    cache: map<CircleId, Circle>,
    jobs: map<JobId, Job>,
    records: seq<PayoutRecord>,
    log: seq<Event>)

  function StartWith(firstRound: nat): World {
    World(firstRound, map[], map[], map[], [], [])
  }

  datatype Reply = Ok | Refused(reason: string)

  // --- Members ---

  function ActiveMembers(members: seq<Member>): seq<Member> {
    if members == [] then []
    else
      var rest := ActiveMembers(members[1..]);
      if members[0].status == ActiveMember then [members[0]] + rest else rest
  }

  function Insert(m: Member, sorted: seq<Member>): seq<Member> {
    if sorted == [] || m.position <= sorted[0].position then [m] + sorted
    else [sorted[0]] + Insert(m, sorted[1..])
  }

  /** sort((a, b) => a.position - b.position), which is stable. */
  function SortByPosition(members: seq<Member>): seq<Member> {
    if members == [] then [] else Insert(members[0], SortByPosition(members[1..]))
  }

  /** The first active member with this id. */
  function FindMember(members: seq<Member>, user: UserId): Option<Member> {
    if members == [] then None
    else if members[0].userId == user && members[0].status == ActiveMember then Some(members[0])
    else FindMember(members[1..], user)
  }

  /** The array update of markPayoutReceived: every element with this id. */
  function MarkMembers(members: seq<Member>, user: UserId): (r: seq<Member>)
    ensures |r| == |members|
  {
    seq(|members|, i requires 0 <= i < |members| =>
      if members[i].userId == user then members[i].(hasReceivedPayout := true) else members[i])
  }

  predicate SomeoneUnpaid(members: seq<Member>) {
    exists i :: 0 <= i < |members| && members[i].status == ActiveMember && !members[i].hasReceivedPayout
  }

  function PayoutAmount(c: Circle): real {
    c.amount * |ActiveMembers(c.members)| as real
  }

  // --- Lifecycle ---

  datatype NewCircle = NewCircle(
    chain: Chain,
    creatorId: UserId,
    amount: real,
    frequency: PayoutFrequency,
    gracePeriodDays: nat,
    maxMembers: nat,
    startDate: Day)

  /** createCircle. `valid` is whether the creator has an account and the currency fits the chain. */
  function CreateCircle(w: World, id: CircleId, dto: NewCircle, valid: bool): (World, Reply) {
    if id in w.store then (w, Refused("duplicate key"))
    else if !(2 <= dto.maxMembers <= 50) then (w, Refused("validation"))
    else if !valid then (w, Refused("bad request"))
    else
      var circle := Circle(
        dto.chain, dto.creatorId, dto.amount, dto.frequency, dto.gracePeriodDays, dto.maxMembers,
        [Member(dto.creatorId, 1, false, ActiveMember)],
        PENDING, 0, dto.maxMembers, dto.startDate, CalculateNextPayoutDate(dto.startDate, dto.frequency), None);
      (w.(store := w.store[id := circle]), Ok)
  }

  /** getCircleById reads through the cache. */
  function GetCircleById(w: World, id: CircleId): (World, Option<Circle>) {
    if id in w.cache then (w, Some(w.cache[id]))
    else if id in w.store then (w.(cache := w.cache[id := w.store[id]]), Some(w.store[id]))
    else (w, None)
  }

  /** activateCircle. `deployed` is the address of the deployed contract, if the chain calls went through. */
  function ActivateCircle(w: World, id: CircleId, user: UserId, accountOk: bool, deployed: Option<string>)
    : (World, Reply)
  {
    var (seen, found) := GetCircleById(w, id);
    if found.None? then (seen, Refused("Circle not found"))
    else if found.value.creatorId != user then (seen, Refused("Only the circle creator can activate it"))
    else if found.value.status != PENDING then (seen, Refused("cannot activate"))
    else if !accountOk then (seen, Refused("Creator must have an account"))
    else if deployed.None? then (seen, Refused("deployment failed"))
    else if id !in seen.store then (seen, Refused("Failed to activate circle"))
    else
      (seen.(store := seen.store[id := seen.store[id].(contractAddress := deployed, status := RECRUITING)],
             cache := seen.cache - {id},
             log := seen.log + [Activated(id)]), Ok)
  }

  /** joinCircle looks the circle up in the store. `allowed` is whether the whitelist, if any, has the user. */
  function JoinCircle(w: World, id: CircleId, user: UserId, allowed: bool): (World, Reply) {
    if id !in w.store then (w, Refused("Circle not found"))
    else if !allowed then (w, Refused("not whitelisted"))
    else
      var circle := w.store[id];
      var active := ActiveMembers(circle.members);
      if circle.status != RECRUITING then (w, Refused("not accepting new members"))
      else if |active| >= circle.maxMembers then (w, Refused("This circle is full"))
      else if FindMember(circle.members, user).Some? then (w, Refused("already a member"))
      else
        var joined := circle.(members := circle.members + [Member(user, |active| + 1, false, ActiveMember)]);
        (w.(store := w.store[id := joined], cache := w.cache - {id}), Ok)
  }

  /** startCircle. `onChainOk` is whether all members have addresses and the contract started. */
  function StartCircle(w: World, id: CircleId, user: UserId, onChainOk: bool, today: Day): (World, Reply) {
    var (seen, found) := GetCircleById(w, id);
    if found.None? then (seen, Refused("Circle not found"))
    else
      var circle := found.value;
      var active := ActiveMembers(circle.members);
      if circle.creatorId != user then (seen, Refused("Only the circle creator can start it"))
      else if circle.status != RECRUITING then (seen, Refused("must be in RECRUITING status"))
      else if |active| < 2 then (seen, Refused("at least 2 active members"))
      else if circle.contractAddress.None? then (seen, Refused("Circle contract not deployed"))
      else if !onChainOk then (seen, Refused("on-chain start failed"))
      else if id !in seen.store then (seen, Refused("Failed to start circle"))
      else
        var started := seen.store[id].(
          status := ACTIVE, currentRound := seen.firstRound, startDate := today, totalRounds := |active|);
        (seen.(store := seen.store[id := started], cache := seen.cache - {id}, log := seen.log + [Started(id)]), Ok)
  }

  // --- Scheduling ---

  /**
    Who has an account on the chain, whose lookup throws, for which rounds the queue calls throw, and whether the
    final store update throws.
   */
  datatype Surroundings = Surroundings(
    accounts: set<UserId>, lookupFails: set<UserId>, queueDown: set<nat>, updateFails: bool)

  /** One iteration of the scheduling loop. */
  function ScheduleRound(jobs: map<JobId, Job>, id: CircleId, c: Circle, round: nat, env: Surroundings)
    : map<JobId, Job>
    requires 1 <= round <= |SortByPosition(ActiveMembers(c.members))|
  {
    var recipient := SortByPosition(ActiveMembers(c.members))[round - 1];
    if recipient.userId !in env.accounts then jobs
    else if round in env.queueDown then jobs
    else if JobId(id, round) in jobs then jobs
    else
      var data := JobData(
        id, round, recipient.userId, c.chain, PayoutAmount(c), PayoutDate(c.startDate, c.frequency, round));
      jobs[JobId(id, round) := Job(data, 0, Waiting)]
  }

  function ScheduleRounds(jobs: map<JobId, Job>, id: CircleId, c: Circle, rounds: nat, env: Surroundings)
    : map<JobId, Job>
    requires rounds <= |SortByPosition(ActiveMembers(c.members))|
  {
    if rounds == 0 then jobs
    else ScheduleRound(ScheduleRounds(jobs, id, c, rounds - 1, env), id, c, rounds, env)
  }

  /** How many rounds the loop gets through before an account lookup throws. */
  function RoundsReached(sorted: seq<Member>, env: Surroundings): (n: nat)
    ensures n <= |sorted|
  {
    if sorted == [] || sorted[0].userId in env.lookupFails then 0 else 1 + RoundsReached(sorted[1..], env)
  }

  /** scheduleCirclePayouts returns, rather than throwing half-way. */
  predicate SchedulingReturns(c: Circle, env: Surroundings) {
    var sorted := SortByPosition(ActiveMembers(c.members));
    sorted == [] || (RoundsReached(sorted, env) == |sorted| && !env.updateFails)
  }

  /** scheduleCirclePayouts */
  function ScheduleCirclePayouts(w: World, id: CircleId, env: Surroundings): (w': World)
    requires id in w.store
    ensures w'.store.Keys == w.store.Keys
  {
    var c := w.store[id];
    var sorted := SortByPosition(ActiveMembers(c.members));
    if sorted == [] then w
    else
      var queued := w.(jobs := ScheduleRounds(w.jobs, id, c, RoundsReached(sorted, env), env));
      if !SchedulingReturns(c, env) then queued
      else
        queued.(store := w.store[id := c.(nextPayoutDate := PayoutDate(c.startDate, c.frequency, 1),
                                          totalRounds := |sorted|)])
  }

  /** handleCircleActivated: the listener of the start event, which carries the contract address. */
  function HandleCircleActivated(w: World, id: CircleId, announced: Option<string>, env: Surroundings): World {
    if id !in w.store || w.store[id].status != ACTIVE then w
    else if w.store[id].contractAddress.None? && announced.None? then w
    else ScheduleCirclePayouts(w, id, env)
  }

  /** The rounds getCirclePayoutSchedule reports; jobs that used up their attempts are not in its lists. */
  function ScheduledRounds(jobs: map<JobId, Job>, id: CircleId): set<nat> {
    set j | j in jobs && jobs[j].data.circleId == id && jobs[j].state != Exhausted :: jobs[j].data.roundNumber
  }

  predicate MissingRounds(jobs: map<JobId, Job>, id: CircleId, c: Circle) {
    var scheduled := ScheduledRounds(jobs, id);
    exists i :: 0 <= i < |c.members| && c.members[i].status == ActiveMember && !c.members[i].hasReceivedPayout
             && c.members[i].position !in scheduled
  }

  predicate NeedsReconciling(w: World, id: CircleId) {
    id in w.store && w.store[id].status == ACTIVE && MissingRounds(w.jobs, id, w.store[id])
  }

  function ReconcileCircle(w: World, id: CircleId, env: Surroundings): World {
    if NeedsReconciling(w, id) then ScheduleCirclePayouts(w, id, env) else w
  }

  /**
    reconcilePendingPayouts over the ids of the active circles, in the order the query returned them. A scheduling
    that throws ends the loop; the result says whether it went through.
   */
  function Reconcile(w: World, ids: seq<CircleId>, env: Surroundings): (World, bool) {
    if ids == [] then (w, true)
    else
      var (before, going) := Reconcile(w, ids[..|ids| - 1], env);
      var id := ids[|ids| - 1];
      if !going then (before, false)
      else (ReconcileCircle(before, id, env), NeedsReconciling(before, id) ==> SchedulingReturns(before.store[id], env))
  }

  // --- Payout jobs ---

  /**
    What an attempt meets: the recipient's account, the contract balance, how far it gets, whether the process dies.
   */
  datatype Weather = Weather(hasAccount: bool, balanceOk: bool, reach: Reach, dies: bool)

  /** verifyPayoutEligibility: the reason to refuse, if any. */
  function Ineligible(w: World, data: JobData, weather: Weather): Option<string> {
    if data.circleId !in w.store then Some("Circle not found")
    else
      var circle := w.store[data.circleId];
      var member := FindMember(circle.members, data.recipientUserId);
      if circle.status != ACTIVE then Some("not ACTIVE")
      else if circle.contractAddress.None? then Some("Circle has no contract address")
      else if circle.currentRound >= data.roundNumber then Some("already processed")
      else if member.None? then Some("no longer an active member")
      else if member.value.hasReceivedPayout then Some("already received payout")
      else if !weather.hasAccount then Some("no account")
      else if !weather.balanceOk then Some("insufficient balance")
      else None
  }

  /** handlePayoutSuccess, as far as it got. */
  function Settle(c: Circle, recipient: UserId, reach: Reach): Circle {
    var marked := if reach.Rank() >= Marked.Rank() then c.(members := MarkMembers(c.members, recipient)) else c;
    var advanced := if reach.Rank() >= Advanced.Rank() then marked.(currentRound := c.currentRound + 1) else marked;
    if reach.Rank() >= Checked.Rank() && !SomeoneUnpaid(advanced.members)
    then advanced.(status := COMPLETED)
    else advanced
  }

  /** A thrown attempt is retried until the attempts are used up; a dead process leaves the job as it was. */
  function AfterAttempt(job: Job, finished: bool, dies: bool): Job {
    if dies then job
    else if finished then job.(state := Finished)
    else job.(attemptsMade := job.attemptsMade + 1,
              state := if job.attemptsMade + 1 >= MAX_ATTEMPTS then Exhausted else Waiting)
  }

  /** The transaction records an attempt leaves. */
  function Records(data: JobData, reach: Reach): seq<PayoutRecord> {
    if reach.Rank() < Recorded.Rank() then []
    else [PayoutRecord(data.circleId, data.roundNumber, reach.Rank() >= Confirmed.Rank())]
  }

  function PayeeOf(data: JobData): Payee {
    match data.chain
    case NEAR => Direct(data.recipientUserId, data.payoutAmount)
    case BASE => ByContract
  }

  function Sends(data: JobData, reach: Reach): seq<Event> {
    if reach.Rank() < Transferred.Rank() then []
    else [Sent(data.circleId, data.roundNumber, PayeeOf(data), reach)]
  }

  /** PayoutProcessor.process, for one attempt of a queued job. */
  function Process(w: World, j: JobId, weather: Weather): World {
    if j !in w.jobs || w.jobs[j].state != Waiting then w
    else
      var job := w.jobs[j];
      if Ineligible(w, job.data, weather).Some?
      then w.(jobs := w.jobs[j := AfterAttempt(job, false, weather.dies)])
      else
        var id := job.data.circleId;
        w.(store := w.store[id := Settle(w.store[id], job.data.recipientUserId, weather.reach)],
           jobs := w.jobs[j := AfterAttempt(job, weather.reach == Notified, weather.dies)],
           records := w.records + Records(job.data, weather.reach),
           log := w.log + Sends(job.data, weather.reach))
  }

  /** removeOnComplete: a finished job leaves the queue after a while. */
  function Evict(w: World, j: JobId): World {
    if j in w.jobs && w.jobs[j].state == Finished then w.(jobs := w.jobs - {j}) else w
  }

  // --- Runs ---

  datatype Action =
    | Create(id: CircleId, dto: NewCircle, valid: bool)
    | Activate(id: CircleId, user: UserId, accountOk: bool, deployed: Option<string>)
    | Join(id: CircleId, user: UserId, allowed: bool)
    | Start(id: CircleId, user: UserId, onChainOk: bool, today: Day)
    | View(id: CircleId)
    | CacheExpires(id: CircleId)
    | Announce(id: CircleId, announced: Option<string>, env: Surroundings)
    | ReconcileAll(ids: seq<CircleId>, env: Surroundings)
    | RunJob(job: JobId, weather: Weather)
    | EvictJob(job: JobId)

  function Step(w: World, a: Action): World {
    match a
    case Create(id, dto, valid) => CreateCircle(w, id, dto, valid).0
    case Activate(id, user, accountOk, deployed) => ActivateCircle(w, id, user, accountOk, deployed).0
    case Join(id, user, allowed) => JoinCircle(w, id, user, allowed).0
    case Start(id, user, onChainOk, today) => StartCircle(w, id, user, onChainOk, today).0
    case View(id) => GetCircleById(w, id).0
    case CacheExpires(id) => w.(cache := w.cache - {id})
    case Announce(id, announced, env) => HandleCircleActivated(w, id, announced, env)
    case ReconcileAll(ids, env) => Reconcile(w, ids, env).0
    case RunJob(job, weather) => Process(w, job, weather)
    case EvictJob(job) => Evict(w, job)
  }

  function Run(w: World, actions: seq<Action>): World
    decreases |actions|
  {
    if actions == [] then w else Run(Step(w, actions[0]), actions[1..])
  }
}
