/**
  The on-chain savings circle (contracts/EtibeCircle.sol) as a state machine.

  `Apply` gives the outcome of one external call: it reverts, leaving no trace, or it yields
  the new storage together with the entries it leaves on the public record (its events and
  its value transfers). `Run` folds calls over a record that starts at deployment.
 */
module EtibeCircle {

  type Address = nat

  const ZERO_ADDRESS: Address := 0
  const MAX_UINT256: nat := 0xFFFF_FFFF_FFFF_FFFF_FFFF_FFFF_FFFF_FFFF_FFFF_FFFF_FFFF_FFFF_FFFF_FFFF_FFFF_FFFF

  /** One contribution from each of `members` members. */
  function Pot(contribution: nat, members: nat): nat {
    contribution * members
  }

  datatype MemberInfo = MemberInfo(
    position: nat,
    isActive: bool,
    hasReceivedPayout: bool,
    contributedRounds: nat)

  datatype Config = Config(
    owner: Address,
    tokenAddress: Address,
    contributionAmount: nat,
    maxMembers: nat)
  {
    /** A zero token address selects native ETH. */
    predicate EthMode() { tokenAddress == ZERO_ADDRESS }
  }

  /** Storage. Mappings to bool are sets of their true keys. */
  datatype State = State(
    config: Config,
    currentRound: nat,
    totalRounds: nat,
    isActive: bool,
    memberList: seq<Address>,
    members: map<Address, MemberInfo>,
    isMember: set<Address>,
    payoutOrder: seq<Address>,
    roundContributions: set<(nat, Address)>,
    roundContributionCount: map<nat, nat>,
    eth: nat,
    tokens: nat)
  {
    function Count(round: nat): nat {
      if round in roundContributionCount then roundContributionCount[round] else 0
    }

    function Info(a: Address): MemberInfo {
      if a in members then members[a] else MemberInfo(0, false, false, 0)
    }

    predicate Paid(a: Address) { Info(a).hasReceivedPayout }

    /** The balance releasePayout looks at. */
    function Funds(): nat { if config.EthMode() then eth else tokens }

    function PayoutAmount(): nat { Pot(config.contributionAmount, |memberList|) }
  }

  /** What a successful call leaves on the public record. */
  datatype Entry =
    | MemberAdded(member: Address, position: nat)
    | CircleStarted(rounds: nat)
    | ContributionReceived(from: Address, round: nat, amount: nat)
    | PayoutReleased(to: Address, round: nat, amount: nat)
    | CircleCompleted
    | FundsWithdrawn(to: Address, amount: nat)
    | EthDonated(amount: nat)
    | TokensDonated(amount: nat)

  datatype Action =
    | AddMember(caller: Address, member: Address, position: nat)
    | SetPayoutOrder(caller: Address, order: seq<Address>)
    | StartCircle(caller: Address)
    | ContributeETH(sender: Address, value: nat)
    | ContributeToken(sender: Address, amount: nat, pullOk: bool)
    | ReleasePayout(caller: Address, sendOk: bool)
    | EmergencyWithdraw(caller: Address, to: Address, sendOk: bool)
    | ReceiveEth(value: nat)
    | ReceiveTokens(amount: nat)

  datatype Outcome =
    | Reverted(reason: string)
    | Done(state: State, entries: seq<Entry>)

  /** The constructor's guard. */
  predicate Deployable(cfg: Config) {
    2 <= cfg.maxMembers <= 50 && cfg.contributionAmount > 0
  }

  function Deployed(cfg: Config): State {
    State(cfg, 0, 0, false, [], map[], {}, [], {}, map[], 0, 0)
  }

  // --- The external functions ---

  function ApplyAddMember(s: State, caller: Address, member: Address, position: nat): Outcome {
    if caller != s.config.owner then Reverted("OwnableUnauthorizedAccount")
    else if s.isActive then Reverted("Circle already active")
    else if member in s.isMember then Reverted("Already a member")
    else if |s.memberList| >= s.config.maxMembers then Reverted("Circle is full")
    else Done(s.(members := s.members[member := MemberInfo(position, true, false, 0)],
                 isMember := s.isMember + {member},
                 memberList := s.memberList + [member]),
              [MemberAdded(member, position)])
  }

  function ApplySetPayoutOrder(s: State, caller: Address, order: seq<Address>): Outcome {
    if caller != s.config.owner then Reverted("OwnableUnauthorizedAccount")
    else if s.isActive then Reverted("Circle already active")
    else if |order| != |s.memberList| then Reverted("Order must match member count")
    else if exists i :: 0 <= i < |order| && order[i] !in s.isMember then Reverted("Address not a member")
    else Done(s.(payoutOrder := order), [])
  }

  function ApplyStartCircle(s: State, caller: Address): Outcome {
    if caller != s.config.owner then Reverted("OwnableUnauthorizedAccount")
    else if s.isActive then Reverted("Already active")
    else if |s.memberList| < 2 then Reverted("Need at least 2 members")
    else if |s.payoutOrder| != |s.memberList| then Reverted("Payout order not set")
    else Done(s.(isActive := true, currentRound := 1, totalRounds := |s.memberList|),
              [CircleStarted(|s.memberList|)])
  }

  /** The bookkeeping shared by both contribution functions, once the money has arrived. */
  function Contribute(s: State, from: Address): State {
    var info := s.Info(from);
    s.(roundContributions := s.roundContributions + {(s.currentRound, from)},
       roundContributionCount := s.roundContributionCount[s.currentRound := s.Count(s.currentRound) + 1],
       members := s.members[from := info.(contributedRounds := info.contributedRounds + 1)])
  }

  function ApplyContributeETH(s: State, sender: Address, value: nat): Outcome {
    if !s.isActive then Reverted("Circle not active")
    else if s.config.tokenAddress != ZERO_ADDRESS then Reverted("Not an ETH circle")
    else if sender !in s.isMember then Reverted("Not a member")
    else if (s.currentRound, sender) in s.roundContributions then Reverted("Already contributed this round")
    else if value != s.config.contributionAmount then Reverted("Incorrect amount")
    else Done(Contribute(s.(eth := s.eth + value), sender),
              [ContributionReceived(sender, s.currentRound, value)])
  }

  function ApplyContributeToken(s: State, sender: Address, amount: nat, pullOk: bool): Outcome {
    if !s.isActive then Reverted("Circle not active")
    else if s.config.tokenAddress == ZERO_ADDRESS then Reverted("Not a token circle")
    else if sender !in s.isMember then Reverted("Not a member")
    else if (s.currentRound, sender) in s.roundContributions then Reverted("Already contributed this round")
    else if amount != s.config.contributionAmount then Reverted("Incorrect amount")
    else if !pullOk then Reverted("SafeERC20FailedOperation")
    else Done(Contribute(s.(tokens := s.tokens + amount), sender),
              [ContributionReceived(sender, s.currentRound, amount)])
  }

  /** Takes `amount` out of the balance the circle works with. */
  function Debit(s: State, amount: nat): State
    requires amount <= s.Funds()
  {
    if s.config.EthMode() then s.(eth := s.eth - amount) else s.(tokens := s.tokens - amount)
  }

  function ApplyReleasePayout(s: State, caller: Address, sendOk: bool): Outcome {
    if caller != s.config.owner then Reverted("OwnableUnauthorizedAccount")
    else if !s.isActive then Reverted("Circle not active")
    else if s.currentRound > s.totalRounds then Reverted("All rounds complete")
    else if !(1 <= s.currentRound <= |s.payoutOrder|) then Reverted("Panic: array index")
    else
      var recipient := s.payoutOrder[s.currentRound - 1];
      if s.Paid(recipient) then Reverted("Already received payout")
      else if s.PayoutAmount() > MAX_UINT256 then Reverted("Panic: overflow")
      else if s.Funds() < s.PayoutAmount() then Reverted("Insufficient balance")
      else if !sendOk then Reverted("Transfer failed")
      else
        var paid := Debit(s, s.PayoutAmount())
                    .(members := s.members[recipient := s.Info(recipient).(hasReceivedPayout := true)]);
        var released := PayoutReleased(recipient, s.currentRound, s.PayoutAmount());
        if s.currentRound == s.totalRounds
        then Done(paid.(isActive := false), [released, CircleCompleted])
        else Done(paid.(currentRound := s.currentRound + 1), [released])
  }

  function ApplyEmergencyWithdraw(s: State, caller: Address, to: Address, sendOk: bool): Outcome {
    if caller != s.config.owner then Reverted("OwnableUnauthorizedAccount")
    else if s.Funds() == 0 then Done(s, [])
    else if !sendOk then Reverted("Transfer failed")
    else Done(Debit(s, s.Funds()), [FundsWithdrawn(to, s.Funds())])
  }

  function ApplyReceiveEth(s: State, value: nat): Outcome {
    Done(s.(eth := s.eth + value), [EthDonated(value)])
  }

  /** Somebody calls transfer on the circle's own token with the circle as receiver. */
  function ApplyReceiveTokens(s: State, amount: nat): Outcome {
    if s.config.EthMode() then Reverted("No token")
    else Done(s.(tokens := s.tokens + amount), [TokensDonated(amount)])
  }

  function Apply(s: State, a: Action): Outcome {
    match a
    case AddMember(caller, member, position) => ApplyAddMember(s, caller, member, position)
    case SetPayoutOrder(caller, order) => ApplySetPayoutOrder(s, caller, order)
    case StartCircle(caller) => ApplyStartCircle(s, caller)
    case ContributeETH(sender, value) => ApplyContributeETH(s, sender, value)
    case ContributeToken(sender, amount, pullOk) => ApplyContributeToken(s, sender, amount, pullOk)
    case ReleasePayout(caller, sendOk) => ApplyReleasePayout(s, caller, sendOk)
    case EmergencyWithdraw(caller, to, sendOk) => ApplyEmergencyWithdraw(s, caller, to, sendOk)
    case ReceiveEth(value) => ApplyReceiveEth(s, value)
    case ReceiveTokens(amount) => ApplyReceiveTokens(s, amount)
  }

  // --- Runs ---

  /** Storage plus everything that ever happened to the contract. */
  datatype World = World(state: State, log: seq<Entry>)

  function Start(cfg: Config): World { World(Deployed(cfg), []) }

  function Step(w: World, a: Action): World {
    match Apply(w.state, a)
    case Reverted(_) => w
    case Done(s, entries) => World(s, w.log + entries)
  }

  function Run(w: World, actions: seq<Action>): World
    decreases |actions|
  {
    if actions == [] then w else Run(Step(w, actions[0]), actions[1..])
  }

  // --- Reading the record ---

  function Get(m: map<Address, nat>, a: Address): nat { if a in m then m[a] else 0 }

  /** Totals over the record. */
  datatype Totals = Totals(
    contributions: nat,
    given: map<Address, nat>,
    paidTo: seq<Address>,
    received: map<Address, nat>,
    paid: nat,
    withdrawn: nat,
    ethDonated: nat,
    tokensDonated: nat,
    starts: nat,
    completions: nat)
  {
    /** Plain transfers in the currency the circle works with. */
    function Donated(cfg: Config): nat { if cfg.EthMode() then ethDonated else tokensDonated }
  }

  function Post(t: Totals, e: Entry): Totals {
    match e
    case MemberAdded(_, _) => t
    case CircleStarted(_) => t.(starts := t.starts + 1)
    case ContributionReceived(from, _, amount) =>
      t.(contributions := t.contributions + 1, given := t.given[from := Get(t.given, from) + amount])
    case PayoutReleased(to, _, amount) =>
      t.(paidTo := t.paidTo + [to], received := t.received[to := Get(t.received, to) + amount], paid := t.paid + amount)
    case CircleCompleted => t.(completions := t.completions + 1)
    case FundsWithdrawn(_, amount) => t.(withdrawn := t.withdrawn + amount)
    case EthDonated(amount) => t.(ethDonated := t.ethDonated + amount)
    case TokensDonated(amount) => t.(tokensDonated := t.tokensDonated + amount)
  }

  function Tally(log: seq<Entry>): Totals {
    if log == [] then Totals(0, map[], [], map[], 0, 0, 0, 0, 0, 0)
    else Post(Tally(log[..|log| - 1]), log[|log| - 1])
  }

  /** Reading a longer record continues where the shorter one stopped. */
  lemma TallyAppend(log: seq<Entry>, entries: seq<Entry>)
    requires |entries| <= 2
    ensures entries == [] ==> Tally(log + entries) == Tally(log)
    ensures |entries| == 1 ==> Tally(log + entries) == Post(Tally(log), entries[0])
    ensures |entries| == 2 ==> Tally(log + entries) == Post(Post(Tally(log), entries[0]), entries[1])
  {
    if entries == [] {
      assert log + entries == log;
    } else {
      var longer := log + entries;
      assert longer[..|longer| - 1] == log + entries[..|entries| - 1];
      if |entries| == 2 {
        assert (log + entries[..1])[..|log|] == log;
      } else {
        assert log + entries[..0] == log;
      }
    }
  }
}
