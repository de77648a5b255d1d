/** The contract object itself: storage fields updated in place, proved against `EtibeCircle.Apply`. */
module EtibeCircleContract {
  import opened EtibeCircle
  import opened EtibeCircleInvariant

  datatype Call = Ok | Revert(reason: string)

  class Contract {
    const owner: Address
    const tokenAddress: Address
    const contributionAmount: nat
    const maxMembers: nat

    var currentRound: nat
    var totalRounds: nat
    var isActive: bool
    var memberList: seq<Address>
    var members: map<Address, MemberInfo>
    var isMember: set<Address>
    var payoutOrder: seq<Address>
    var roundContributions: set<(nat, Address)>
    var roundContributionCount: map<nat, nat>
    var ethBalance: nat
    var tokenBalance: nat
    /** Everything the contract ever emitted or moved. */
    ghost var log: seq<Entry>

    function Storage(): State
      reads this
    {
      State(Config(owner, tokenAddress, contributionAmount, maxMembers), currentRound, totalRounds, isActive,
            memberList, members, isMember, payoutOrder, roundContributions, roundContributionCount,
            ethBalance, tokenBalance)
    }

    ghost function World(): World
      reads this
    {
      EtibeCircle.World(Storage(), log)
    }

    ghost predicate Valid()
      reads this
    {
      Inv(World())
    }

    /** The call did what `Apply` says: one step of the run, and a revert leaves no trace. */
    twostate predicate Performed(a: Action, call: Call)
      reads this
    {
      && World() == Step(old(World()), a)
      && (call == Ok <==> Apply(old(Storage()), a).Done?)
      && (call.Revert? ==> Apply(old(Storage()), a) == Reverted(call.reason))
      && Valid()
    }

    constructor (cfg: Config)
      requires Deployable(cfg)
      ensures World() == Start(cfg) && Valid()
    {
      owner, tokenAddress := cfg.owner, cfg.tokenAddress;
      contributionAmount, maxMembers := cfg.contributionAmount, cfg.maxMembers;
      currentRound, totalRounds, isActive := 0, 0, false;
      memberList, members, isMember := [], map[], {};
      payoutOrder := [];
      roundContributions, roundContributionCount := {}, map[];
      ethBalance, tokenBalance := 0, 0;
      log := [];
      new;
      InvStart(cfg);
    }

    method AddMember(caller: Address, member: Address, position: nat) returns (call: Call)
      requires Valid()
      modifies this
      ensures Performed(Action.AddMember(caller, member, position), call)
    {
      hide InvAt;
      InvStep(World(), Action.AddMember(caller, member, position));
      if caller != owner { return Revert("OwnableUnauthorizedAccount"); }
      if isActive { return Revert("Circle already active"); }
      if member in isMember { return Revert("Already a member"); }
      if |memberList| >= maxMembers { return Revert("Circle is full"); }
      members := members[member := MemberInfo(position, true, false, 0)];
      isMember := isMember + {member};
      memberList := memberList + [member];
      log := log + [MemberAdded(member, position)];
      call := Ok;
    }

    method SetPayoutOrder(caller: Address, order: seq<Address>) returns (call: Call)
      requires Valid()
      modifies this
      ensures Performed(Action.SetPayoutOrder(caller, order), call)
    {
      hide InvAt;
      InvStep(World(), Action.SetPayoutOrder(caller, order));
      if caller != owner { return Revert("OwnableUnauthorizedAccount"); }
      if isActive { return Revert("Circle already active"); }
      if |order| != |memberList| { return Revert("Order must match member count"); }
      for i := 0 to |order|
        invariant forall j :: 0 <= j < i ==> order[j] in isMember
        invariant World() == old(World())
      {
        if order[i] !in isMember { return Revert("Address not a member"); }
      }
      payoutOrder := order;
      assert log + [] == log;
      call := Ok;
    }

    method StartCircle(caller: Address) returns (call: Call)
      requires Valid()
      modifies this
      ensures Performed(Action.StartCircle(caller), call)
    {
      hide InvAt;
      InvStep(World(), Action.StartCircle(caller));
      if caller != owner { return Revert("OwnableUnauthorizedAccount"); }
      if isActive { return Revert("Already active"); }
      if |memberList| < 2 { return Revert("Need at least 2 members"); }
      if |payoutOrder| != |memberList| { return Revert("Payout order not set"); }
      isActive := true;
      currentRound := 1;
      totalRounds := |memberList|;
      log := log + [CircleStarted(totalRounds)];
      call := Ok;
    }

    /** The bookkeeping at the end of both contribution functions. */
    method Record(from: Address)
      modifies this`roundContributions, this`roundContributionCount, this`members
      ensures Storage() == Contribute(old(Storage()), from)
    {
      var info := if from in members then members[from] else MemberInfo(0, false, false, 0);
      var count := if currentRound in roundContributionCount then roundContributionCount[currentRound] else 0;
      roundContributions := roundContributions + {(currentRound, from)};
      roundContributionCount := roundContributionCount[currentRound := count + 1];
      members := members[from := info.(contributedRounds := info.contributedRounds + 1)];
    }

    method ContributeETH(sender: Address, value: nat) returns (call: Call)
      requires Valid()
      modifies this
      ensures Performed(Action.ContributeETH(sender, value), call)
    {
      hide InvAt;
      InvStep(World(), Action.ContributeETH(sender, value));
      if !isActive { return Revert("Circle not active"); }
      if tokenAddress != ZERO_ADDRESS { return Revert("Not an ETH circle"); }
      if sender !in isMember { return Revert("Not a member"); }
      if (currentRound, sender) in roundContributions { return Revert("Already contributed this round"); }
      if value != contributionAmount { return Revert("Incorrect amount"); }
      ethBalance := ethBalance + value;
      Record(sender);
      log := log + [ContributionReceived(sender, currentRound, value)];
      call := Ok;
    }

    method ContributeToken(sender: Address, amount: nat, pullOk: bool) returns (call: Call)
      requires Valid()
      modifies this
      ensures Performed(Action.ContributeToken(sender, amount, pullOk), call)
    {
      hide InvAt;
      InvStep(World(), Action.ContributeToken(sender, amount, pullOk));
      if !isActive { return Revert("Circle not active"); }
      if tokenAddress == ZERO_ADDRESS { return Revert("Not a token circle"); }
      if sender !in isMember { return Revert("Not a member"); }
      if (currentRound, sender) in roundContributions { return Revert("Already contributed this round"); }
      if amount != contributionAmount { return Revert("Incorrect amount"); }
      if !pullOk { return Revert("SafeERC20FailedOperation"); }
      tokenBalance := tokenBalance + amount;
      Record(sender);
      log := log + [ContributionReceived(sender, currentRound, amount)];
      call := Ok;
    }

    /** A successful native or token transfer out of the contract. */
    method Transfer(amount: nat)
      requires amount <= Storage().Funds()
      modifies this`ethBalance, this`tokenBalance
      ensures Storage() == Debit(old(Storage()), amount)
    {
      if tokenAddress == ZERO_ADDRESS {
        ethBalance := ethBalance - amount;
      } else {
        tokenBalance := tokenBalance - amount;
      }
    }

    method ReleasePayout(caller: Address, sendOk: bool) returns (call: Call)
      requires Valid()
      modifies this
      ensures Performed(Action.ReleasePayout(caller, sendOk), call)
    {
      hide InvAt, Tally, Pot, ApplyAddMember, ApplySetPayoutOrder, ApplyStartCircle, ApplyContributeETH,
           ApplyContributeToken, ApplyEmergencyWithdraw, ApplyReceiveEth, ApplyReceiveTokens;
      InvStep(World(), Action.ReleasePayout(caller, sendOk));
      if caller != owner { return Revert("OwnableUnauthorizedAccount"); }
      if !isActive { return Revert("Circle not active"); }
      if currentRound > totalRounds { return Revert("All rounds complete"); }
      if !(1 <= currentRound <= |payoutOrder|) { return Revert("Panic: array index"); }
      var recipient := payoutOrder[currentRound - 1];
      var info := if recipient in members then members[recipient] else MemberInfo(0, false, false, 0);
      if info.hasReceivedPayout { return Revert("Already received payout"); }
      var payoutAmount := Storage().PayoutAmount();
      if payoutAmount > MAX_UINT256 { return Revert("Panic: overflow"); }
      var balance := if tokenAddress == ZERO_ADDRESS then ethBalance else tokenBalance;
      if balance < payoutAmount { return Revert("Insufficient balance"); }
      if !sendOk { return Revert("Transfer failed"); }
      Transfer(payoutAmount);
      members := members[recipient := info.(hasReceivedPayout := true)];
      var released := PayoutReleased(recipient, currentRound, payoutAmount);
      if currentRound == totalRounds {
        isActive := false;
        log := log + [released, CircleCompleted];
      } else {
        currentRound := currentRound + 1;
        log := log + [released];
      }
      call := Ok;
    }

    method EmergencyWithdraw(caller: Address, to: Address, sendOk: bool) returns (call: Call)
      requires Valid()
      modifies this
      ensures Performed(Action.EmergencyWithdraw(caller, to, sendOk), call)
    {
      hide InvAt;
      InvStep(World(), Action.EmergencyWithdraw(caller, to, sendOk));
      if caller != owner { return Revert("OwnableUnauthorizedAccount"); }
      var balance := if tokenAddress == ZERO_ADDRESS then ethBalance else tokenBalance;
      if balance > 0 {
        if !sendOk { return Revert("Transfer failed"); }
        Transfer(balance);
        log := log + [FundsWithdrawn(to, balance)];
      } else {
        assert log + [] == log;
      }
      call := Ok;
    }

    method Receive(value: nat) returns (call: Call)
      requires Valid()
      modifies this
      ensures Performed(ReceiveEth(value), call)
    {
      hide InvAt;
      InvStep(World(), ReceiveEth(value));
      ethBalance := ethBalance + value;
      log := log + [EthDonated(value)];
      call := Ok;
    }
  }

  /** Deployment reverts on a bad configuration. */
  method Deploy(cfg: Config) returns (call: Call, contract: Contract?)
    ensures call == Ok <==> 2 <= cfg.maxMembers <= 50 && cfg.contributionAmount > 0
    ensures call == Revert("Invalid max members") <==> !(2 <= cfg.maxMembers <= 50)
    ensures call == Ok ==> contract != null && fresh(contract) && contract.Valid() && contract.World() == Start(cfg)
    ensures call.Revert? ==> contract == null
  {
    if !(cfg.maxMembers >= 2 && cfg.maxMembers <= 50) { return Revert("Invalid max members"), null; }
    if !(cfg.contributionAmount > 0) { return Revert("Contribution must be > 0"), null; }
    contract := new Contract(cfg);
    call := Ok;
  }
}
