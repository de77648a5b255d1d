/**
  What every external call of the circle contract answers, read off the public record: exactly when it goes through,
  what it then does, and that it otherwise leaves no trace.
 */
module EtibeCircleCalls {
  import opened EtibeCircle
  import opened EtibeCircleInvariant
  import opened EtibeCircleTheorems

  // --- What the record tells about the storage ---

  ghost predicate HasJoined(log: seq<Entry>, member: Address) {
    exists i :: 0 <= i < |log| && log[i].MemberAdded? && log[i].member == member
  }

  ghost predicate HasContributed(log: seq<Entry>, from: Address, round: nat) {
    exists i :: 0 <= i < |log| && log[i].ContributionReceived? && log[i].from == from && log[i].round == round
  }

  /** The members, in the order in which they were added. */
  function Joined(log: seq<Entry>): seq<Address> {
    if log == [] then []
    else
      var last := log[|log| - 1];
      Joined(log[..|log| - 1]) + if last.MemberAdded? then [last.member] else []
  }

  lemma JoinedAppend(log: seq<Entry>, e: Entry)
    ensures Joined(log + [e]) == Joined(log) + if e.MemberAdded? then [e.member] else []
    ensures forall m :: HasJoined(log + [e], m) <==> HasJoined(log, m) || (e.MemberAdded? && e.member == m)
    ensures forall a: Address, r: nat :: HasContributed(log + [e], a, r) <==>
              HasContributed(log, a, r) || (e.ContributionReceived? && e.from == a && e.round == r)
  {
    var longer := log + [e];
    assert longer[..|log|] == log && longer[|log|] == e;
    assert forall i :: 0 <= i < |log| ==> longer[i] == log[i];
  }

  /** The storage lists exactly the members and the contributions of the record. */
  ghost predicate RecordOk(w: World) {
    && w.state.memberList == Joined(w.log)
    && (forall m :: m in w.state.isMember <==> HasJoined(w.log, m))
    && (forall p: (nat, Address) :: p in w.state.roundContributions <==> HasContributed(w.log, p.1, p.0))
  }

  /** What an entry stands for in the storage. */
  predicate Books(s: State, s': State, e: Entry) {
    && s'.memberList == s.memberList + (if e.MemberAdded? then [e.member] else [])
    && s'.isMember == s.isMember + (if e.MemberAdded? then {e.member} else {})
    && s'.roundContributions
       == s.roundContributions + (if e.ContributionReceived? then {(e.round, e.from)} else {})
  }

  lemma BookedOne(w: World, s: State, e: Entry)
    requires RecordOk(w) && Books(w.state, s, e)
    ensures RecordOk(World(s, w.log + [e]))
  {
    hide HasJoined, HasContributed, Joined;
    JoinedAppend(w.log, e);
  }

  /** A successful call leaves at most one such entry, and perhaps the circle's end. */
  lemma EntriesAreBooked(s: State, a: Action)
    requires Apply(s, a).Done?
    ensures
      var o := Apply(s, a);
      && |o.entries| <= 2 && (|o.entries| == 2 ==> o.entries[1] == CircleCompleted)
      && Books(s, o.state, if o.entries == [] then CircleCompleted else o.entries[0])
  {
    hide Pot;
  }

  lemma RecordStep(w: World, a: Action)
    requires RecordOk(w)
    ensures RecordOk(Step(w, a))
  {
    hide Apply, HasJoined, HasContributed, Joined;
    var o := Apply(w.state, a);
    if o.Done? {
      EntriesAreBooked(w.state, a);
      if o.entries == [] {
        assert w.log + [] == w.log;
      } else {
        hide RecordOk, Books;
        var w' := World(o.state, w.log + [o.entries[0]]);
        BookedOne(w, o.state, o.entries[0]);
        if |o.entries| == 2 {
          assert w.log + o.entries == w'.log + [CircleCompleted];
          EndIsBooked(w');
        } else {
          assert o.entries == [o.entries[0]];
        }
      }
    }
  }

  lemma EndIsBooked(w: World)
    requires RecordOk(w)
    ensures RecordOk(World(w.state, w.log + [CircleCompleted]))
  {
    hide RecordOk;
    BookedOne(w, w.state, CircleCompleted);
  }

  lemma {:induction false} RecordRun(w: World, actions: seq<Action>)
    requires RecordOk(w)
    ensures RecordOk(Run(w, actions))
    decreases |actions|
  {
    hide RecordOk, Step;
    if actions != [] {
      RecordStep(w, actions[0]);
      RecordRun(Step(w, actions[0]), actions[1..]);
    }
  }

  lemma Reachable(cfg: Config, actions: seq<Action>)
    requires Deployable(cfg)
    ensures
      var w := Run(Start(cfg), actions);
      Inv(w) && RecordOk(w) && w.state.config == cfg
  {
    hide Run, Inv;
    ReachableInv(cfg, actions);
    assert RecordOk(Start(cfg));
    RecordRun(Start(cfg), actions);
    ConfigFixed(Start(cfg), actions);
  }

  // --- Payouts and withdrawals ---

  /** The next release can go through: its recipient has received nothing yet, and the pot is there and can be sent. */
  ghost predicate Releasable(w: World, caller: Address, sendOk: bool) {
    var s := w.state;
    && caller == s.config.owner && s.isActive && sendOk
    && 1 <= s.currentRound <= |s.payoutOrder|
    && s.payoutOrder[s.currentRound - 1] !in Tally(w.log).paidTo
    && s.config.contributionAmount * |s.memberList| <= MAX_UINT256
    && s.config.contributionAmount * |s.memberList| <= s.Funds()
  }

  /** One payout of the pot to the next member of the order, which moves the circle one round on or ends it. */
  ghost predicate ReleasedOne(w: World, w': World)
    requires 1 <= w.state.currentRound <= |w.state.payoutOrder|
  {
    var s, s', t' := w.state, w'.state, Tally(w'.log);
    var pot, next := s.config.contributionAmount * |s.memberList|, s.payoutOrder[s.currentRound - 1];
    var last := s.currentRound == s.totalRounds;
    && w'.log == w.log + [PayoutReleased(next, s.currentRound, pot)] + (if last then [CircleCompleted] else [])
    && s'.Funds() == s.Funds() - pot
    && (if s.config.EthMode() then s'.tokens == s.tokens else s'.eth == s.eth)
    && (forall a :: s'.Paid(a) <==> s.Paid(a) || a == next)
    && s'.isActive == !last && s'.currentRound == (if last then s.currentRound else s.currentRound + 1)
    && s' == s.(eth := s'.eth, tokens := s'.tokens, members := s'.members, isActive := s'.isActive,
                currentRound := s'.currentRound)
  }

  /**
    From every reachable state: a release pays, and then pays the pot once to the next member of the order, exactly if
    the owner asks an active circle, that member has not been paid, the pot is representable and covered, and it can be
    sent. Otherwise nothing changes.
   */
  lemma ReleasesExactlyWhen(cfg: Config, actions: seq<Action>, caller: Address, sendOk: bool)
    requires Deployable(cfg)
    ensures
      var w := Run(Start(cfg), actions);
      var w', o := Step(w, ReleasePayout(caller, sendOk)), Apply(w.state, ReleasePayout(caller, sendOk));
      && (o.Done? <==> Releasable(w, caller, sendOk))
      && (if Releasable(w, caller, sendOk) then ReleasedOne(w, w') else w' == w)
  {
    hide Run, Inv, RecordOk;
    Reachable(cfg, actions);
    ReleaseIs(Run(Start(cfg), actions), caller, sendOk);
  }

  lemma ReleaseIs(w: World, caller: Address, sendOk: bool)
    requires Inv(w)
    ensures
      var w', o := Step(w, ReleasePayout(caller, sendOk)), Apply(w.state, ReleasePayout(caller, sendOk));
      && (o.Done? <==> Releasable(w, caller, sendOk))
      && (if Releasable(w, caller, sendOk) then ReleasedOne(w, w') else w' == w)
  {
    hide Tally, RosterOk, FlagRangeOk, CountsOk, ColumnsOk, GivenOk, PaidThisActivation, AmountsOk, NoFutureFlags;
    hide LedgerOk, ActivationsOk;
    var s := w.state;
    if s.isActive {
      PaidIsRecorded(w, s.payoutOrder[s.currentRound - 1]);
    }
  }

  /** The storage's mark of having received a payout is the record's. */
  lemma PaidIsRecorded(w: World, a: Address)
    requires Inv(w)
    ensures w.state.Paid(a) <==> a in Tally(w.log).paidTo
  {
    hide Tally, RosterOk, OrderOk, FlagRangeOk, CountsOk, ColumnsOk, GivenOk, PaidThisActivation, AmountsOk;
    hide NoFutureFlags, LedgerOk, ActivationsOk, Pot;
  }

  lemma WithdrawalIs(w: World, caller: Address, to: Address, sendOk: bool)
    ensures
      var a := EmergencyWithdraw(caller, to, sendOk);
      var w', o := Step(w, a), Apply(w.state, a);
      && (o.Done? <==> caller == w.state.config.owner && (sendOk || w.state.Funds() == 0))
      && (if o.Done? && w.state.Funds() > 0
          then && w'.log == w.log + [FundsWithdrawn(to, w.state.Funds())] && w'.state.Funds() == 0
               && w'.state == if w.state.config.EthMode() then w.state.(eth := 0) else w.state.(tokens := 0)
          else w' == w)
  {
  }

  /**
    From every reachable state: a withdrawal goes through exactly if the owner asks and, unless there is nothing to
    take, the transfer works. Then the named receiver gets all that was ever contributed or donated and not yet paid or
    withdrawn, in the circle's currency, and nothing else changes.
   */
  lemma WithdrawsExactlyWhen(cfg: Config, actions: seq<Action>, caller: Address, to: Address, sendOk: bool)
    requires Deployable(cfg)
    ensures
      var w := Run(Start(cfg), actions);
      var t := Tally(w.log);
      var left := cfg.contributionAmount * t.contributions + t.Donated(cfg) - t.paid - t.withdrawn;
      var a := EmergencyWithdraw(caller, to, sendOk);
      var w', o := Step(w, a), Apply(w.state, a);
      && left >= 0
      && (o.Done? <==> caller == cfg.owner && (sendOk || left == 0))
      && (if o.Done? && left > 0
          then && w'.log == w.log + [FundsWithdrawn(to, left)] && w'.state.Funds() == 0
               && w'.state == if cfg.EthMode() then w.state.(eth := 0) else w.state.(tokens := 0)
          else w' == w)
  {
    hide Run, Inv, RecordOk, Tally, Step, Apply;
    Reachable(cfg, actions);
    LedgerConserved(cfg, actions);
    WithdrawalIs(Run(Start(cfg), actions), caller, to, sendOk);
  }

  // --- Contributions ---

  /** A call of the contribution function for the circle's currency, for the exact amount, whose transfer works. */
  predicate PaysIn(cfg: Config, a: Action) {
    match a
    case ContributeETH(_, value) => cfg.tokenAddress == 0 && value == cfg.contributionAmount
    case ContributeToken(_, amount, pullOk) => cfg.tokenAddress != 0 && amount == cfg.contributionAmount && pullOk
    case _ => false
  }

  ghost predicate ContributedOne(w: World, w': World, from: Address) {
    var s, s' := w.state, w'.state;
    && w'.log == w.log + [ContributionReceived(from, s.currentRound, s.config.contributionAmount)]
    && s'.Funds() == s.Funds() + s.config.contributionAmount
    && (if s.config.EthMode() then s'.tokens == s.tokens else s'.eth == s.eth)
    && (forall a :: s'.Info(a) == s.Info(a).(contributedRounds := s'.Info(a).contributedRounds))
    && (forall a :: s'.Info(a).contributedRounds == s.Info(a).contributedRounds + if a == from then 1 else 0)
    && s' == s.(eth := s'.eth, tokens := s'.tokens, members := s'.members, roundContributions := s'.roundContributions,
                roundContributionCount := s'.roundContributionCount)
  }

  /**
    From every reachable state: a contribution is accepted, and then counted once, exactly if the circle is active, the
    sender was added as a member and no contribution of this member to this round is on record, in any activation.
   */
  lemma ContributesExactlyWhen(cfg: Config, actions: seq<Action>, a: Action)
    requires Deployable(cfg) && (a.ContributeETH? || a.ContributeToken?)
    ensures
      var w := Run(Start(cfg), actions);
      var accepted := PaysIn(cfg, a) && w.state.isActive && HasJoined(w.log, a.sender)
                      && !HasContributed(w.log, a.sender, w.state.currentRound);
      && (Apply(w.state, a).Done? <==> accepted)
      && (if accepted then ContributedOne(w, Step(w, a), a.sender) else Step(w, a) == w)
  {
    hide Run, Inv, HasJoined, HasContributed, Joined;
    Reachable(cfg, actions);
  }

  // --- Managing the circle ---

  /** Only the owner can change an inactive circle: one member more, each address once, never above the limit. */
  lemma AddsExactlyWhen(cfg: Config, actions: seq<Action>, caller: Address, member: Address, position: nat)
    requires Deployable(cfg)
    ensures
      var w := Run(Start(cfg), actions);
      var w', s, s' := Step(w, AddMember(caller, member, position)), w.state,
                       Step(w, AddMember(caller, member, position)).state;
      var added := caller == cfg.owner && !s.isActive && !HasJoined(w.log, member) && |Joined(w.log)| < cfg.maxMembers;
      && (Apply(s, AddMember(caller, member, position)).Done? <==> added)
      && (if added
          then && w'.log == w.log + [MemberAdded(member, position)]
               && s'.memberList == s.memberList + [member]
               && s'.Info(member) == MemberInfo(position, true, false, 0)
               && (forall a :: a != member ==> s'.Info(a) == s.Info(a))
               && s' == s.(memberList := s'.memberList, members := s'.members, isMember := s'.isMember)
          else w' == w)
  {
    hide Run, Inv, HasJoined, HasContributed, Joined;
    Reachable(cfg, actions);
  }

  /** The owner of an inactive circle can set any order of the right length whose entries have all been added. */
  lemma OrdersExactlyWhen(cfg: Config, actions: seq<Action>, caller: Address, order: seq<Address>)
    requires Deployable(cfg)
    ensures
      var w := Run(Start(cfg), actions);
      var w', s := Step(w, SetPayoutOrder(caller, order)), w.state;
      var ordered := && caller == cfg.owner && !s.isActive && |order| == |Joined(w.log)|
                     && forall i :: 0 <= i < |order| ==> HasJoined(w.log, order[i]);
      && (Apply(s, SetPayoutOrder(caller, order)).Done? <==> ordered)
      && w' == if ordered then World(s.(payoutOrder := order), w.log) else w
  {
    hide Run, Inv, HasJoined, HasContributed, Joined;
    Reachable(cfg, actions);
    assert forall log: seq<Entry> :: log + [] == log;
  }

  /** The owner can start an inactive circle of two members or more whose order has their number. */
  lemma StartsExactlyWhen(cfg: Config, actions: seq<Action>, caller: Address)
    requires Deployable(cfg)
    ensures
      var w := Run(Start(cfg), actions);
      var w', s, n := Step(w, StartCircle(caller)), w.state, |Joined(w.log)|;
      var started := caller == cfg.owner && !s.isActive && n >= 2 && |s.payoutOrder| == n;
      && (Apply(s, StartCircle(caller)).Done? <==> started)
      && w' == if started
               then World(s.(isActive := true, currentRound := 1, totalRounds := n), w.log + [CircleStarted(n)])
               else w
  {
    hide Run, Inv, HasJoined, HasContributed, Joined;
    Reachable(cfg, actions);
  }

  // --- Who can do what ---

  /** The owner asks for this. */
  predicate ByOwner(cfg: Config, a: Action) {
    match a
    case AddMember(caller, _, _) => caller == cfg.owner
    case SetPayoutOrder(caller, _) => caller == cfg.owner
    case StartCircle(caller) => caller == cfg.owner
    case ReleasePayout(caller, _) => caller == cfg.owner
    case EmergencyWithdraw(caller, _, _) => caller == cfg.owner
    case _ => false
  }

  ghost predicate OnlyDonations(log: seq<Entry>) {
    forall i :: 0 <= i < |log| ==> log[i].EthDonated? || log[i].TokensDonated?
  }

  /** Without the owner nothing ever happens: whatever anybody else calls, the record only shows plain transfers. */
  lemma NothingWithoutTheOwner(cfg: Config, actions: seq<Action>)
    requires forall i :: 0 <= i < |actions| ==> !ByOwner(cfg, actions[i])
    ensures
      var w := Run(Start(cfg), actions);
      OnlyDonations(w.log) && w.state == Deployed(cfg).(eth := w.state.eth, tokens := w.state.tokens)
  {
    UntouchedRun(cfg, Start(cfg), actions);
  }

  lemma {:induction false} UntouchedRun(cfg: Config, w: World, actions: seq<Action>)
    requires OnlyDonations(w.log) && w.state == Deployed(cfg).(eth := w.state.eth, tokens := w.state.tokens)
    requires forall i :: 0 <= i < |actions| ==> !ByOwner(cfg, actions[i])
    ensures
      var w' := Run(w, actions);
      OnlyDonations(w'.log) && w'.state == Deployed(cfg).(eth := w'.state.eth, tokens := w'.state.tokens)
    decreases |actions|
  {
    if actions != [] {
      hide Pot;
      UntouchedRun(cfg, Step(w, actions[0]), actions[1..]);
    }
  }

  /** Plain transfers always arrive, and do nothing else. */
  lemma DonationsOnlyAdd(w: World, amount: nat)
    ensures Step(w, ReceiveEth(amount)) == World(w.state.(eth := w.state.eth + amount), w.log + [EthDonated(amount)])
    ensures
      Step(w, ReceiveTokens(amount))
      == if w.state.config.EthMode() then w
         else World(w.state.(tokens := w.state.tokens + amount), w.log + [TokensDonated(amount)])
  {
  }

  // --- What a revert says ---

  /** What has to be the case for a call that manages the circle to be refused with this message. */
  ghost predicate ManagingIsRefused(w: World, a: Action, reason: string) {
    match reason
    case "OwnableUnauthorizedAccount" => !ByOwner(w.state.config, a)
    case "Circle already active" => w.state.isActive && !a.StartCircle?
    case "Already active" => w.state.isActive && a.StartCircle?
    case "Already a member" => a.AddMember? && HasJoined(w.log, a.member)
    case "Circle is full" => a.AddMember? && |Joined(w.log)| == w.state.config.maxMembers
    case "Order must match member count" => a.SetPayoutOrder? && |a.order| != |Joined(w.log)|
    case "Address not a member" => a.SetPayoutOrder? && exists m :: m in a.order && !HasJoined(w.log, m)
    case "Need at least 2 members" => a.StartCircle? && |Joined(w.log)| < 2
    case "Payout order not set" => a.StartCircle? && |w.state.payoutOrder| != |Joined(w.log)|
    case _ => false
  }

  ghost predicate ContributingIsRefused(w: World, sender: Address, amount: nat, pullOk: bool, reason: string) {
    match reason
    case "Circle not active" => !w.state.isActive
    case "Not an ETH circle" => !w.state.config.EthMode()
    case "Not a token circle" => w.state.config.EthMode()
    case "Not a member" => !HasJoined(w.log, sender)
    case "Already contributed this round" => HasContributed(w.log, sender, w.state.currentRound)
    case "Incorrect amount" => amount != w.state.config.contributionAmount
    case "SafeERC20FailedOperation" => !pullOk
    case _ => false
  }

  ghost predicate ReleasingIsRefused(w: World, a: Action, reason: string)
    requires a.ReleasePayout?
  {
    var s := w.state;
    match reason
    case "OwnableUnauthorizedAccount" => a.caller != s.config.owner
    case "Circle not active" => !s.isActive
    case "Already received payout" =>
      s.isActive && 1 <= s.currentRound <= |s.payoutOrder| && s.payoutOrder[s.currentRound - 1] in Tally(w.log).paidTo
    case "Panic: overflow" => s.PayoutAmount() > MAX_UINT256
    case "Insufficient balance" => s.Funds() < s.PayoutAmount() <= MAX_UINT256
    case "Transfer failed" => !a.sendOk
    case _ => false
  }

  ghost predicate IsSo(w: World, a: Action, reason: string) {
    match a
    case ContributeETH(sender, value) => ContributingIsRefused(w, sender, value, true, reason)
    case ContributeToken(sender, amount, pullOk) => ContributingIsRefused(w, sender, amount, pullOk, reason)
    case ReleasePayout(_, _) => ReleasingIsRefused(w, a, reason)
    case EmergencyWithdraw(caller, _, sendOk) =>
      if reason == "Transfer failed" then !sendOk && w.state.Funds() > 0
      else reason == "OwnableUnauthorizedAccount" && caller != w.state.config.owner
    case ReceiveEth(_) => false
    case ReceiveTokens(_) => w.state.config.EthMode()
    case _ => ManagingIsRefused(w, a, reason)
  }

  /**
    In every reachable state a refusal names something that is the case. So the round and index guards of a release,
    which no message here stands for, never fire.
   */
  lemma RevertsTellTheTruth(cfg: Config, actions: seq<Action>, a: Action)
    requires Deployable(cfg)
    ensures
      var w := Run(Start(cfg), actions);
      Apply(w.state, a).Reverted? ==> IsSo(w, a, Apply(w.state, a).reason)
  {
    hide Run, Inv, RecordOk, ManagingIsRefused, ContributingIsRefused, ReleasingIsRefused, Apply;
    Reachable(cfg, actions);
    var w := Run(Start(cfg), actions);
    match a
    case ContributeETH(_, _) => ContributingRefusalIsSo(w, a);
    case ContributeToken(_, _, _) => ContributingRefusalIsSo(w, a);
    case ReleasePayout(_, _) => ReleaseRefusalIsSo(w, a);
    case EmergencyWithdraw(_, _, _) => MoneyRefusalIsSo(w, a);
    case ReceiveEth(_) => MoneyRefusalIsSo(w, a);
    case ReceiveTokens(_) => MoneyRefusalIsSo(w, a);
    case _ => ManagingRefusalIsSo(w, a);
  }

  lemma ReleaseRefusalIsSo(w: World, a: Action)
    requires Inv(w) && a.ReleasePayout?
    ensures Apply(w.state, a).Reverted? ==> ReleasingIsRefused(w, a, Apply(w.state, a).reason)
  {
    hide Tally, Pot, RosterOk, FlagRangeOk, CountsOk, ColumnsOk, GivenOk, PaidThisActivation, AmountsOk, NoFutureFlags;
    hide LedgerOk, ActivationsOk, PaidSetOk, OrderOk;
    if w.state.isActive { PaidIsRecorded(w, w.state.payoutOrder[w.state.currentRound - 1]); }
  }

  lemma MoneyRefusalIsSo(w: World, a: Action)
    requires a.EmergencyWithdraw? || a.ReceiveEth? || a.ReceiveTokens?
    ensures Apply(w.state, a).Reverted? ==> IsSo(w, a, Apply(w.state, a).reason)
  {
  }

  lemma ContributingRefusalIsSo(w: World, a: Action)
    requires RecordOk(w) && (a.ContributeETH? || a.ContributeToken?)
    ensures Apply(w.state, a).Reverted? ==> IsSo(w, a, Apply(w.state, a).reason)
  {
    hide HasJoined, HasContributed, Joined;
  }

  lemma ManagingRefusalIsSo(w: World, a: Action)
    requires Inv(w) && RecordOk(w) && (a.AddMember? || a.SetPayoutOrder? || a.StartCircle?)
    ensures Apply(w.state, a).Reverted? ==> ManagingIsRefused(w, a, Apply(w.state, a).reason)
  {
    hide Tally, Pot, HasJoined, HasContributed, Joined;
    hide FlagRangeOk, CountsOk, ColumnsOk, GivenOk, PaidThisActivation, AmountsOk, NoFutureFlags;
    hide LedgerOk, ActivationsOk, PaidSetOk, OrderOk;
  }
}
