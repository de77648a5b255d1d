/** What every reachable state of the circle contract satisfies. */
module EtibeCircleInvariant {
  import opened Counting
  import opened EtibeCircle

  // --- Membership ---

  /** Membership is a duplicate-free list that never outgrows maxMembers. */
  ghost predicate RosterOk(cfg: Config, list: seq<Address>, isMember: set<Address>, keys: set<Address>) {
    && Deployable(cfg)
    && Distinct(list)
    && isMember == Elements(list) == keys
    && |list| <= cfg.maxMembers
  }

  ghost predicate OrderOk(order: seq<Address>, isMember: set<Address>) {
    forall i :: 0 <= i < |order| ==> order[i] in isMember
  }

  /** An active circle is inside its rounds, and its order covers as many seats as there are members. */
  ghost predicate PhaseOk(s: State) {
    s.isActive ==>
      && 1 <= s.currentRound <= s.totalRounds
      && 2 <= s.totalRounds == |s.memberList| == |s.payoutOrder|
  }

  // --- Contribution records: all of them describe one set of (round, member) flags ---

  ghost predicate FlagRangeOk(flags: set<(nat, Address)>, isMember: set<Address>) {
    forall p :: p in flags ==> 1 <= p.0 && p.1 in isMember
  }

  ghost predicate CountsOk(counts: map<nat, nat>, flags: set<(nat, Address)>) {
    forall k: nat :: (if k in counts then counts[k] else 0) == |Row(flags, k)|
  }

  ghost predicate ColumnsOk(members: map<Address, MemberInfo>, flags: set<(nat, Address)>) {
    forall m :: m in members ==> members[m].contributedRounds == |Column(flags, m)|
  }

  ghost predicate GivenOk(given: map<Address, nat>, flags: set<(nat, Address)>, c: nat) {
    forall m :: Get(given, m) == Times(|Column(flags, m)|, c)
  }

  // --- Payouts ---

  ghost predicate PaidSetOk(paidTo: seq<Address>, members: map<Address, MemberInfo>) {
    && Distinct(paidTo)
    && (forall i :: 0 <= i < |paidTo| ==> paidTo[i] in members && members[paidTo[i]].hasReceivedPayout)
    && (forall a :: a in members && members[a].hasReceivedPayout ==> a in paidTo)
  }

  /** The first n entries of the payout order are the last n recipients. */
  ghost predicate PaidThisActivation(order: seq<Address>, paidTo: seq<Address>, n: nat) {
    n <= |order| && n <= |paidTo| && paidTo[|paidTo| - n..] == order[..n]
  }

  /** The payouts made since the circle was last started. */
  function RoundsPaid(s: State): nat {
    if s.isActive && s.currentRound >= 1 then s.currentRound - 1 else 0
  }

  /** A circle is started at most once more than it completes, and completes at most once. */
  ghost predicate ActivationsOk(active: bool, roundsPaid: nat, paid: nat, starts: nat, completions: nat) {
    && starts == completions + (if active then 1 else 0)
    && completions <= 1
    && (starts == 0 ==> paid == 0)
    && (starts == 1 && active ==> paid == roundsPaid)
    && (completions == 1 ==> paid >= 2 + roundsPaid)
  }

  /** In the first activation all payouts have the same size. */
  ghost predicate AmountsOk(first: bool, paidTo: seq<Address>, received: map<Address, nat>, paid: nat, amount: nat) {
    && (forall a :: a !in paidTo ==> Get(received, a) == 0)
    && (first ==>
          && paid == Times(|paidTo|, amount)
          && (forall a :: a in paidTo ==> Get(received, a) == amount))
  }

  /** In the first activation no flag lies in the future. */
  ghost predicate NoFutureFlags(flags: set<(nat, Address)>, starts: nat, active: bool, round: nat) {
    && (starts == 0 ==> flags == {})
    && (starts == 1 && active ==> forall p :: p in flags ==> p.0 <= round)
  }

  // --- Money ---

  /** Money is conserved; the other currency only ever comes in. */
  ghost predicate LedgerOk(s: State, t: Totals) {
    && s.Funds() + t.paid + t.withdrawn == Times(t.contributions, s.config.contributionAmount) + t.Donated(s.config)
    && (if s.config.EthMode() then s.tokens == t.tokensDonated else s.eth == t.ethDonated)
  }

  ghost predicate First(s: State, t: Totals) { t.starts == 0 || (t.starts == 1 && s.isActive) }

  ghost predicate InvAt(s: State, t: Totals) {
    && RosterOk(s.config, s.memberList, s.isMember, s.members.Keys)
    && OrderOk(s.payoutOrder, s.isMember)
    && PhaseOk(s)
    && FlagRangeOk(s.roundContributions, s.isMember)
    && CountsOk(s.roundContributionCount, s.roundContributions)
    && ColumnsOk(s.members, s.roundContributions)
    && GivenOk(t.given, s.roundContributions, s.config.contributionAmount)
    && t.contributions == |s.roundContributions|
    && PaidSetOk(t.paidTo, s.members)
    && PaidThisActivation(s.payoutOrder, t.paidTo, RoundsPaid(s))
    && ActivationsOk(s.isActive, RoundsPaid(s), |t.paidTo|, t.starts, t.completions)
    && AmountsOk(First(s, t), t.paidTo, t.received, t.paid, s.PayoutAmount())
    && NoFutureFlags(s.roundContributions, t.starts, s.isActive, s.currentRound)
    && LedgerOk(s, t)
  }

  ghost predicate Inv(w: World) { InvAt(w.state, Tally(w.log)) }

  lemma MembersAreKeys(s: State, t: Totals)
    requires InvAt(s, t)
    ensures s.members.Keys == s.isMember
  {}

  // --- One lemma per call ---

  lemma InvAddMember(s: State, t: Totals, caller: Address, member: Address, position: nat)
    requires InvAt(s, t)
    requires ApplyAddMember(s, caller, member, position).Done?
    ensures InvAt(ApplyAddMember(s, caller, member, position).state, Post(t, MemberAdded(member, position)))
  {
    hide GivenOk, CountsOk, PaidThisActivation, NoFutureFlags, Pot;
    var s' := ApplyAddMember(s, caller, member, position).state;
    assert Elements(s'.memberList) == Elements(s.memberList) + {member};
    assert Column(s.roundContributions, member) == {};
  }

  lemma InvSetPayoutOrder(s: State, t: Totals, caller: Address, order: seq<Address>)
    requires InvAt(s, t)
    requires ApplySetPayoutOrder(s, caller, order).Done?
    ensures InvAt(ApplySetPayoutOrder(s, caller, order).state, t)
  {
    hide Pot, RosterOk, OrderOk, FlagRangeOk, CountsOk, ColumnsOk, GivenOk, PaidSetOk, PaidThisActivation, AmountsOk;
    hide NoFutureFlags, ActivationsOk, LedgerOk;
    NewOrder(order, s.isMember, t.paidTo);
    SameLedger(s, ApplySetPayoutOrder(s, caller, order).state, t);
  }

  lemma NewOrder(order: seq<Address>, isMember: set<Address>, paidTo: seq<Address>)
    requires forall i :: 0 <= i < |order| ==> order[i] in isMember
    ensures OrderOk(order, isMember) && PaidThisActivation(order, paidTo, 0)
  {
  }

  lemma SameLedger(s: State, s': State, t: Totals)
    requires LedgerOk(s, t) && s'.config == s.config && s'.eth == s.eth && s'.tokens == s.tokens
    ensures LedgerOk(s', t)
  {
  }

  lemma StartKeepsLedger(s: State, t: Totals)
    requires LedgerOk(s, t)
    ensures LedgerOk(s.(isActive := true, currentRound := 1, totalRounds := |s.memberList|),
                     Post(t, CircleStarted(|s.memberList|)))
  {
  }

  lemma NothingPaidYet(order: seq<Address>, paidTo: seq<Address>)
    ensures PaidThisActivation(order, paidTo, 0)
  {
    assert paidTo[|paidTo|..] == [] == order[..0];
  }

  lemma StartKeepsAmounts(s: State, t: Totals)
    requires AmountsOk(First(s, t), t.paidTo, t.received, t.paid, s.PayoutAmount()) && !s.isActive
    ensures AmountsOk(t.starts == 0, t.paidTo, t.received, t.paid, s.PayoutAmount())
  {
    hide Pot;
  }

  lemma StartKeepsFlagRounds(flags: set<(nat, Address)>, starts: nat, round: nat)
    requires NoFutureFlags(flags, starts, false, round)
    ensures NoFutureFlags(flags, starts + 1, true, 1)
  {
  }

  lemma InvStartCircle(s: State, t: Totals, caller: Address)
    requires InvAt(s, t)
    requires ApplyStartCircle(s, caller).Done?
    ensures InvAt(ApplyStartCircle(s, caller).state, Post(t, CircleStarted(|s.memberList|)))
  {
    hide RosterOk, OrderOk, FlagRangeOk, CountsOk, ColumnsOk, GivenOk, PaidSetOk, PaidThisActivation, NoFutureFlags,
         AmountsOk, LedgerOk, Pot;
    StartKeepsLedger(s, t);
    NothingPaidYet(s.payoutOrder, t.paidTo);
    StartKeepsAmounts(s, t);
    StartKeepsFlagRounds(s.roundContributions, t.starts, s.currentRound);
  }

  /** The storage just before the bookkeeping of a contribution. */
  function Credited(s: State, amount: nat): State {
    if s.config.EthMode() then s.(eth := s.eth + amount) else s.(tokens := s.tokens + amount)
  }

  lemma ContributeKeepsCounts(counts: map<nat, nat>, flags: set<(nat, Address)>, round: nat, from: Address)
    requires CountsOk(counts, flags) && (round, from) !in flags
    ensures CountsOk(counts[round := (if round in counts then counts[round] else 0) + 1], flags + {(round, from)})
  {
    hide Row;
    RowAdd(flags, round, from);
  }

  lemma ContributeKeepsColumns(members: map<Address, MemberInfo>, flags: set<(nat, Address)>, round: nat, from: Address)
    requires ColumnsOk(members, flags) && (round, from) !in flags && from in members
    ensures ColumnsOk(members[from := members[from].(contributedRounds := members[from].contributedRounds + 1)],
                      flags + {(round, from)})
  {
    hide Column;
    ColumnAdd(flags, round, from);
  }

  lemma ContributeKeepsGiven(given: map<Address, nat>, flags: set<(nat, Address)>, round: nat, from: Address, c: nat)
    requires GivenOk(given, flags, c) && (round, from) !in flags
    ensures GivenOk(given[from := Get(given, from) + c], flags + {(round, from)}, c)
  {
    hide Column;
    ColumnAdd(flags, round, from);
    assert Times(|Column(flags, from)| + 1, c) == Times(|Column(flags, from)|, c) + c;
  }

  lemma ContributeKeepsPaidSet(paidTo: seq<Address>, members: map<Address, MemberInfo>, from: Address, rounds: nat)
    requires PaidSetOk(paidTo, members) && from in members
    ensures PaidSetOk(paidTo, members[from := members[from].(contributedRounds := rounds)])
  {
  }

  lemma ContributeKeepsLedger(s: State, t: Totals, from: Address)
    requires LedgerOk(s, t)
    ensures
      var c := s.config.contributionAmount;
      LedgerOk(Contribute(Credited(s, c), from), Post(t, ContributionReceived(from, s.currentRound, c)))
  {
  }

  lemma ContributeKeepsRange(flags: set<(nat, Address)>, isMember: set<Address>, starts: nat, round: nat, from: Address)
    requires FlagRangeOk(flags, isMember) && NoFutureFlags(flags, starts, true, round)
    requires starts >= 1 && round >= 1 && from in isMember
    ensures FlagRangeOk(flags + {(round, from)}, isMember)
    ensures NoFutureFlags(flags + {(round, from)}, starts, true, round)
  {
  }

  lemma ActiveIsStarted(s: State, t: Totals)
    requires InvAt(s, t) && s.isActive
    ensures t.starts >= 1 && s.currentRound >= 1
  {
  }

  lemma InvContribute(s: State, t: Totals, from: Address)
    requires InvAt(s, t)
    requires s.isActive && from in s.isMember && (s.currentRound, from) !in s.roundContributions
    ensures
      var c := s.config.contributionAmount;
      InvAt(Contribute(Credited(s, c), from), Post(t, ContributionReceived(from, s.currentRound, c)))
  {
    hide RosterOk, OrderOk, FlagRangeOk, CountsOk, ColumnsOk, GivenOk, PaidSetOk, PaidThisActivation, AmountsOk, Pot;
    hide NoFutureFlags, LedgerOk, ActivationsOk;
    var c := s.config.contributionAmount;
    MembersAreKeys(s, t);
    ActiveIsStarted(s, t);
    ContributeKeepsCounts(s.roundContributionCount, s.roundContributions, s.currentRound, from);
    ContributeKeepsColumns(s.members, s.roundContributions, s.currentRound, from);
    ContributeKeepsRange(s.roundContributions, s.isMember, t.starts, s.currentRound, from);
    ContributeKeepsGiven(t.given, s.roundContributions, s.currentRound, from, c);
    ContributeKeepsPaidSet(t.paidTo, s.members, from, s.members[from].contributedRounds + 1);
    ContributeKeepsLedger(s, t, from);
    var s', t' := Contribute(Credited(s, c), from), Post(t, ContributionReceived(from, s.currentRound, c));
    assert s'.members.Keys == s.members.Keys;
    assert s'.members == Contribute(s, from).members;
  }

  /** A second completion would need more distinct recipients than there are members. */
  lemma CompletingIsFirst(s: State, t: Totals)
    requires InvAt(s, t)
    requires s.isActive && s.currentRound == s.totalRounds
    requires !s.Paid(s.payoutOrder[s.currentRound - 1])
    ensures t.completions == 0 && t.starts == 1
  {
    hide FlagRangeOk, CountsOk, ColumnsOk, GivenOk, PaidThisActivation, AmountsOk, NoFutureFlags, LedgerOk, Pot;
    assert forall a :: a in s.members.Keys <==> a in Elements(s.memberList);
    var all := t.paidTo + [s.payoutOrder[s.currentRound - 1]];
    assert Distinct(all);
    DistinctCard(all);
    DistinctCard(s.memberList);
    assert Elements(all) <= Elements(s.memberList);
    SubsetCard(Elements(all), Elements(s.memberList));
  }

  lemma ReleaseKeepsPaid(s: State, t: Totals, s': State, paidTo': seq<Address>)
    requires InvAt(s, t)
    requires s.isActive && !s.Paid(s.payoutOrder[s.currentRound - 1])
    requires
      var recipient := s.payoutOrder[s.currentRound - 1];
      && s'.members == s.members[recipient := s.Info(recipient).(hasReceivedPayout := true)]
      && paidTo' == t.paidTo + [recipient]
    ensures PaidSetOk(paidTo', s'.members)
    ensures s'.members.Keys == s.members.Keys
    ensures ColumnsOk(s'.members, s.roundContributions)
    ensures PaidThisActivation(s.payoutOrder, paidTo', s.currentRound)
    ensures PaidThisActivation(s.payoutOrder, paidTo', 0)
    ensures s.payoutOrder[s.currentRound - 1] !in t.paidTo
  {
    hide Pot;
    var n := s.currentRound;
    var recipient := s.payoutOrder[n - 1];
    assert recipient in s.members;
    NothingPaidYet(s.payoutOrder, paidTo');
    assert paidTo'[|paidTo'| - n..] == t.paidTo[|t.paidTo| - (n - 1)..] + [recipient];
    assert s.payoutOrder[..n] == s.payoutOrder[..n - 1] + [recipient];
  }

  lemma ReleaseKeepsAmounts(first: bool, first': bool, t: Totals, to: Address, round: nat, amount: nat)
    requires AmountsOk(first, t.paidTo, t.received, t.paid, amount) && to !in t.paidTo
    requires first' ==> first
    ensures
      var t' := Post(t, PayoutReleased(to, round, amount));
      AmountsOk(first', t'.paidTo, t'.received, t'.paid, amount)
  {
    assert Times(|t.paidTo| + 1, amount) == Times(|t.paidTo|, amount) + amount;
  }

  lemma ReleaseKeepsLedger(s: State, t: Totals, s': State, t': Totals, amount: nat)
    requires LedgerOk(s, t) && amount <= s.Funds()
    requires s'.config == s.config && s'.eth == Debit(s, amount).eth && s'.tokens == Debit(s, amount).tokens
    requires t'.paid == t.paid + amount && t'.withdrawn == t.withdrawn && t'.contributions == t.contributions
    requires t'.ethDonated == t.ethDonated && t'.tokensDonated == t.tokensDonated
    ensures LedgerOk(s', t')
  {
  }

  lemma InvReleasePayout(s: State, t: Totals, caller: Address, sendOk: bool, s': State, t': Totals)
    requires InvAt(s, t)
    requires ApplyReleasePayout(s, caller, sendOk).Done?
    requires s' == ApplyReleasePayout(s, caller, sendOk).state
    requires
      var paid := Post(t, PayoutReleased(s.payoutOrder[s.currentRound - 1], s.currentRound, s.PayoutAmount()));
      t' == if s.currentRound == s.totalRounds then Post(paid, CircleCompleted) else paid
    ensures InvAt(s', t')
  {
    hide RosterOk, OrderOk, FlagRangeOk, CountsOk, ColumnsOk, GivenOk, PaidSetOk, LedgerOk, AmountsOk;
    hide PaidThisActivation, Times, Pot;
    MembersAreKeys(s, t);
    var recipient := s.payoutOrder[s.currentRound - 1];
    if s.currentRound == s.totalRounds { CompletingIsFirst(s, t); }
    ReleaseKeepsPaid(s, t, s', t'.paidTo);
    ReleaseKeepsAmounts(First(s, t), First(s', t'), t, recipient, s.currentRound, s.PayoutAmount());
    ReleaseKeepsLedger(s, t, s', t', s.PayoutAmount());
    assert ActivationsOk(s'.isActive, RoundsPaid(s'), |t'.paidTo|, t'.starts, t'.completions);
  }

  lemma InvEmergencyWithdraw(s: State, t: Totals, to: Address)
    requires InvAt(s, t)
    ensures InvAt(Debit(s, s.Funds()), Post(t, FundsWithdrawn(to, s.Funds())))
  {
    hide Pot;
    MoneyIsSeparate(s, t, Debit(s, s.Funds()), Post(t, FundsWithdrawn(to, s.Funds())));
  }

  lemma InvReceiveEth(s: State, t: Totals, value: nat)
    requires InvAt(s, t)
    ensures InvAt(s.(eth := s.eth + value), Post(t, EthDonated(value)))
  {
    hide Pot;
    MoneyIsSeparate(s, t, s.(eth := s.eth + value), Post(t, EthDonated(value)));
  }

  lemma InvReceiveTokens(s: State, t: Totals, amount: nat)
    requires InvAt(s, t) && !s.config.EthMode()
    ensures InvAt(s.(tokens := s.tokens + amount), Post(t, TokensDonated(amount)))
  {
    hide Pot;
    MoneyIsSeparate(s, t, s.(tokens := s.tokens + amount), Post(t, TokensDonated(amount)));
  }

  /** Only the ledger looks at the balances and at the withdrawn and donated totals. */
  lemma MoneyIsSeparate(s: State, t: Totals, s': State, t': Totals)
    requires InvAt(s, t)
    requires s' == s.(eth := s'.eth, tokens := s'.tokens)
    requires t' == t.(withdrawn := t'.withdrawn, ethDonated := t'.ethDonated, tokensDonated := t'.tokensDonated)
    requires LedgerOk(s', t')
    ensures InvAt(s', t')
  {
    hide RosterOk, OrderOk, FlagRangeOk, CountsOk, ColumnsOk, GivenOk, PaidSetOk, NoFutureFlags, LedgerOk, Pot;
  }

  lemma InvManage(w: World, a: Action)
    requires Inv(w)
    requires a.AddMember? || a.SetPayoutOrder? || a.StartCircle?
    ensures Inv(Step(w, a))
  {
    hide InvAt, Tally, Pot;
    var s, t, o := w.state, Tally(w.log), Apply(w.state, a);
    if o.Done? {
      TallyAppend(w.log, o.entries);
      match a
      case AddMember(caller, member, position) => InvAddMember(s, t, caller, member, position);
      case SetPayoutOrder(caller, order) => InvSetPayoutOrder(s, t, caller, order);
      case StartCircle(caller) => InvStartCircle(s, t, caller);
    }
  }

  lemma InvContributing(w: World, a: Action)
    requires Inv(w) && (a.ContributeETH? || a.ContributeToken?)
    ensures Inv(Step(w, a))
  {
    hide InvAt, Tally, Pot;
    var s, t, o := w.state, Tally(w.log), Apply(w.state, a);
    if o.Done? {
      TallyAppend(w.log, o.entries);
      InvContribute(s, t, a.sender);
    }
  }

  lemma InvStep(w: World, a: Action)
    requires Inv(w)
    ensures Inv(Step(w, a))
  {
    hide InvAt, Tally, Pot;
    if a.AddMember? || a.SetPayoutOrder? || a.StartCircle? {
      InvManage(w, a);
    } else if a.ContributeETH? || a.ContributeToken? {
      InvContributing(w, a);
    } else {
      var s, t, o := w.state, Tally(w.log), Apply(w.state, a);
      if o.Done? {
        TallyAppend(w.log, o.entries);
        match a
        case ReleasePayout(caller, sendOk) => InvReleasePayout(s, t, caller, sendOk, o.state, Tally(w.log + o.entries));
        case EmergencyWithdraw(_, to, _) => InvEmergencyWithdraw(s, t, to);
        case ReceiveEth(value) => InvReceiveEth(s, t, value);
        case ReceiveTokens(amount) => InvReceiveTokens(s, t, amount);
      }
    }
  }

  lemma NoFlags()
    ensures CountsOk(map[], {}) && ColumnsOk(map[], {})
    ensures forall c: nat :: GivenOk(map[], {}, c)
  {
    assert forall k: nat :: Row<Address>({}, k) == {};
    assert forall m: Address :: Column<Address>({}, m) == {};
  }

  lemma InvStart(cfg: Config)
    requires Deployable(cfg)
    ensures Inv(Start(cfg))
  {
    hide CountsOk, ColumnsOk, GivenOk, Pot;
    NoFlags();
    assert Tally([]) == Totals(0, map[], [], map[], 0, 0, 0, 0, 0, 0);
  }

  lemma {:induction false} InvRun(w: World, actions: seq<Action>)
    requires Inv(w)
    ensures Inv(Run(w, actions))
    decreases |actions|
  {
    if actions != [] {
      InvStep(w, actions[0]);
      InvRun(Step(w, actions[0]), actions[1..]);
    }
  }

  /** Every state any history of calls can reach after a successful deployment satisfies the invariant. */
  lemma ReachableInv(cfg: Config, actions: seq<Action>)
    requires Deployable(cfg)
    ensures Inv(Run(Start(cfg), actions))
  {
    InvStart(cfg);
    InvRun(Start(cfg), actions);
  }
}
