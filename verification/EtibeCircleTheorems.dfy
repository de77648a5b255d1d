/** What the circle contract promises over whole histories of calls. */
module EtibeCircleTheorems {
  import opened Counting
  import opened EtibeCircle
  import opened EtibeCircleInvariant

  // --- Conservation ---

  /**
    In every reachable state: what the circle holds, has paid and has handed to the owner is what its
    members contributed plus plain transfers. Assets of the other kind are never paid out.
   */
  lemma LedgerConserved(cfg: Config, actions: seq<Action>)
    requires Deployable(cfg)
    ensures
      var w := Run(Start(cfg), actions);
      var t := Tally(w.log);
      && w.state.Funds() + t.paid + t.withdrawn == cfg.contributionAmount * t.contributions + t.Donated(cfg)
      && (if cfg.EthMode() then w.state.tokens == t.tokensDonated else w.state.eth == t.ethDonated)
  {
    hide Tally, Run, RosterOk, OrderOk, FlagRangeOk, CountsOk, ColumnsOk, GivenOk, PaidSetOk, PaidThisActivation,
         AmountsOk, NoFutureFlags, Pot;
    ReachableInv(cfg, actions);
    ConfigFixed(Start(cfg), actions);
    TimesIsProduct(Tally(Run(Start(cfg), actions).log).contributions, cfg.contributionAmount);
  }

  lemma {:induction false} ConfigFixed(w: World, actions: seq<Action>)
    ensures Run(w, actions).state.config == w.state.config
    decreases |actions|
  {
    hide Pot;
    if actions != [] {
      ConfigFixed(Step(w, actions[0]), actions[1..]);
    }
  }

  // --- Contribution records ---

  ghost function SumCounts(s: State, rounds: nat): nat {
    s.Count(rounds) + if rounds == 0 then 0 else SumCounts(s, rounds - 1)
  }

  ghost function SumContributedRounds(s: State, list: seq<Address>): nat {
    if list == [] then 0
    else SumContributedRounds(s, list[..|list| - 1]) + s.Info(list[|list| - 1]).contributedRounds
  }

  /**
    In every reachable state, across restarts: a round's counter is the number of members flagged in it,
    a member's counter is the number of rounds it is flagged in, and summed over all rounds or over all
    members the counters agree on the number of contributions ever accepted.
   */
  lemma ContributionsCountedTwice(cfg: Config, actions: seq<Action>, rounds: nat)
    requires Deployable(cfg)
    requires
      var s := Run(Start(cfg), actions).state;
      forall p :: p in s.roundContributions ==> p.0 <= rounds
    ensures
      var w := Run(Start(cfg), actions);
      var s := w.state;
      && (forall k: nat :: s.Count(k) == |set p | p in s.roundContributions && p.0 == k|)
      && (forall m :: m in s.memberList ==>
            s.Info(m).contributedRounds == |set p | p in s.roundContributions && p.1 == m|)
      && SumCounts(s, rounds) == SumContributedRounds(s, s.memberList) == Tally(w.log).contributions
  {
    hide Tally, Run, InvAt, Pot;
    ReachableInv(cfg, actions);
    var w := Run(Start(cfg), actions);
    CountersAgree(w.state, Tally(w.log));
    SumsAgree(w.state, Tally(w.log), rounds);
  }

  lemma CountersAgree(s: State, t: Totals)
    requires InvAt(s, t)
    ensures forall k: nat :: s.Count(k) == |set p | p in s.roundContributions && p.0 == k|
    ensures forall m :: m in s.memberList ==>
              s.Info(m).contributedRounds == |set p | p in s.roundContributions && p.1 == m|
  {
    hide OrderOk, PhaseOk, FlagRangeOk, GivenOk, PaidSetOk, PaidThisActivation, AmountsOk, NoFutureFlags, LedgerOk, Pot;
    forall k: nat ensures s.Count(k) == |set p | p in s.roundContributions && p.0 == k| {
      assert Row(s.roundContributions, k) == set p | p in s.roundContributions && p.0 == k;
    }
    forall m | m in s.memberList
      ensures s.Info(m).contributedRounds == |set p | p in s.roundContributions && p.1 == m|
    {
      assert m in s.members.Keys;
      assert Column(s.roundContributions, m) == set p | p in s.roundContributions && p.1 == m;
    }
  }

  lemma SumsAgree(s: State, t: Totals, rounds: nat)
    requires InvAt(s, t)
    requires forall p :: p in s.roundContributions ==> p.0 <= rounds
    ensures SumCounts(s, rounds) == SumContributedRounds(s, s.memberList) == t.contributions
  {
    hide OrderOk, PhaseOk, CountsOk, ColumnsOk, GivenOk, PaidSetOk, PaidThisActivation, AmountsOk, NoFutureFlags;
    hide LedgerOk, SumRows, SumColumns, SumCounts, SumContributedRounds, Pot;
    var flags := s.roundContributions;
    assert UpTo(flags, rounds) == flags;
    assert Of(flags, s.memberList) == flags;
    assert forall m :: m in s.memberList ==> m in s.members.Keys;
    SumOfCounts(s, rounds);
    SumRowsIsCard(flags, rounds);
    SumOfRounds(s, s.memberList);
    SumColumnsIsCard(flags, s.memberList);
  }

  lemma {:induction false} SumOfCounts(s: State, rounds: nat)
    requires CountsOk(s.roundContributionCount, s.roundContributions)
    ensures SumCounts(s, rounds) == SumRows(s.roundContributions, rounds)
  {
    assert s.Count(rounds) == |Row(s.roundContributions, rounds)|;
    if rounds > 0 {
      SumOfCounts(s, rounds - 1);
    }
  }

  lemma {:induction false} SumOfRounds(s: State, list: seq<Address>)
    requires ColumnsOk(s.members, s.roundContributions)
    requires forall m :: m in list ==> m in s.members
    ensures SumContributedRounds(s, list) == SumColumns(s.roundContributions, list)
  {
    if list != [] {
      SumOfRounds(s, list[..|list| - 1]);
      assert list[|list| - 1] in s.members;
    }
  }

  // --- Payouts over the lifetime of a contract ---

  /**
    Over any history at all: recipients are pairwise distinct members, so there are at most maxMembers <= 50
    payouts; a contract completes at most once and is started at most twice.
   */
  lemma LifetimeBounds(cfg: Config, actions: seq<Action>)
    requires Deployable(cfg)
    ensures
      var w := Run(Start(cfg), actions);
      var t := Tally(w.log);
      && Distinct(t.paidTo)
      && (forall a :: a in t.paidTo <==> a in w.state.memberList && w.state.Paid(a))
      && |t.paidTo| <= |w.state.memberList| <= cfg.maxMembers <= 50
      && t.completions <= 1
      && t.starts <= 2
  {
    hide Tally, Run, OrderOk, FlagRangeOk, CountsOk, ColumnsOk, GivenOk, PaidThisActivation, AmountsOk, NoFutureFlags;
    hide LedgerOk, Pot;
    ReachableInv(cfg, actions);
    ConfigFixed(Start(cfg), actions);
    var w := Run(Start(cfg), actions);
    PaidAreMembers(w);
  }

  lemma PaidAreMembers(w: World)
    requires Inv(w)
    ensures |Tally(w.log).paidTo| <= |w.state.memberList|
    ensures forall a :: a in Tally(w.log).paidTo ==> a in w.state.memberList
  {
    hide Pot;
    var paidTo := Tally(w.log).paidTo;
    assert forall a :: a in w.state.members.Keys <==> a in Elements(w.state.memberList);
    DistinctCard(paidTo);
    DistinctCard(w.state.memberList);
    SubsetCard(Elements(paidTo), Elements(w.state.memberList));
  }

  /**
    In a first activation the payouts so far went to the first members of the order, and the next release, whoever
    triggers it and for whatever reason, pays the next member of the order one contribution per member.
   */
  lemma ReleasesFollowTheOrder(cfg: Config, actions: seq<Action>, caller: Address, sendOk: bool)
    requires Deployable(cfg)
    requires Run(Start(cfg), actions).state.isActive && Tally(Run(Start(cfg), actions).log).starts == 1
    ensures
      var w := Run(Start(cfg), actions);
      var s, t, o := w.state, Tally(w.log), Apply(w.state, ReleasePayout(caller, sendOk));
      && |t.paidTo| < |s.payoutOrder| == |s.memberList|
      && t.paidTo == s.payoutOrder[..|t.paidTo|]
      && (o.Done? ==>
            && o.entries != []
            && o.entries[0] == PayoutReleased(s.payoutOrder[|t.paidTo|], |t.paidTo| + 1, s.PayoutAmount()))
  {
    hide Run, Tally, RosterOk, FlagRangeOk, CountsOk, ColumnsOk, GivenOk, PaidSetOk, AmountsOk, NoFutureFlags;
    hide LedgerOk, Pot;
    ReachableInv(cfg, actions);
    var w := Run(Start(cfg), actions);
    assert InvAt(w.state, Tally(w.log));
  }

  /**
    setPayoutOrder never looks for duplicates, yet a release that completes the circle proves that the order
    was a permutation of the members, and that it is the first completion of this contract.
   */
  lemma CompletionMeansPermutation(cfg: Config, actions: seq<Action>, caller: Address, sendOk: bool)
    requires Deployable(cfg)
    requires
      var o := Apply(Run(Start(cfg), actions).state, ReleasePayout(caller, sendOk));
      o.Done? && CircleCompleted in o.entries
    ensures
      var w := Run(Start(cfg), actions);
      && Distinct(w.state.payoutOrder)
      && multiset(w.state.payoutOrder) == multiset(w.state.memberList)
      && Tally(w.log).completions == 0
      && Tally(w.log).starts == 1
  {
    hide Tally, Run, InvAt, Pot;
    ReachableInv(cfg, actions);
    var w := Run(Start(cfg), actions);
    CompletingOrder(w.state, Tally(w.log));
  }

  lemma CompletingOrder(s: State, t: Totals)
    requires InvAt(s, t)
    requires s.isActive && s.currentRound == s.totalRounds
    requires 1 <= s.currentRound <= |s.payoutOrder|
    requires !s.Paid(s.payoutOrder[s.currentRound - 1])
    ensures Distinct(s.payoutOrder)
    ensures multiset(s.payoutOrder) == multiset(s.memberList)
    ensures t.completions == 0 && t.starts == 1
    ensures s.currentRound == |s.memberList|
    ensures s.payoutOrder == t.paidTo + [s.payoutOrder[s.currentRound - 1]]
  {
    hide FlagRangeOk, CountsOk, ColumnsOk, GivenOk, AmountsOk, NoFutureFlags, LedgerOk, Pot;
    CompletingIsFirst(s, t);
    var n := s.currentRound;
    assert t.paidTo == t.paidTo[|t.paidTo| - (n - 1)..] == s.payoutOrder[..n - 1];
    assert s.payoutOrder == t.paidTo + [s.payoutOrder[n - 1]];
    assert s.payoutOrder[n - 1] !in t.paidTo;
    PicksArePermutation(s.payoutOrder, s.memberList);
  }

  // --- The bare balance check forces participation ---

  /**
    In a first activation, when round r is paid out, the value of the contributions still missing from
    rounds 1..r, plus everything the owner has withdrawn, is covered by plain transfers.
   */
  lemma MissingContributionsAreDonated(cfg: Config, actions: seq<Action>, caller: Address, sendOk: bool)
    requires Deployable(cfg)
    requires
      var w := Run(Start(cfg), actions);
      Tally(w.log).starts == 1 && Apply(w.state, ReleasePayout(caller, sendOk)).Done?
    ensures
      var w := Run(Start(cfg), actions);
      var s, t := w.state, Tally(w.log);
      var due := Grid(s.currentRound, s.isMember);
      && s.roundContributions <= due
      && cfg.contributionAmount * |due - s.roundContributions| + t.withdrawn <= t.Donated(cfg)
  {
    hide Tally, Run, InvAt, Pot;
    ReachableInv(cfg, actions);
    ConfigFixed(Start(cfg), actions);
    var w := Run(Start(cfg), actions);
    MissingIsCovered(w.state, Tally(w.log));
  }

  lemma MissingIsCovered(s: State, t: Totals)
    requires InvAt(s, t) && t.starts == 1 && s.isActive
    requires s.Funds() >= s.PayoutAmount()
    ensures
      var due := Grid(s.currentRound, s.isMember);
      && s.roundContributions <= due
      && s.config.contributionAmount * |due - s.roundContributions| + t.withdrawn <= t.Donated(s.config)
  {
    hide InvAt, Grid, Times;
    var c, due := s.config.contributionAmount, Grid(s.currentRound, s.isMember);
    FlagsAreDue(s, t);
    assert |due - s.roundContributions| == |due| - t.contributions;
    ReleaseBalance(s, t);
    TimesIsProduct(t.contributions, c);
    TimesIsProduct(s.currentRound, s.PayoutAmount());
    MissingArithmetic(c, s.currentRound, |s.memberList|, t.contributions);
  }

  lemma FlagsAreDue(s: State, t: Totals)
    requires InvAt(s, t) && t.starts == 1 && s.isActive
    ensures s.roundContributions <= Grid(s.currentRound, s.isMember)
    ensures |Grid(s.currentRound, s.isMember)| == s.currentRound * |s.memberList|
    ensures t.contributions == |s.roundContributions|
  {
    hide OrderOk, CountsOk, ColumnsOk, GivenOk, PaidSetOk, PaidThisActivation, AmountsOk, LedgerOk, Pot;
    GridCard(s.currentRound, s.isMember);
    DistinctCard(s.memberList);
  }

  lemma ReleaseBalance(s: State, t: Totals)
    requires InvAt(s, t) && t.starts == 1 && s.isActive
    requires s.Funds() >= s.PayoutAmount()
    ensures Times(s.currentRound, s.PayoutAmount()) + t.withdrawn
         <= Times(t.contributions, s.config.contributionAmount) + t.Donated(s.config)
  {
    hide RosterOk, OrderOk, FlagRangeOk, CountsOk, ColumnsOk, GivenOk, PaidSetOk, PaidThisActivation, NoFutureFlags;
    hide Pot;
  }

  lemma MissingArithmetic(c: nat, r: nat, n: nat, k: nat)
    ensures r * (c * n) - k * c == c * (r * n - k)
  {
  }

  /**
    In a first activation without plain transfers, a successful release in round r means that every member
    has contributed in every round up to r, and that nothing was withdrawn.
   */
  lemma ReleaseMeansEveryoneContributed(cfg: Config, actions: seq<Action>, caller: Address, sendOk: bool)
    requires Deployable(cfg)
    requires
      var w := Run(Start(cfg), actions);
      && Tally(w.log).starts == 1 && Tally(w.log).Donated(cfg) == 0
      && Apply(w.state, ReleasePayout(caller, sendOk)).Done?
    ensures
      var w := Run(Start(cfg), actions);
      && w.state.roundContributions == Grid(w.state.currentRound, w.state.isMember)
      && Tally(w.log).withdrawn == 0
  {
    hide Pot, Run, Tally, Apply, Grid;
    MissingContributionsAreDonated(cfg, actions, caller, sendOk);
    var s := Run(Start(cfg), actions).state;
    var due := Grid(s.currentRound, s.isMember);
    ZeroProduct(cfg.contributionAmount, |due - s.roundContributions|);
    assert due <= s.roundContributions + (due - s.roundContributions);
  }

  lemma ZeroProduct(c: nat, k: nat)
    requires c > 0 && c * k <= 0
    ensures k == 0
  {
  }

  /**
    When such a circle completes it is empty, and for every member: it contributed in all n rounds, and it
    received exactly what it gave, n times the contribution.
   */
  lemma CompletionSettlesEveryone(cfg: Config, actions: seq<Action>, caller: Address, sendOk: bool)
    requires Deployable(cfg)
    requires
      var w := Run(Start(cfg), actions);
      var o := Apply(w.state, ReleasePayout(caller, sendOk));
      Tally(w.log).Donated(cfg) == 0 && o.Done? && CircleCompleted in o.entries
    ensures
      var w := Step(Run(Start(cfg), actions), ReleasePayout(caller, sendOk));
      var s, t, n := w.state, Tally(w.log), |w.state.memberList|;
      && s.Funds() == 0
      && (forall m :: m in s.memberList ==>
            && s.Info(m).contributedRounds == n
            && Get(t.given, m) == Get(t.received, m) == n * cfg.contributionAmount)
  {
    hide Tally, Run, InvAt, Grid, Times, Pot;
    ReachableInv(cfg, actions);
    ConfigFixed(Start(cfg), actions);
    CompletionMeansPermutation(cfg, actions, caller, sendOk);
    ReleaseMeansEveryoneContributed(cfg, actions, caller, sendOk);
    var w := Run(Start(cfg), actions);
    Settled(w.state, Tally(w.log), caller, sendOk);
    var o := Apply(w.state, ReleasePayout(caller, sendOk));
    TallyAppend(w.log, o.entries);
  }

  lemma Settled(s: State, t: Totals, caller: Address, sendOk: bool)
    requires InvAt(s, t) && t.starts == 1
    requires t.Donated(s.config) == 0 && t.withdrawn == 0
    requires s.roundContributions == Grid(s.currentRound, s.isMember)
    requires Distinct(s.payoutOrder) && multiset(s.payoutOrder) == multiset(s.memberList)
    requires ApplyReleasePayout(s, caller, sendOk).Done? && s.currentRound == s.totalRounds
    ensures
      var s' := ApplyReleasePayout(s, caller, sendOk).state;
      var released := PayoutReleased(s.payoutOrder[s.currentRound - 1], s.currentRound, s.PayoutAmount());
      var t' := Post(Post(t, released), CircleCompleted);
      var n := |s.memberList|;
      && s'.Funds() == 0
      && (forall m :: m in s.memberList ==>
            && s'.Info(m).contributedRounds == n
            && Get(t'.given, m) == Get(t'.received, m) == n * s.config.contributionAmount)
  {
    hide InvAt, Grid, Times, Pot, Distinct;
    CompletingOrder(s, t);
    var recipient := s.payoutOrder[s.currentRound - 1];
    LastIsNew(t.paidTo, recipient);
    SettledFunds(s, t);
    PayoutIsProduct(s);
    forall m | m in s.memberList
      ensures m in t.paidTo || m == recipient
      ensures s.Info(m).contributedRounds == |s.memberList| && m in s.members
      ensures Get(t.given, m) == |s.memberList| * s.config.contributionAmount
      ensures Get(t.received, m) == if m in t.paidTo then s.PayoutAmount() else 0
    {
      assert m in multiset(s.payoutOrder);
      SettledMember(s, t, m);
    }
  }

  lemma LastIsNew(front: seq<Address>, last: Address)
    requires Distinct(front + [last])
    ensures last !in front
  {
    assert forall i :: 0 <= i < |front| ==> (front + [last])[i] == front[i];
    assert (front + [last])[|front|] == last;
  }

  lemma PayoutIsProduct(s: State)
    ensures s.PayoutAmount() == |s.memberList| * s.config.contributionAmount
  {}

  lemma SettledFunds(s: State, t: Totals)
    requires InvAt(s, t) && t.starts == 1 && s.isActive
    requires t.Donated(s.config) == 0 && t.withdrawn == 0
    requires s.roundContributions == Grid(s.currentRound, s.isMember)
    requires s.currentRound == |s.memberList|
    ensures s.Funds() == s.PayoutAmount()
  {
    hide RosterOk, OrderOk, FlagRangeOk, CountsOk, ColumnsOk, GivenOk, PaidSetOk, PaidThisActivation, NoFutureFlags,
         Grid, Times, Pot;
    FlagsAreDue(s, t);
    assert t.paid == Times(s.currentRound - 1, s.PayoutAmount());
    SettledArithmetic(s);
  }

  lemma SettledArithmetic(s: State)
    requires 1 <= s.currentRound == |s.memberList|
    ensures Times(s.currentRound * |s.memberList|, s.config.contributionAmount)
         == Times(s.currentRound - 1, s.PayoutAmount()) + s.PayoutAmount()
  {
    var n, c := |s.memberList|, s.config.contributionAmount;
    TimesIsProduct(n * n, c);
    TimesIsProduct(n - 1, s.PayoutAmount());
    assert n * n * c == (n - 1) * (c * n) + c * n;
  }

  lemma SettledMember(s: State, t: Totals, m: Address)
    requires InvAt(s, t) && t.starts == 1 && s.isActive
    requires s.currentRound == |s.memberList| && s.roundContributions == Grid(s.currentRound, s.isMember)
    requires m in s.memberList
    ensures m in s.members && s.Info(m).contributedRounds == |s.memberList|
    ensures Get(t.given, m) == |s.memberList| * s.config.contributionAmount
    ensures Get(t.received, m) == if m in t.paidTo then s.PayoutAmount() else 0
  {
    hide FlagRangeOk, CountsOk, PaidSetOk, PaidThisActivation, NoFutureFlags, LedgerOk, Grid, Times, Pot;
    assert m in s.members.Keys;
    ColumnOfGrid(s.currentRound, s.isMember, m);
    TimesIsProduct(|s.memberList|, s.config.contributionAmount);
  }

  lemma {:induction false} ColumnOfGrid(rounds: nat, members: set<Address>, m: Address)
    requires m in members
    ensures |Column(Grid(rounds, members), m)| == rounds
  {
    if rounds == 0 {
      assert Column(Grid(0, members), m) == {};
    } else {
      ColumnOfGrid(rounds - 1, members, m);
      assert Column(Grid(rounds, members), m) == Column(Grid(rounds - 1, members), m) + {(rounds, m)};
    }
  }

  // --- Which activations can complete ---

  /** The rest of the order is distinct and unpaid, and a payout is representable. */
  ghost predicate Completable(s: State) {
    && s.isActive
    && 1 <= s.currentRound <= |s.payoutOrder|
    && Distinct(s.payoutOrder[s.currentRound - 1..])
    && (forall a :: a in s.payoutOrder[s.currentRound - 1..] ==> !s.Paid(a))
    && s.PayoutAmount() <= MAX_UINT256
  }

  /** A duplicate or an already paid member in the rest of the order blocks the circle for good. */
  lemma BlockedStays(w: World, a: Action)
    requires Inv(w) && w.state.isActive && !Completable(w.state)
    ensures
      var w' := Step(w, a);
      w'.state.isActive && !Completable(w'.state) && Tally(w'.log).completions == Tally(w.log).completions
  {
    hide InvAt, Tally, Completable, Pot;
    var s, o := w.state, Apply(w.state, a);
    if o.Done? {
      TallyAppend(w.log, o.entries);
      if a.ReleasePayout? {
        PhaseOf(s, Tally(w.log));
        BlockedRelease(s, a.caller, a.sendOk);
      } else {
        SameOutlook(s, o.state);
      }
    }
  }

  lemma SameOutlook(s: State, s': State)
    requires s.isActive && s'.isActive && s'.config == s.config && s'.memberList == s.memberList
    requires s'.payoutOrder == s.payoutOrder && s'.currentRound == s.currentRound
    requires forall x :: s'.Paid(x) == s.Paid(x)
    ensures Completable(s') == Completable(s)
  {
    hide Pot;
  }

  lemma PhaseOf(s: State, t: Totals)
    requires InvAt(s, t)
    ensures PhaseOk(s)
  {}

  lemma BlockedRelease(s: State, caller: Address, sendOk: bool)
    requires PhaseOk(s) && s.isActive && !Completable(s)
    requires ApplyReleasePayout(s, caller, sendOk).Done?
    ensures s.currentRound < s.totalRounds && !Completable(ApplyReleasePayout(s, caller, sendOk).state)
  {
    hide Distinct, Pot;
    NextSuffix(s.payoutOrder, s.currentRound - 1);
    var s' := ApplyReleasePayout(s, caller, sendOk).state;
    assert forall x :: s'.Paid(x) == (s.Paid(x) || x == s.payoutOrder[s.currentRound - 1]);
    if s.currentRound == s.totalRounds {
      assert s.payoutOrder[s.currentRound..] == [];
      EmptyIsDistinct();
    }
  }

  lemma EmptyIsDistinct()
    ensures Distinct<Address>([])
  {}

  lemma {:induction false} BlockedForever(w: World, actions: seq<Action>)
    requires Inv(w) && w.state.isActive && !Completable(w.state)
    ensures Tally(Run(w, actions).log).completions == Tally(w.log).completions
    decreases |actions|
  {
    hide Pot;
    if actions != [] {
      InvStep(w, actions[0]);
      BlockedStays(w, actions[0]);
      BlockedForever(Step(w, actions[0]), actions[1..]);
    }
  }

  /** Fund the circle with one payout, then release it. */
  function Pay(s: State): seq<Action> {
    [if s.config.EthMode() then ReceiveEth(s.PayoutAmount()) else ReceiveTokens(s.PayoutAmount()),
     ReleasePayout(s.config.owner, true)]
  }

  lemma RunTwo(w: World, a: Action, b: Action)
    ensures Run(w, [a, b]) == Step(Step(w, a), b)
  {
    assert [a, b][1..] == [b] && [b][1..] == [];
    assert Run(Step(w, a), [b]) == Step(Step(w, a), b);
  }

  /** The funding transfer changes nothing but the balance, which then covers the payout. */
  lemma FundingHelps(w: World)
    requires Inv(w) && Completable(w.state)
    ensures
      var funded := Step(w, Pay(w.state)[0]);
      && Inv(funded) && PhaseOk(funded.state) && Completable(funded.state)
      && funded.state.Funds() >= funded.state.PayoutAmount()
      && funded.state == w.state.(eth := funded.state.eth, tokens := funded.state.tokens)
      && Tally(funded.log).completions == Tally(w.log).completions
  {
    hide InvAt, Tally, Distinct, Pot, Completable;
    var s := w.state;
    InvStep(w, Pay(s)[0]);
    var funded := Step(w, Pay(s)[0]);
    PhaseOf(funded.state, Tally(funded.log));
    assert s.isActive by { CompletableIsActive(s); }
    SameOutlook(s, funded.state);
    TallyAppend(w.log, Apply(s, Pay(s)[0]).entries);
  }

  lemma CompletableIsActive(s: State)
    requires Completable(s)
    ensures s.isActive
  {
    hide Distinct, Pot;
  }

  lemma PayAdvances(w: World)
    requires Inv(w) && Completable(w.state)
    ensures
      var w' := Run(w, Pay(w.state));
      && Inv(w')
      && (if w.state.currentRound == w.state.totalRounds
          then Tally(w'.log).completions == Tally(w.log).completions + 1
          else Completable(w'.state) && w'.state.currentRound == w.state.currentRound + 1
               && w'.state.totalRounds == w.state.totalRounds
               && Tally(w'.log).completions == Tally(w.log).completions)
  {
    hide InvAt, Tally, Run, Distinct, Pot, Completable, PhaseOk;
    var s := w.state;
    var funded := Step(w, Pay(s)[0]);
    FundingHelps(w);
    InvStep(funded, Pay(s)[1]);
    RunTwo(w, Pay(s)[0], Pay(s)[1]);
    assert Pay(s) == [Pay(s)[0], Pay(s)[1]];
    CompletableReleases(funded.state);
    TallyAppend(funded.log, Apply(funded.state, Pay(s)[1]).entries);
  }

  lemma CompletableReleases(s: State)
    requires PhaseOk(s) && Completable(s) && s.Funds() >= s.PayoutAmount()
    ensures
      var o := ApplyReleasePayout(s, s.config.owner, true);
      && o.Done?
      && (CircleCompleted in o.entries <==> s.currentRound == s.totalRounds)
      && (s.currentRound < s.totalRounds ==>
            Completable(o.state) && o.state.currentRound == s.currentRound + 1 && o.state.totalRounds == s.totalRounds)
  {
    hide Distinct, Pot;
    NextSuffix(s.payoutOrder, s.currentRound - 1);
    var s' := ApplyReleasePayout(s, s.config.owner, true).state;
    assert forall x :: s'.Paid(x) == (s.Paid(x) || x == s.payoutOrder[s.currentRound - 1]);
  }

  lemma {:induction false} RunAppend(w: World, a: seq<Action>, b: seq<Action>)
    ensures Run(w, a + b) == Run(Run(w, a), b)
    decreases |a|
  {
    if a == [] {
      assert a + b == b;
    } else {
      assert (a + b)[1..] == a[1..] + b;
      RunAppend(Step(w, a[0]), a[1..], b);
    }
  }

  lemma {:induction false} CanFinish(w: World) returns (actions: seq<Action>)
    requires Inv(w) && Completable(w.state)
    ensures Tally(Run(w, actions).log).completions > Tally(w.log).completions
    decreases w.state.totalRounds - w.state.currentRound
  {
    PayAdvances(w);
    var w' := Run(w, Pay(w.state));
    if w.state.currentRound == w.state.totalRounds {
      actions := Pay(w.state);
    } else {
      var rest := CanFinish(w');
      actions := Pay(w.state) + rest;
      RunAppend(w, Pay(w.state), rest);
    }
  }

  /** From any reachable active state, some future completes the circle exactly when `Completable` holds now. */
  lemma CompletionIsPossibleIff(cfg: Config, actions: seq<Action>)
    requires Deployable(cfg)
    requires Run(Start(cfg), actions).state.isActive
    ensures
      var w := Run(Start(cfg), actions);
      (exists more :: Tally(Run(w, more).log).completions > Tally(w.log).completions) <==> Completable(w.state)
  {
    hide Pot;
    ReachableInv(cfg, actions);
    var w := Run(Start(cfg), actions);
    if Completable(w.state) {
      var more := CanFinish(w);
    } else {
      forall more ensures Tally(Run(w, more).log).completions == Tally(w.log).completions {
        BlockedForever(w, more);
      }
    }
  }

  /** A first activation with the same member twice in the order: such runs exist, and none of them ever completes. */
  lemma DuplicateOrderBlocks(more: seq<Action>)
    ensures
      var cfg := Config(1, ZERO_ADDRESS, 10, 2);
      var calls := [AddMember(1, 2, 1), AddMember(1, 3, 2), SetPayoutOrder(1, [2, 2]), StartCircle(1)];
      var w := Run(Start(cfg), calls);
      && Deployable(cfg) && w.state.isActive && w.state.payoutOrder == [2, 2] && w.state.memberList == [2, 3]
      && Tally(Run(w, more).log).completions == 0
  {
    var cfg := Config(1, ZERO_ADDRESS, 10, 2);
    var a, b := AddMember(1, 2, 1), AddMember(1, 3, 2);
    var c, d := SetPayoutOrder(1, [2, 2]), StartCircle(1);
    var w := Step(Step(Step(Step(Start(cfg), a), b), c), d);
    assert w.state.payoutOrder == [2, 2] && w.state.memberList == [2, 3] && w.state.isActive;
    assert w.log == [] + [MemberAdded(2, 1)] + [MemberAdded(3, 2)] + [CircleStarted(2)];
    TallyAppend([], [MemberAdded(2, 1)]);
    TallyAppend([] + [MemberAdded(2, 1)], [MemberAdded(3, 2)]);
    TallyAppend([] + [MemberAdded(2, 1)] + [MemberAdded(3, 2)], [CircleStarted(2)]);
    DuplicateIsBlocked(w, cfg, [a, b, c, d], more);
  }

  lemma DuplicateIsBlocked(w: World, cfg: Config, calls: seq<Action>, more: seq<Action>)
    requires Deployable(cfg) && |calls| == 4
    requires w == Step(Step(Step(Step(Start(cfg), calls[0]), calls[1]), calls[2]), calls[3])
    requires w.state.isActive && w.state.payoutOrder == [2, 2] && w.state.currentRound == 1
    requires Tally(w.log).completions == 0
    ensures Run(Start(cfg), calls) == w && Tally(Run(w, more).log).completions == 0
  {
    hide Step, Tally, InvAt;
    RunTwo(Start(cfg), calls[0], calls[1]);
    RunTwo(Run(Start(cfg), [calls[0], calls[1]]), calls[2], calls[3]);
    assert calls == [calls[0], calls[1]] + [calls[2], calls[3]];
    RunAppend(Start(cfg), [calls[0], calls[1]], [calls[2], calls[3]]);
    ReachableInv(cfg, calls);
    assert w.state.payoutOrder[0..] == [2, 2];
    assert !Distinct([2, 2]) by { assert [2, 2][0] == [2, 2][1]; }
    BlockedForever(w, more);
  }
}
