/** How far the three key families stay in agreement over whole runs. */
module SessionTheorems {
  import opened Counting
  import opened Options
  import opened Sessions
  import opened SessionInvariant

  // --- The user's list ---

  /**
    In every run, whatever time passes inside the operations, a session whose own expiry has not been reached is
    stored, listed for its user and readable there, and the list goes no earlier than the session expires.
   */
  lemma CurrentSessionsAreListed(ticks: seq<Tick>, id: SessionId)
    requires FreshIds({}, ticks) && Current(Run(START, ticks).store, Run(START, ticks).now, id)
    ensures
      var w := Run(START, ticks);
      var st, s := w.store, w.store.sessions[id].value;
      && Live(st, w.now, id)
      && id in UserList(st, w.now, s.userId)
      && Outlasts(st.userSessions[s.userId].expiry, s.expiresAt)
  {
    hide Run;
    ReachableInv(ticks);
    var w := Run(START, ticks);
    CurrentIsLive(w.store, w.now, id, w.issued);
  }

  // --- The device's key ---

  /** No step of the run takes the device key from a current session. */
  ghost predicate NeverUnhooks(ticks: seq<Tick>) {
    forall k :: 0 <= k < |ticks| ==> !UnhooksIn(Run(START, ticks[..k]), ticks[k])
  }

  ghost predicate AlwaysHooked(ticks: seq<Tick>) {
    forall k :: 0 <= k <= |ticks| ==> Hooked(Run(START, ticks[..k]))
  }

  /**
    Every current session is the one its device's key points to, all through a run, exactly if no step invalidates a
    session whose device key points to another, current one.
   */
  lemma CurrentSessionsAreHookedIff(ticks: seq<Tick>)
    requires FreshIds({}, ticks)
    ensures AlwaysHooked(ticks) <==> NeverUnhooks(ticks)
  {
    hide Run, Hooked, InvW, Step, UnhooksIn;
    if NeverUnhooks(ticks) {
      forall k | 0 <= k <= |ticks| ensures Hooked(Run(START, ticks[..k])) { HookedUpTo(ticks, k); }
    }
    if AlwaysHooked(ticks) {
      forall k | 0 <= k < |ticks| ensures !UnhooksIn(Run(START, ticks[..k]), ticks[k]) {
        PrefixReached(ticks, k);
        StepKeeps(Run(START, ticks[..k]), ticks[k]);
      }
    }
  }

  lemma NothingIsHooked()
    ensures Hooked(START)
  {
  }

  lemma {:induction false} HookedUpTo(ticks: seq<Tick>, k: nat)
    requires FreshIds({}, ticks) && NeverUnhooks(ticks) && k <= |ticks|
    ensures Hooked(Run(START, ticks[..k]))
  {
    hide Hooked, InvW, Step, UnhooksIn;
    if k == 0 {
      NothingIsHooked();
      assert ticks[..0] == [];
    } else {
      hide Run;
      HookedUpTo(ticks, k - 1);
      PrefixReached(ticks, k - 1);
      StepKeeps(Run(START, ticks[..k - 1]), ticks[k - 1]);
    }
  }

  /** In those runs the key of the device can be read too, and goes no earlier than the session expires. */
  lemma CurrentSessionsAreHooked(ticks: seq<Tick>, id: SessionId)
    requires FreshIds({}, ticks) && NeverUnhooks(ticks)
    requires Current(Run(START, ticks).store, Run(START, ticks).now, id)
    ensures
      var w := Run(START, ticks);
      var st, s := w.store, w.store.sessions[id].value;
      && Get(st.deviceSessions, (s.userId, s.deviceId), w.now) == Some(id)
      && Outlasts(st.deviceSessions[(s.userId, s.deviceId)].expiry, s.expiresAt)
  {
    hide Run, NeverUnhooks;
    ReachableInv(ticks);
    HookedUpTo(ticks, |ticks|);
    assert ticks[..|ticks|] == ticks;
    var w := Run(START, ticks);
    assert PointedTo(w.store, w.store.sessions[id].value);
  }

  // --- One session for a user and device ---

  predicate OfDevice(s: Session, user: UserId, device: DeviceId) { s.userId == user && s.deviceId == device }

  ghost predicate AloneOnDevice(st: Store, now: nat, user: UserId, device: DeviceId, id: SessionId) {
    forall x :: Current(st, now, x) && OfDevice(st.sessions[x].value, user, device) ==> x == id
  }

  /** createSession overlooks this session of the device: its look-up does not return it, and it stays current. */
  predicate Overlooked(st: Store, m: Creation, user: UserId, device: DeviceId, x: SessionId) {
    && Current(st, m.point, x) && OfDevice(st.sessions[x].value, user, device)
    && Get(st.deviceSessions, (user, device), m.look) != Some(x)
  }

  /** What createSession leaves of the sessions that were there. */
  ghost predicate ClearsOnlyThePrevious(
      st: Store, st': Store, m: Creation, user: UserId, device: DeviceId, id: SessionId)
  {
    && id in st'.sessions
    && st'.sessions[id].value == Session(id, user, device, m.clock, m.clock + SESSION_TTL_MS, true)
    && st'.sessions[id].expiry == Some(m.store + SESSION_TTL_MS)
    && (forall x :: x in st'.sessions && x != id ==> x in st.sessions && st'.sessions[x] == st.sessions[x])
    && (forall x :: Current(st, m.point, x) ==>
          (x in st'.sessions <==> Get(st.deviceSessions, (user, device), m.look) != Some(x)))
  }

  lemma CreateClearsThePrevious(
      st: Store, now: nat, m: Creation, user: UserId, device: DeviceId, id: SessionId, issued: set<SessionId>)
    requires Inv(st, now, issued) && now <= m.clock && m.Ordered() && id !in issued
    ensures ClearsOnlyThePrevious(st, CreateSession(st, m, user, device, id), m, user, device, id)
  {
    var cleared := InvalidateDeviceSession(st, m.look, m.clear, user, device);
    ClearedSessions(st, now, m, user, device, issued);
    hide InvalidateDeviceSession, IndexesOk, CurrentAreListed, IndexesExpire, SessionsOk;
    CreateAdds(st, now, m, user, device, id, issued);
  }

  lemma ClearedSessions(
      st: Store, now: nat, m: Creation, user: UserId, device: DeviceId, issued: set<SessionId>)
    requires Inv(st, now, issued) && now <= m.clock && m.Ordered()
    ensures
      var cleared := InvalidateDeviceSession(st, m.look, m.clear, user, device);
      && (forall x :: x in cleared.sessions ==> x in st.sessions && cleared.sessions[x] == st.sessions[x])
      && (forall x :: Current(st, m.point, x) ==>
            (x in cleared.sessions <==> Get(st.deviceSessions, (user, device), m.look) != Some(x)))
  {
  }

  /**
    After createSession the new session is the only unexpired one of this user on this device exactly if it overlooked
    none. In any case the new session lives out its time, and nothing of any other user has changed.
   */
  lemma CreateReplacesDeviceSession(ticks: seq<Tick>, t: Tick)
    requires FreshIds({}, ticks) && t.action.Create? && t.action.id !in Run(START, ticks).issued
    ensures
      var before, after, a := Run(START, ticks), Step(Run(START, ticks), t), t.action;
      var m := CreationOf(before.now + t.ms, a);
      && (AloneOnDevice(after.store, after.now, a.user, a.device, a.id) <==>
            forall x :: !Overlooked(before.store, m, a.user, a.device, x))
      && Live(after.store, after.store.sessions[a.id].value.expiresAt - 1, a.id)
      && (forall other :: other != a.user ==> SameFor(before.store, after.store, other))
  {
    hide Run, CreateSession, SameFor, SessionsOk, CurrentAreListed, IndexesOk, IndexesExpire;
    ReachableInv(ticks);
    var w, a := Run(START, ticks), t.action;
    var m := CreationOf(w.now + t.ms, a);
    var st' := CreateSession(w.store, m, a.user, a.device, a.id);
    CreateClearsThePrevious(w.store, w.now, m, a.user, a.device, a.id, w.issued);
    AloneIff(w.store, st', m, a.user, a.device, a.id, w.issued);
    forall other | other != a.user ensures SameFor(w.store, st', other) {
      CreateKeepsOthers(w.store, m, a.user, a.device, a.id, w.issued, other);
    }
  }

  lemma AloneIff(
      st: Store, st': Store, m: Creation, user: UserId, device: DeviceId, id: SessionId, issued: set<SessionId>)
    requires ClearsOnlyThePrevious(st, st', m, user, device, id) && IssuedOk(st, issued) && id !in issued
    ensures AloneOnDevice(st', m.point, user, device, id) <==> forall x :: !Overlooked(st, m, user, device, x)
  {
    if x :| Overlooked(st, m, user, device, x) { assert Current(st', m.point, x) && x != id; }
    forall x | Current(st', m.point, x) && OfDevice(st'.sessions[x].value, user, device) && x != id
      ensures Overlooked(st, m, user, device, x)
    {
      assert Current(st, m.point, x);
    }
  }

  lemma CreateKeepsOthers(
      st: Store, m: Creation, user: UserId, device: DeviceId, id: SessionId, issued: set<SessionId>, other: UserId)
    requires IndexesOk(st) && IssuedOk(st, issued) && id !in issued && other != user
    ensures SameFor(st, CreateSession(st, m, user, device, id), other)
  {
    var cleared := InvalidateDeviceSession(st, m.look, m.clear, user, device);
    assert SameFor(st, cleared, other) by {
      match Get(st.deviceSessions, (user, device), m.look)
      case None =>
      case Some(previous) => InvalidateKeepsOthers(st, m.clear, previous, other);
    }
    hide InvalidateDeviceSession;
  }

  /** There is never more than one current session for a user and device. */
  ghost predicate OnePerDevice(w: World) {
    forall a, b :: Current(w.store, w.now, a) && Current(w.store, w.now, b)
                   && w.store.sessions[a].value.userId == w.store.sessions[b].value.userId
                   && w.store.sessions[a].value.deviceId == w.store.sessions[b].value.deviceId
      ==> a == b
  }

  /** The step is a createSession that overlooks a session, and ends before the new one has expired. */
  ghost predicate OverlooksIn(w: World, t: Tick) {
    t.action.Create?
    && var m := CreationOf(w.now + t.ms, t.action);
    && m.point < m.clock + SESSION_TTL_MS
    && exists x :: Overlooked(w.store, m, t.action.user, t.action.device, x)
  }

  ghost predicate NeverOverlooks(ticks: seq<Tick>) {
    forall k :: 0 <= k < |ticks| ==> !OverlooksIn(Run(START, ticks[..k]), ticks[k])
  }

  ghost predicate AlwaysOnePerDevice(ticks: seq<Tick>) {
    forall k :: 0 <= k <= |ticks| ==> OnePerDevice(Run(START, ticks[..k]))
  }

  /** All through a run there is at most one such session exactly if no createSession of it overlooks one. */
  lemma OneSessionPerDeviceIff(ticks: seq<Tick>)
    requires FreshIds({}, ticks)
    ensures AlwaysOnePerDevice(ticks) <==> NeverOverlooks(ticks)
  {
    hide Run, OnePerDevice, InvW, Step, OverlooksIn;
    if NeverOverlooks(ticks) {
      forall k | 0 <= k <= |ticks| ensures OnePerDevice(Run(START, ticks[..k])) { OnePerDeviceUpTo(ticks, k); }
    }
    if AlwaysOnePerDevice(ticks) {
      forall k | 0 <= k < |ticks| ensures !OverlooksIn(Run(START, ticks[..k]), ticks[k]) {
        PrefixReached(ticks, k);
        StepKeepsOnePerDevice(Run(START, ticks[..k]), ticks[k]);
      }
    }
  }

  lemma NothingPerDevice()
    ensures OnePerDevice(START)
  {
  }

  lemma {:induction false} OnePerDeviceUpTo(ticks: seq<Tick>, k: nat)
    requires FreshIds({}, ticks) && NeverOverlooks(ticks) && k <= |ticks|
    ensures OnePerDevice(Run(START, ticks[..k]))
  {
    hide OnePerDevice, InvW, Step, OverlooksIn;
    if k == 0 {
      NothingPerDevice();
      assert ticks[..0] == [];
    } else {
      hide Run;
      OnePerDeviceUpTo(ticks, k - 1);
      PrefixReached(ticks, k - 1);
      StepKeepsOnePerDevice(Run(START, ticks[..k - 1]), ticks[k - 1]);
    }
  }

  lemma StepKeepsOnePerDevice(w: World, t: Tick)
    requires InvW(w) && OnePerDevice(w) && (t.action.Create? ==> t.action.id !in w.issued)
    ensures OnePerDevice(Step(w, t)) <==> !OverlooksIn(w, t)
  {
    if t.action.Create? {
      CreateKeepsOnePerDevice(w, t);
    } else {
      hide Inv, InvW, Step;
      OthersAddNone(w, t);
    }
  }

  lemma CreateKeepsOnePerDevice(w: World, t: Tick)
    requires InvW(w) && OnePerDevice(w) && t.action.Create? && t.action.id !in w.issued
    ensures OnePerDevice(Step(w, t)) <==> !OverlooksIn(w, t)
  {
    hide CreateSession, SessionsOk, CurrentAreListed, IndexesOk, IndexesExpire;
    var a, m := t.action, CreationOf(w.now + t.ms, t.action);
    var w' := Step(w, t);
    CreateClearsThePrevious(w.store, w.now, m, a.user, a.device, a.id, w.issued);
    forall x | Current(w'.store, w'.now, x) && x != a.id
      ensures Current(w.store, w.now, x) && Current(w.store, m.point, x)
    {
    }
    if x :| OverlooksIn(w, t) && Overlooked(w.store, m, a.user, a.device, x) {
      assert Current(w'.store, w'.now, x) && Current(w'.store, w'.now, a.id) && x != a.id;
    }
    if !OverlooksIn(w, t) {
      forall x | Current(w'.store, w'.now, x) && Current(w'.store, w'.now, a.id) && x != a.id
        ensures !OfDevice(w'.store.sessions[x].value, a.user, a.device)
      {
        assert !Overlooked(w.store, m, a.user, a.device, x);
      }
    }
  }

  /** The other operations only let sessions go, and change neither owner, device nor expiry of the rest. */
  lemma OthersAddNone(w: World, t: Tick)
    requires !t.action.Create?
    ensures
      forall x :: Current(Step(w, t).store, Step(w, t).now, x) ==>
        && Current(w.store, w.now, x)
        && SameOwner(Step(w, t).store.sessions[x].value, w.store.sessions[x].value)
  {
    hide InvalidateSession, TouchSession, InvalidateEach, Visit;
    var now, st := w.now + t.ms, w.store;
    match t.action
    case Touch(id, clock, put) => TouchAddsNone(st, MomentsFrom(now, clock, put), id);
    case Validate(id, _, clock, clear) => InvalidateAddsNone(st, CheckFrom(now, clock, clear).clear, id);
    case Refresh(id, device, clock, clear, _, _, _) =>
      var m := CheckFrom(now, clock, clear);
      InvalidateAddsNone(st, m.clear, id);
      var (st', session) := ValidateSession(st, m, id, device);
      if session.Some? { TouchAddsNone(st', SecondTouch(now, t.action), session.value.sessionId); }
    case Invalidate(id, lag) => InvalidateAddsNone(st, RemovalAfter(now, lag), id);
    case InvalidateAll(user, pace) => SurvivorsUnchanged(st, now, pace, UserList(st, now, user));
  }

  predicate SameOwner(s: Session, r: Session) {
    s.userId == r.userId && s.deviceId == r.deviceId && s.expiresAt == r.expiresAt
  }

  lemma TouchAddsNone(st: Store, m: Moments, id: SessionId)
    ensures
      forall x :: x in TouchSession(st, m, id).sessions ==>
        x in st.sessions && SameOwner(TouchSession(st, m, id).sessions[x].value, st.sessions[x].value)
  {
  }

  lemma InvalidateAddsNone(st: Store, m: Removal, id: SessionId)
    ensures
      forall x :: x in InvalidateSession(st, m, id).sessions ==>
        x in st.sessions && SameOwner(InvalidateSession(st, m, id).sessions[x].value, st.sessions[x].value)
  {
  }

  /** What is hooked is not overlooked, so only a run that unhooks ever has two sessions of one device. */
  lemma OneSessionPerDevice(ticks: seq<Tick>)
    requires FreshIds({}, ticks) && NeverUnhooks(ticks)
    ensures NeverOverlooks(ticks) && AlwaysOnePerDevice(ticks)
  {
    hide Run, NeverUnhooks, OverlooksIn, InvW, Hooked, Step;
    forall k | 0 <= k < |ticks| ensures !OverlooksIn(Run(START, ticks[..k]), ticks[k]) {
      HookedUpTo(ticks, k);
      PrefixReached(ticks, k);
      HookedIsSeen(Run(START, ticks[..k]), ticks[k]);
    }
    OneSessionPerDeviceIff(ticks);
  }

  lemma HookedIsSeen(w: World, t: Tick)
    requires InvW(w) && Hooked(w)
    ensures !OverlooksIn(w, t)
  {
    if t.action.Create? {
      var a, m := t.action, CreationOf(w.now + t.ms, t.action);
      forall x ensures !Overlooked(w.store, m, a.user, a.device, x) {
        if Current(w.store, w.now, x) { assert PointedTo(w.store, w.store.sessions[x].value); }
      }
    }
  }

  // --- Invalidating, validating and listing ---

  /**
    After invalidateAllUserSessions the user has no session left that has not expired, although the loop deletes from
    the list it was started on; other users keep theirs, and nothing of theirs has changed.
   */
  lemma InvalidateAllClearsUser(ticks: seq<Tick>, ms: nat, user: UserId, pace: seq<Lag>)
    requires FreshIds({}, ticks)
    ensures
      var before, after := Run(START, ticks), Step(Run(START, ticks), After(ms, InvalidateAll(user, pace)));
      && (forall id :: Current(after.store, after.now, id) <==>
            Current(before.store, after.now, id) && before.store.sessions[id].value.userId != user)
      && (forall id :: Current(after.store, after.now, id) ==> after.store.sessions[id].value.userId != user)
      && (forall other :: other != user ==> SameFor(before.store, after.store, other))
  {
    hide Run, InvalidateAllUserSessions, SessionsOk, CurrentAreListed, IssuedOk, IndexesExpire, EndOfAll;
    ReachableInv(ticks);
    var w := Run(START, ticks);
    var now := w.now + ms;
    InvalidateAllKeepsInv(w.store, w.now, now, pace, user, w.issued);
    var st' := InvalidateAllUserSessions(w.store, now, pace, user).0;
    forall other | other != user ensures SameFor(w.store, st', other) {
      InvalidateAllKeepsOthers(w.store, now, pace, user, other);
    }
  }

  /**
    In every run validation accepts exactly the readable sessions of the device whose expiry the clock has not passed.
   */
  lemma ValidationAcceptsUnexpired(ticks: seq<Tick>, m: Check, id: SessionId, device: DeviceId)
    requires FreshIds({}, ticks) && Run(START, ticks).now <= m.get && m.Ordered()
    ensures
      var st := Run(START, ticks).store;
      && (ValidateSession(st, m, id, device).1.Some? <==>
            && Live(st, m.get, id) && st.sessions[id].value.deviceId == device
            && m.clock <= st.sessions[id].value.expiresAt)
      && (ValidateSession(st, m, id, device).1.Some? ==> ValidateSession(st, m, id, device).0 == st)
      && (!FoundExpired(st, m, id, device) ==> ValidateSession(st, m, id, device).0 == st)
  {
    hide Run, InvalidateSession;
    ReachableInv(ticks);
  }

  /** The i-th read finds the session. */
  predicate ReadsIt(st: Store, get: nat, waits: seq<nat>, ids: seq<SessionId>, i: int, s: Session) {
    && 0 <= i < |ids| && ids[i] == s.sessionId
    && Live(st, ReadAt(get, waits, i), ids[i]) && st.sessions[ids[i]].value == s
  }

  ghost predicate IsRead(st: Store, get: nat, waits: seq<nat>, ids: seq<SessionId>, s: Session) {
    exists i :: ReadsIt(st, get, waits, ids, i, s)
  }

  /**
    getUserSessions, started at any time, lists every session of the user that has not expired when it ends, and only
    sessions of that user that were readable when it came to them, each once.
   */
  lemma UserSessionsAreListed(ticks: seq<Tick>, get: nat, waits: seq<nat>, user: UserId)
    requires FreshIds({}, ticks) && Run(START, ticks).now <= get
    ensures
      var st := Run(START, ticks).store;
      var ids := UserList(st, get, user);
      var listed := GetUserSessions(st, get, waits, ids);
      && (forall id :: Current(st, ReadAt(get, waits, |ids|), id) && st.sessions[id].value.userId == user ==>
            st.sessions[id].value in listed)
      && (forall s: Session :: s in listed ==> s.userId == user && IsRead(st, get, waits, ids, s))
      && (forall i, j :: 0 <= i < j < |listed| ==> listed[i].sessionId != listed[j].sessionId)
  {
    hide Run, ReadAt, GetUserSessions;
    ReachableInv(ticks);
    var w := Run(START, ticks);
    var ids := UserList(w.store, get, user);
    ClockMoves(w.store, w.now, get, w.issued);
    ListedSessions(w.store, get, waits, ids);
    forall id | Current(w.store, ReadAt(get, waits, |ids|), id) && w.store.sessions[id].value.userId == user
      ensures w.store.sessions[id].value in GetUserSessions(w.store, get, waits, ids)
    {
      CurrentIsLive(w.store, get, id, w.issued);
      var i :| 0 <= i < |ids| && ids[i] == id;
      ReadsGoForward(get, waits, i, |ids|);
      CurrentAtRead(w, get, waits, ids, i);
      assert IsRead(w.store, get, waits, ids, w.store.sessions[id].value);
    }
  }

  lemma CurrentAtRead(w: World, get: nat, waits: seq<nat>, ids: seq<SessionId>, i: nat)
    requires InvW(w) && w.now <= get && i < |ids| && Current(w.store, ReadAt(get, waits, i), ids[i])
    ensures ReadsIt(w.store, get, waits, ids, i, w.store.sessions[ids[i]].value)
  {
  }

  lemma {:induction false} ReadsGoForward(get: nat, waits: seq<nat>, i: nat, j: nat)
    requires i <= j
    ensures ReadAt(get, waits, i) <= ReadAt(get, waits, j)
    decreases j
  {
    if i < j { ReadsGoForward(get, waits, i, j - 1); }
  }

  lemma {:induction false} ListedSessions(st: Store, get: nat, waits: seq<nat>, ids: seq<SessionId>)
    requires SessionsOk(st.sessions, get) && Distinct(ids)
    ensures
      var listed := GetUserSessions(st, get, waits, ids);
      && (forall s: Session :: s in listed <==> IsRead(st, get, waits, ids, s))
      && (forall i, j :: 0 <= i < j < |listed| ==> listed[i].sessionId != listed[j].sessionId)
    decreases |ids|
  {
    hide IsRead;
    if ids == [] {
      forall s: Session ensures !IsRead(st, get, waits, ids, s) { NoneIsRead(st, get, waits, s); }
    } else {
      var n := |ids| - 1;
      ListedSessions(st, get, waits, ids[..n]);
      forall s: Session { OneMoreRead(st, get, waits, ids, n, s); }
    }
  }

  lemma NoneIsRead(st: Store, get: nat, waits: seq<nat>, s: Session)
    ensures !IsRead(st, get, waits, [], s)
  {
  }

  lemma OneMoreRead(st: Store, get: nat, waits: seq<nat>, ids: seq<SessionId>, n: nat, s: Session)
    requires |ids| == n + 1 && Distinct(ids)
    ensures IsRead(st, get, waits, ids, s)
       <==> IsRead(st, get, waits, ids[..n], s) || ReadsIt(st, get, waits, ids, n, s)
    ensures IsRead(st, get, waits, ids[..n], s) ==> s.sessionId != ids[n]
  {
    hide ReadAt;
    if i :| ReadsIt(st, get, waits, ids[..n], i, s) { assert ReadsIt(st, get, waits, ids, i, s); }
    if i :| ReadsIt(st, get, waits, ids, i, s) { assert i < n ==> ReadsIt(st, get, waits, ids[..n], i, s); }
  }

  // --- Keys that never expire ---

  ghost predicate Permanent(st: Store, id: SessionId) { id in st.sessions && st.sessions[id].expiry.None? }

  /** A touch that finds the session, and then reads the clock at or after the session's expiry. */
  predicate TouchesLate(st: Store, m: Moments, id: SessionId) {
    Get(st.sessions, id, m.get).Some? && st.sessions[id].value.expiresAt <= m.clock
  }

  /** The step contains such a touch. */
  predicate LateTouchIn(w: World, t: Tick) {
    var now := w.now + t.ms;
    match t.action
    case Touch(id, clock, put) => TouchesLate(w.store, MomentsFrom(now, clock, put), id)
    case Refresh(id, device, clock, clear, _, _, _) =>
      var (st', session) := ValidateSession(w.store, CheckFrom(now, clock, clear), id, device);
      session.Some? && TouchesLate(st', SecondTouch(now, t.action), session.value.sessionId)
    case _ => false
  }

  /** touchSession stores a session forever exactly when it reads the clock at or after the session's expiry. */
  lemma TouchIsForeverIff(st: Store, m: Moments, id: SessionId)
    requires Live(st, m.get, id)
    ensures Permanent(TouchSession(st, m, id), id) <==> TouchesLate(st, m, id)
    ensures forall x :: x != id ==> (Permanent(TouchSession(st, m, id), x) <==> Permanent(st, x))
  {
  }

  lemma InvalidateEachStoresNothing(st: Store, start: nat, pace: seq<Lag>, ids: seq<SessionId>)
    ensures forall x :: Permanent(InvalidateEach(st, start, pace, ids), x) ==> Permanent(st, x)
  {
    SurvivorsUnchanged(st, start, pace, ids);
  }

  /** A step stores a session forever exactly if it touches one late. */
  lemma StepStoresForeverIff(w: World, t: Tick)
    requires InvW(w)
    ensures LateTouchIn(w, t) ==> exists id :: Permanent(Step(w, t).store, id)
    ensures !LateTouchIn(w, t) ==> forall id :: Permanent(Step(w, t).store, id) ==> Permanent(w.store, id)
  {
    hide InvW, Inv, TouchSession, InvalidateEach;
    var now, st := w.now + t.ms, w.store;
    match t.action
    case Create(_, _, _, _, _, _, _, _, _) =>
    case Touch(id, clock, put) =>
      TouchStoresForeverIff(st, MomentsFrom(now, clock, put), id);
      assert LateTouchIn(w, t) ==> Permanent(Step(w, t).store, id);
    case Validate(_, _, _, _) =>
    case Refresh(id, device, clock, clear, _, _, _) =>
      var (st', session) := ValidateSession(st, CheckFrom(now, clock, clear), id, device);
      if session.Some? {
        TouchStoresForeverIff(st', SecondTouch(now, t.action), session.value.sessionId);
        assert LateTouchIn(w, t) ==> Permanent(Step(w, t).store, session.value.sessionId);
      }
    case Invalidate(_, _) =>
    case InvalidateAll(user, pace) => InvalidateEachStoresNothing(st, now, pace, UserList(st, now, user));
  }

  lemma TouchStoresForeverIff(st: Store, m: Moments, id: SessionId)
    ensures TouchesLate(st, m, id) ==> Permanent(TouchSession(st, m, id), id)
    ensures !TouchesLate(st, m, id) ==> forall x :: Permanent(TouchSession(st, m, id), x) ==> Permanent(st, x)
  {
    if Live(st, m.get, id) { TouchIsForeverIff(st, m, id); }
  }

  /**
    Over any run: some session key is ever stored without an expiry exactly if some touch found a session and then
    read the clock at or after that session's expiry. Index keys always expire.
   */
  lemma PermanentIff(ticks: seq<Tick>)
    requires FreshIds({}, ticks)
    ensures
      (exists k, id :: 0 <= k <= |ticks| && Permanent(Run(START, ticks[..k]).store, id))
      <==> (exists k :: 0 <= k < |ticks| && LateTouchIn(Run(START, ticks[..k]), ticks[k]))
    ensures IndexesExpire(Run(START, ticks).store)
  {
    hide Run, LateTouchIn, Permanent, Step;
    ReachableInv(ticks);
    if k :| 0 <= k < |ticks| && LateTouchIn(Run(START, ticks[..k]), ticks[k]) {
      PrefixReached(ticks, k);
      StepStoresForeverIff(Run(START, ticks[..k]), ticks[k]);
      var id :| Permanent(Run(START, ticks[..k + 1]).store, id);
    } else {
      forall k, id | 0 <= k <= |ticks| ensures !Permanent(Run(START, ticks[..k]).store, id) {
        NothingPermanent(ticks, k, id);
      }
    }
  }

  lemma {:induction false} NothingPermanent(ticks: seq<Tick>, k: nat, id: SessionId)
    requires FreshIds({}, ticks) && k <= |ticks|
    requires forall i :: 0 <= i < |ticks| ==> !LateTouchIn(Run(START, ticks[..i]), ticks[i])
    ensures !Permanent(Run(START, ticks[..k]).store, id)
  {
    if k == 0 {
      assert ticks[..0] == [];
    } else {
      hide Run, LateTouchIn, Permanent, Step;
      NothingPermanent(ticks, k - 1, id);
      PrefixReached(ticks, k - 1);
      StepStoresForeverIff(Run(START, ticks[..k - 1]), ticks[k - 1]);
    }
  }

  // --- When no time passes inside the operations ---

  /** Every operation runs within one millisecond. */
  predicate Prompt(a: Action) {
    match a
    case Create(_, _, _, look, clear, store, read, track, point) =>
      look == store == read == track == point == 0 && clear == AT_ONCE
    case Touch(_, clock, put) => clock == put == 0
    case Validate(_, _, clock, clear) => clock == 0 && clear == AT_ONCE
    case Refresh(_, _, clock, clear, touch, touchClock, touchPut) =>
      clock == touch == touchClock == touchPut == 0 && clear == AT_ONCE
    case Invalidate(_, lag) => lag == AT_ONCE
    case InvalidateAll(_, pace) => forall i :: 0 <= i < |pace| ==> pace[i] == AT_ONCE
  }

  /** Every key goes exactly when its session expires. */
  ghost predicate Exact(st: Store) {
    forall id :: id in st.sessions ==> st.sessions[id].expiry == Some(st.sessions[id].value.expiresAt)
  }

  lemma ExactTouch(st: Store, now: nat, id: SessionId)
    requires Exact(st)
    ensures Exact(TouchSession(st, MomentsFrom(now, 0, 0), id)) && !TouchesLate(st, MomentsFrom(now, 0, 0), id)
  {
  }

  lemma PromptStep(w: World, t: Tick)
    requires InvW(w) && Hooked(w) && Exact(w.store) && Prompt(t.action)
    ensures Exact(Step(w, t).store) && !UnhooksIn(w, t) && !LateTouchIn(w, t)
  {
    hide Inv, CurrentArePointedTo, TouchSession, InvalidateEach, TouchesLate, Unhooks;
    var now, st := w.now + t.ms, w.store;
    match t.action
    case Create(_, _, _, _, _, _, _, _, _) =>
    case Touch(id, _, _) => ExactTouch(st, now, id);
    case Validate(id, _, clock, clear) => NothingToUnhook(w, CheckFrom(now, clock, clear).clear, id);
    case Refresh(id, _, clock, clear, _, _, _) =>
      NothingToUnhook(w, CheckFrom(now, clock, clear).clear, id);
      ExactTouch(st, now, id);
      if id in st.sessions { SameIdTouch(w, id); }
    case Invalidate(id, lag) => NothingToUnhook(w, RemovalAfter(now, lag), id);
    case InvalidateAll(user, pace) => SurvivorsUnchanged(st, now, pace, UserList(st, now, user));
  }

  lemma SameIdTouch(w: World, id: SessionId)
    requires InvW(w) && id in w.store.sessions
    ensures w.store.sessions[id].value.sessionId == id
  {
  }

  /** Without delays only current sessions can be read, and those are hooked. */
  lemma NothingToUnhook(w: World, m: Removal, id: SessionId)
    requires InvW(w) && Hooked(w) && Exact(w.store) && w.now <= m.get
    ensures !Unhooks(w.store, m, id)
  {
    if Live(w.store, m.get, id) {
      assert Current(w.store, w.now, id);
      assert PointedTo(w.store, w.store.sessions[id].value);
    }
  }

  lemma {:induction false} PromptUpTo(ticks: seq<Tick>, k: nat)
    requires FreshIds({}, ticks) && k <= |ticks| && forall i :: 0 <= i < |ticks| ==> Prompt(ticks[i].action)
    ensures var w := Run(START, ticks[..k]); Exact(w.store) && Hooked(w)
  {
    if k == 0 {
      assert ticks[..0] == [];
    } else {
      hide Run, InvW, Hooked, Exact, Step, UnhooksIn, LateTouchIn, Prompt;
      PromptUpTo(ticks, k - 1);
      PrefixReached(ticks, k - 1);
      PromptStep(Run(START, ticks[..k - 1]), ticks[k - 1]);
      StepKeeps(Run(START, ticks[..k - 1]), ticks[k - 1]);
    }
  }

  /**
    In runs whose operations take no time the keys tell the whole truth: a session is readable exactly until it
    expires, no key is without an expiry, and while a session is readable both indexes have it and go no earlier.
   */
  lemma PromptRunsKeepTime(ticks: seq<Tick>)
    requires FreshIds({}, ticks) && forall i :: 0 <= i < |ticks| ==> Prompt(ticks[i].action)
    ensures
      var w := Run(START, ticks);
      && NeverUnhooks(ticks)
      && forall id :: id in w.store.sessions ==>
           var s := w.store.sessions[id].value;
           && w.store.sessions[id].expiry == Some(s.expiresAt)
           && (Live(w.store, w.now, id) ==> Listed(w.store, s) && PointedTo(w.store, s))
  {
    hide Run, NeverUnhooks, Prompt;
    forall k | 0 <= k <= |ticks| ensures Hooked(Run(START, ticks[..k])) { PromptUpTo(ticks, k); }
    CurrentSessionsAreHookedIff(ticks);
    PromptUpTo(ticks, |ticks|);
    assert ticks[..|ticks|] == ticks;
    ReachableInv(ticks);
    var w := Run(START, ticks);
    forall id | Live(w.store, w.now, id)
      ensures Listed(w.store, w.store.sessions[id].value) && PointedTo(w.store, w.store.sessions[id].value)
    {
      assert Current(w.store, w.now, id);
    }
  }

  // --- What the delays can do ---

  /** The two milliseconds around the expiry. */
  function Straddling(id: SessionId): seq<Tick> {
    [After(0, Create(1, 1, id, 0, AT_ONCE, 0, 0, 0, 0)), After(SESSION_TTL_MS - 1, Touch(id, 1, 0))]
  }

  /** What the store holds between them, and after them. */
  function Stored(id: SessionId, active: nat, expiry: Option<nat>): Store {
    Store(
      map[id := Entry(Session(id, 1, 1, active, SESSION_TTL_MS, true), expiry)],
      map[1 := Entry([id], Some(SESSION_TTL_MS))],
      map[(1, 1) := Entry(id, Some(SESSION_TTL_MS))])
  }

  lemma FirstIs(id: SessionId)
    ensures Step(START, Straddling(id)[0]) == World(Stored(id, 0, Some(SESSION_TTL_MS)), 0, {id})
  {
    hide CreateSession, Stored, CreationOf;
    assert CreationOf(0, Straddling(id)[0].action) == ALL_AT_ZERO by { FirstMoments(Straddling(id)[0].action); }
    FirstCreates(id, ALL_AT_ZERO);
    FirstIssued(id);
  }

  const ALL_AT_ZERO := Creation(0, 0, Removal(0, 0, 0), 0, 0, 0, 0)

  lemma FirstMoments(a: Action)
    requires a.Create? && a.look == a.store == a.read == a.track == a.point == 0 && a.clear == AT_ONCE
    ensures CreationOf(0, a) == ALL_AT_ZERO
  {
  }

  lemma FirstIssued(id: SessionId)
    ensures START.issued + {id} == {id}
  {
  }

  lemma FirstCreates(id: SessionId, m: Creation)
    requires m.clock == m.store == m.read == m.track == m.point == 0 && m.Ordered()
    ensures CreateSession(EMPTY, m, 1, 1, id) == Stored(id, 0, Some(SESSION_TTL_MS))
  {
    hide CreateSession, Stored, Added, CurrentArePointedTo, NoneCurrent;
    assert Inv(EMPTY, 0, {});
    assert InvalidateDeviceSession(EMPTY, m.look, m.clear, 1, 1) == EMPTY;
    hide Inv, InvalidateDeviceSession;
    CreateAdds(EMPTY, 0, m, 1, 1, id, {});
    FirstAdds(id, m);
  }

  lemma FirstAdds(id: SessionId, m: Creation)
    requires m.clock == m.store == m.read == m.track == m.point == 0
    ensures Added(EMPTY, m, 1, 1, id) == Stored(id, 0, Some(SESSION_TTL_MS))
  {
    assert [] + [id] == [id];
  }

  lemma ForeverIs(id: SessionId)
    ensures
      Step(Step(START, Straddling(id)[0]), Straddling(id)[1])
      == World(Stored(id, SESSION_TTL_MS, None), SESSION_TTL_MS, {id})
  {
    FirstIs(id);
    hide Step;
    LateTouchIs(id);
  }

  lemma LateTouchIs(id: SessionId)
    ensures
      Step(World(Stored(id, 0, Some(SESSION_TTL_MS)), 0, {id}), Straddling(id)[1])
      == World(Stored(id, SESSION_TTL_MS, None), SESSION_TTL_MS, {id})
  {
    var st := Stored(id, 0, Some(SESSION_TTL_MS));
    var m := MomentsFrom(SESSION_TTL_MS - 1, 1, 0);
    assert TouchSession(st, m, id).sessions == Stored(id, SESSION_TTL_MS, None).sessions;
  }

  /**
    Even when createSession takes no time, a touch that reads the session just before and the clock at its expiry
    stores it forever.
   */
  lemma StraddlingTouchIsPermanent(id: SessionId)
    ensures FreshIds({}, Straddling(id)) && Permanent(Run(START, Straddling(id)).store, id)
  {
    hide Step;
    var ticks := Straddling(id);
    ForeverIs(id);
    assert ticks[1..] == [ticks[1]] && [ticks[1]][1..] == [];
    assert FreshIds({} + {id}, [ticks[1]]);
    assert Run(Step(START, ticks[0]), [ticks[1]]) == Step(Step(START, ticks[0]), ticks[1]);
  }

  /** A new session of the same device, and then a validation of the one stored forever. */
  const UNHOOKING := Straddling(5)
    + [After(9, Create(1, 1, 6, 0, AT_ONCE, 0, 0, 0, 0)), After(9, Validate(5, 1, 0, AT_ONCE))]

  const FOREVER := Stored(5, SESSION_TTL_MS, None)

  /** The validation is done, and the session created before it has lost its device key. */
  ghost predicate CleanedUp(w: World) {
    && w.now == SESSION_TTL_MS + 18 && w.issued == {5, 6}
    && 6 in w.store.sessions
    && OfDevice(w.store.sessions[6].value, 1, 1) && w.store.sessions[6].value.expiresAt == 2 * SESSION_TTL_MS + 9
    && (1, 1) !in w.store.deviceSessions
  }

  ghost predicate Succeeded(w: World) {
    && w.now == SESSION_TTL_MS + 9 && w.issued == {5, 6}
    && 5 in w.store.sessions && w.store.sessions[5] == FOREVER.sessions[5]
    && 6 in w.store.sessions
    && OfDevice(w.store.sessions[6].value, 1, 1) && w.store.sessions[6].value.expiresAt == 2 * SESSION_TTL_MS + 9
  }

  lemma SuccessorIs()
    ensures Succeeded(Step(World(FOREVER, SESSION_TTL_MS, {5}), UNHOOKING[2]))
  {
    assert UNHOOKING[2] == After(9, Create(1, 1, 6, 0, AT_ONCE, 0, 0, 0, 0));
    assert {5} + {6} == {5, 6};
  }

  lemma CleanUpIs(w: World)
    requires Succeeded(w)
    ensures CleanedUp(Step(w, UNHOOKING[3]))
  {
    assert UNHOOKING[3] == After(9, Validate(5, 1, 0, AT_ONCE));
  }

  lemma UnhookingRun()
    ensures FreshIds({}, UNHOOKING) && CleanedUp(Run(START, UNHOOKING))
  {
    hide Run, Step, Succeeded, CleanedUp;
    var t := UNHOOKING;
    assert t[1..] == [t[1], t[2], t[3]] && [t[1], t[2], t[3]][1..] == [t[2], t[3]];
    assert [t[2], t[3]][1..] == [t[3]] && [t[3]][1..] == [];
    assert t == [t[0], t[1], t[2], t[3]];
    assert FreshIds({} + {5} + {6}, [t[3]]);
    assert FreshIds({} + {5}, [t[2], t[3]]);
    assert FreshIds({} + {5}, [t[1], t[2], t[3]]);
    RunFour(START, t[0], t[1], t[2], t[3]);
    ForeverIs(5);
    SuccessorIs();
    CleanUpIs(Step(World(FOREVER, SESSION_TTL_MS, {5}), t[2]));
  }

  /** Cleaning up a session stored forever deletes the device key of its successor, which then nothing replaces. */
  lemma UnhookedSession()
    ensures
      var w := Run(START, UNHOOKING);
      FreshIds({}, UNHOOKING) && Current(w.store, w.now, 6) && (1, 1) !in w.store.deviceSessions
  {
    hide Run;
    UnhookingRun();
  }

  /** The next session of this device. */
  const STRANDING := UNHOOKING + [After(9, Create(1, 1, 7, 0, AT_ONCE, 0, 0, 0, 0))]

  /** It does not find that successor, so that the device has two current sessions. */
  lemma StrandedSession()
    ensures FreshIds({}, STRANDING) && !AlwaysOnePerDevice(STRANDING)
  {
    hide Run, FreshIds, AlwaysOnePerDevice, OverlooksIn;
    UnhookingRun();
    var w, t := Run(START, UNHOOKING), STRANDING[4];
    FreshOneMore(START, UNHOOKING, t);
    assert STRANDING[..4] == UNHOOKING;
    OverlookedIs(w, t);
    OneSessionPerDeviceIff(STRANDING);
  }

  lemma OverlookedIs(w: World, t: Tick)
    requires CleanedUp(w) && t == STRANDING[4]
    ensures OverlooksIn(w, t)
  {
    var m := CreationOf(w.now + t.ms, t.action);
    assert m.point == w.now + 9;
    assert Overlooked(w.store, m, 1, 1, 6);
  }

  lemma {:induction false} FreshOneMore(w: World, ticks: seq<Tick>, t: Tick)
    requires FreshIds(w.issued, ticks) && (t.action.Create? ==> t.action.id !in Run(w, ticks).issued)
    ensures FreshIds(w.issued, ticks + [t])
    decreases |ticks|
  {
    hide Step;
    if ticks == [] {
      assert ([] + [t])[1..] == [];
    } else {
      assert (ticks + [t])[1..] == ticks[1..] + [t];
      IssuedGrows(w, ticks[0]);
      FreshOneMore(Step(w, ticks[0]), ticks[1..], t);
    }
  }

  lemma RunFour(w: World, a: Tick, b: Tick, c: Tick, d: Tick)
    ensures Run(w, [a, b, c, d]) == Step(Step(Step(Step(w, a), b), c), d)
  {
    hide Step;
    assert [a, b, c, d][1..] == [b, c, d] && [b, c, d][1..] == [c, d] && [c, d][1..] == [d] && [d][1..] == [];
    assert Run(Step(Step(Step(w, a), b), c), [d]) == Step(Step(Step(Step(w, a), b), c), d);
    assert Run(Step(Step(w, a), b), [c, d]) == Run(Step(Step(Step(w, a), b), c), [d]);
    assert Run(Step(w, a), [b, c, d]) == Run(Step(Step(w, a), b), [c, d]);
  }
}
