/** What each session operation writes and returns, and which operations a stored session comes from. */
module SessionCalls {
  import opened Counting
  import opened Options
  import opened Sessions
  import opened SessionInvariant
  import opened SessionTheorems

  /** Seven days. */
  const LIFETIME_MS := 604800000

  // --- The user's list ---

  /** Tracking adds an id to the end of the list once, and renews the list. */
  lemma TracksOnce(st: Store, read: nat, put: nat, user: UserId, id: SessionId)
    ensures
      var st', ids := TrackUserSession(st, read, put, user, id), UserList(st, read, user);
      if id in ids then st' == st
      else st' == st.(userSessions := st.userSessions[user := Entry(ids + [id], Some(put + LIFETIME_MS))])
  {
  }

  /** A list without one id: the others, in their order. */
  ghost predicate IsWithout(ids: seq<SessionId>, id: SessionId, r: seq<SessionId>) {
    if id in ids
    then exists i :: 0 <= i < |ids| && ids[i] == id && r == ids[..i] + ids[i + 1..]
    else r == ids
  }

  lemma {:induction false} WithoutNothing(ids: seq<SessionId>, id: SessionId)
    requires id !in ids
    ensures Without(ids, id) == ids
  {
    if ids != [] {
      WithoutNothing(ids[1..], id);
      assert ids == [ids[0]] + ids[1..];
    }
  }

  lemma {:induction false} WithoutOne(ids: seq<SessionId>, id: SessionId, i: nat)
    requires i < |ids| && ids[i] == id && id !in ids[..i] && id !in ids[i + 1..]
    ensures Without(ids, id) == ids[..i] + ids[i + 1..]
    decreases i
  {
    if i == 0 {
      WithoutNothing(ids[1..], id);
    } else {
      var rest := ids[1..];
      assert rest[..i - 1] == ids[1..i] && rest[i..] == ids[i + 1..];
      assert ids[0] in ids[..i];
      WithoutOne(rest, id, i - 1);
      assert ids[..i] == [ids[0]] + ids[1..i];
    }
  }

  lemma WithoutIs(ids: seq<SessionId>, id: SessionId)
    requires Distinct(ids)
    ensures IsWithout(ids, id, Without(ids, id))
  {
    hide Without;
    if id in ids {
      var i :| 0 <= i < |ids| && ids[i] == id;
      WithoutOne(ids, id, i);
    } else {
      WithoutNothing(ids, id);
    }
  }

  // --- One session ---

  /** Only this session, its place in its user's list and its device's key have gone. */
  ghost predicate Invalidated(st: Store, st': Store, m: Removal, id: SessionId)
    requires id in st.sessions
  {
    var s := st.sessions[id].value;
    && st'.sessions == st.sessions - {id}
    && s.userId in st'.userSessions
    && IsWithout(UserList(st, m.read, s.userId), id, st'.userSessions[s.userId].value)
    && st'.userSessions[s.userId].expiry == Some(m.put + LIFETIME_MS)
    && st'.userSessions == st.userSessions[s.userId := st'.userSessions[s.userId]]
    && st'.deviceSessions == st.deviceSessions - {(s.userId, s.deviceId)}
  }

  lemma InvalidatesExactly(st: Store, m: Removal, id: SessionId)
    requires IndexesOk(st)
    ensures
      var st' := InvalidateSession(st, m, id);
      if Live(st, m.get, id) then Invalidated(st, st', m, id) else st' == st
  {
    hide IsWithout, Without;
    if Live(st, m.get, id) {
      var ids := UserList(st, m.read, st.sessions[id].value.userId);
      assert UserList(st.(sessions := st.sessions - {id}), m.read, st.sessions[id].value.userId) == ids;
      WithoutIs(ids, id);
    }
  }

  /**
    In every run, at any later time: validation hands out the stored session if it is readable, for this device and not
    past its expiry; if it is past it, exactly this session is cleaned up; and else nothing happens.
   */
  lemma ValidatesExactly(ticks: seq<Tick>, m: Check, id: SessionId, device: DeviceId)
    requires FreshIds({}, ticks) && Run(START, ticks).now <= m.get && m.Ordered()
    ensures
      var st := Run(START, ticks).store;
      var (st', session) := ValidateSession(st, m, id, device);
      if !Live(st, m.get, id) || st.sessions[id].value.deviceId != device then st' == st && session == None
      else if m.clock <= st.sessions[id].value.expiresAt then st' == st && session == Some(st.sessions[id].value)
      else if Live(st, m.clear.get, id) then Invalidated(st, st', m.clear, id) && session == None
      else st' == st && session == None
  {
    hide Run, Invalidated, InvalidateSession;
    ReachableInv(ticks);
    InvalidatesExactly(Run(START, ticks).store, m.clear, id);
  }

  /** A touch stamps a readable session with the clock, and lets its key go when the session expires, if ever. */
  lemma TouchesExactly(st: Store, m: Moments, id: SessionId)
    ensures
      var st' := TouchSession(st, m, id);
      if Live(st, m.get, id)
      then
        var s := st.sessions[id].value;
        var expiry := if m.clock < s.expiresAt then Some(m.put + (s.expiresAt - m.clock)) else None;
        st' == st.(sessions := st.sessions[id := Entry(s.(lastActive := m.clock), expiry)])
      else st' == st
  {
  }

  /** The session createSession writes, and its three keys. */
  ghost predicate Created(
      st: Store, cleared: Store, st': Store, m: Creation, user: UserId, device: DeviceId, id: SessionId)
  {
    var session := Session(id, user, device, m.clock, m.clock + LIFETIME_MS, true);
    && st'.sessions == cleared.sessions[id := Entry(session, Some(m.store + LIFETIME_MS))]
    && st'.userSessions
       == cleared.userSessions[user := Entry(UserList(cleared, m.read, user) + [id], Some(m.track + LIFETIME_MS))]
    && st'.deviceSessions == cleared.deviceSessions[(user, device) := Entry(id, Some(m.point + LIFETIME_MS))]
  }

  /**
    In every run createSession first invalidates the session that the device's key returns, if any, and then writes the
    session, its place at the end of its user's list, and the device's key, each for seven days from its own moment.
   */
  lemma CreatesExactly(ticks: seq<Tick>, m: Creation, user: UserId, device: DeviceId, id: SessionId)
    requires FreshIds({}, ticks) && Run(START, ticks).now <= m.clock && m.Ordered()
    requires id !in Run(START, ticks).issued
    ensures
      var st := Run(START, ticks).store;
      var previous := Get(st.deviceSessions, (user, device), m.look);
      var cleared := if previous.Some? then InvalidateSession(st, m.clear, previous.value) else st;
      && (previous.Some? && Live(st, m.clear.get, previous.value) ==>
            Invalidated(st, cleared, m.clear, previous.value))
      && Created(st, cleared, CreateSession(st, m, user, device, id), m, user, device, id)
  {
    hide Run, Invalidated, InvalidateSession, CreateSession, SessionsOk, CurrentAreListed, IssuedOk, IndexesExpire;
    hide CurrentArePointedTo, NoneCurrent;
    ReachableInv(ticks);
    var w := Run(START, ticks);
    CreateAdds(w.store, w.now, m, user, device, id, w.issued);
    var previous := Get(w.store.deviceSessions, (user, device), m.look);
    if previous.Some? { InvalidatesExactly(w.store, m.clear, previous.value); }
  }

  // --- All sessions of a user ---

  /** The number reported is the length of the list, and the list itself goes. */
  lemma InvalidateAllReports(st: Store, start: nat, pace: seq<Lag>, user: UserId)
    ensures
      var (st', count) := InvalidateAllUserSessions(st, start, pace, user);
      && count == |UserList(st, start, user)|
      && (count > 0 ==> user !in st'.userSessions)
      && (count == 0 ==> st' == st)
  {
    hide InvalidateEach;
  }

  /** The sessions come in the order of the list. */
  lemma {:induction false} ListedInOrder(st: Store, start: nat, waits: seq<nat>, ids: seq<SessionId>, i: nat, j: nat)
    requires SessionsOk(st.sessions, start)
    requires i < j < |GetUserSessions(st, start, waits, ids)|
    ensures
      var listed := GetUserSessions(st, start, waits, ids);
      exists p, q :: 0 <= p < q < |ids| && ids[p] == listed[i].sessionId && ids[q] == listed[j].sessionId
    decreases |ids|
  {
    hide ReadAt;
    var n := |ids| - 1;
    var before, listed := GetUserSessions(st, start, waits, ids[..n]), GetUserSessions(st, start, waits, ids);
    if j < |before| {
      ListedInOrder(st, start, waits, ids[..n], i, j);
      var p, q :| 0 <= p < q < n && ids[..n][p] == listed[i].sessionId && ids[..n][q] == listed[j].sessionId;
      assert ids[p] == listed[i].sessionId && ids[q] == listed[j].sessionId;
    } else {
      ListedFrom(st, start, waits, ids[..n], i);
      var p :| 0 <= p < n && ids[..n][p] == before[i].sessionId;
      assert ids[p] == listed[i].sessionId && ids[n] == listed[j].sessionId;
    }
  }

  lemma {:induction false} ListedFrom(st: Store, start: nat, waits: seq<nat>, ids: seq<SessionId>, i: nat)
    requires SessionsOk(st.sessions, start) && i < |GetUserSessions(st, start, waits, ids)|
    ensures exists p :: 0 <= p < |ids| && ids[p] == GetUserSessions(st, start, waits, ids)[i].sessionId
    decreases |ids|
  {
    hide ReadAt;
    var n := |ids| - 1;
    if i < |GetUserSessions(st, start, waits, ids[..n])| {
      ListedFrom(st, start, waits, ids[..n], i);
      var p :| 0 <= p < n && ids[..n][p] == GetUserSessions(st, start, waits, ids[..n])[i].sessionId;
      assert ids[p] == ids[..n][p];
    } else {
      assert ids[n] == GetUserSessions(st, start, waits, ids)[i].sessionId;
    }
  }

  // --- Where a stored session comes from ---

  /** The step creates this session. */
  ghost predicate CreatesIt(w: World, t: Tick, s: Session) {
    && t.action.Create? && t.action.id == s.sessionId && t.action.user == s.userId && t.action.device == s.deviceId
    && s.expiresAt == w.now + t.ms + LIFETIME_MS
  }

  /** The step reads this time off the clock to stamp the session with. */
  ghost predicate StampsIt(w: World, t: Tick, id: SessionId, at: nat) {
    var now := w.now + t.ms;
    match t.action
    case Create(_, _, x, _, _, _, _, _, _) => x == id && at == now
    case Touch(x, clock, _) => x == id && at == now + clock
    case Refresh(x, _, _, _, _, _, _) => x == id && at == SecondTouch(now, t.action).clock
    case _ => false
  }

  /** A session of this store is as it was, apart from its stamp, or new. */
  ghost predicate SessionsOfStep(w: World, t: Tick, st: Store) {
    forall id :: id in st.sessions ==>
      var s := st.sessions[id].value;
      if id in w.store.sessions
      then
        var before := w.store.sessions[id].value;
        s == before.(lastActive := s.lastActive)
        && (s.lastActive == before.lastActive || StampsIt(w, t, id, s.lastActive))
      else s.sessionId == id && CreatesIt(w, t, s) && StampsIt(w, t, id, s.lastActive)
  }

  /** Nothing but deletions. */
  predicate OnlyDeletes(st: Store, st': Store) {
    forall id :: id in st'.sessions ==> id in st.sessions && st'.sessions[id] == st.sessions[id]
  }

  lemma InvalidateOnlyDeletes(st: Store, m: Removal, id: SessionId)
    ensures OnlyDeletes(st, InvalidateSession(st, m, id))
  {
  }

  lemma StepSessions(w: World, t: Tick)
    requires InvW(w) && (t.action.Create? ==> t.action.id !in w.issued)
    ensures SessionsOfStep(w, t, Step(w, t).store)
  {
    hide InvW, Inv, InvalidateSession, InvalidateEach, CreateSession, TouchSession, SecondTouch, Visit;
    var now, st := w.now + t.ms, w.store;
    match t.action
    case Create(_, _, _, _, _, _, _, _, _) => CreatedSessions(w, t);
    case Touch(id, clock, put) => TouchesExactly(st, MomentsFrom(now, clock, put), id);
    case Validate(id, device, clock, clear) => InvalidateOnlyDeletes(st, CheckFrom(now, clock, clear).clear, id);
    case Refresh(id, device, clock, clear, _, _, _) =>
      InvalidateOnlyDeletes(st, CheckFrom(now, clock, clear).clear, id);
      TouchesExactly(st, SecondTouch(now, t.action), id);
      if id in st.sessions { SameIdTouch(w, id); }
    case Invalidate(id, lag) => InvalidateOnlyDeletes(st, RemovalAfter(now, lag), id);
    case InvalidateAll(user, pace) => SurvivorsUnchanged(st, now, pace, UserList(st, now, user));
  }

  lemma CreatedSessions(w: World, t: Tick)
    requires InvW(w) && t.action.Create? && t.action.id !in w.issued
    ensures SessionsOfStep(w, t, Step(w, t).store)
  {
    hide CreateSession, CurrentAreListed, IndexesOk, IndexesExpire, SessionsOk;
    var a, m := t.action, CreationOf(w.now + t.ms, t.action);
    CreateClearsThePrevious(w.store, w.now, m, a.user, a.device, a.id, w.issued);
  }

  /** Some earlier step of the run. */
  ghost predicate Origin(ticks: seq<Tick>, s: Session) {
    && (exists k :: 0 <= k < |ticks| && CreatesIt(Run(START, ticks[..k]), ticks[k], s))
    && (exists k :: 0 <= k < |ticks| && StampsIt(Run(START, ticks[..k]), ticks[k], s.sessionId, s.lastActive))
  }

  /**
    Over any run: a stored session was created by a createSession for its user and device, exactly seven days before its
    expiry, and was last stamped by that or by a touch of it.
   */
  lemma {:induction false} SessionsComeFromCreate(ticks: seq<Tick>, id: SessionId)
    requires FreshIds({}, ticks) && id in Run(START, ticks).store.sessions
    ensures Run(START, ticks).store.sessions[id].value.sessionId == id
    ensures Origin(ticks, Run(START, ticks).store.sessions[id].value)
    decreases |ticks|
  {
    hide InvW, Step, CreatesIt, StampsIt;
    var n := |ticks| - 1;
    if n >= 0 {
      hide Run;
      var front := ticks[..n];
      assert ticks[..n + 1] == ticks;
      PrefixReached(ticks, n);
      PrefixIsFresh(START, ticks, n);
      StepSessions(Run(START, front), ticks[n]);
      assert forall k :: 0 <= k <= n ==> front[..k] == ticks[..k];
      var s := Run(START, ticks).store.sessions[id].value;
      if id in Run(START, front).store.sessions {
        SessionsComeFromCreate(front, id);
        EarlierOrigin(ticks, front, n, Run(START, front).store.sessions[id].value, s);
      } else {
        assert CreatesIt(Run(START, ticks[..n]), ticks[n], s);
        assert StampsIt(Run(START, ticks[..n]), ticks[n], id, s.lastActive);
      }
    }
  }

  lemma EarlierOrigin(ticks: seq<Tick>, front: seq<Tick>, n: nat, before: Session, s: Session)
    requires |ticks| == n + 1 && front == ticks[..n] && Origin(front, before)
    requires s == before.(lastActive := s.lastActive)
    requires s.lastActive == before.lastActive
          || StampsIt(Run(START, ticks[..n]), ticks[n], s.sessionId, s.lastActive)
    ensures Origin(ticks, s)
  {
    hide Run, StampsIt;
    assert forall k :: 0 <= k <= n ==> front[..k] == ticks[..k];
    var k :| 0 <= k < n && CreatesIt(Run(START, front[..k]), front[k], before);
    assert CreatesIt(Run(START, ticks[..k]), ticks[k], s);
    if s.lastActive == before.lastActive {
      var i :| 0 <= i < n && StampsIt(Run(START, front[..i]), front[i], before.sessionId, before.lastActive);
      assert StampsIt(Run(START, ticks[..i]), ticks[i], s.sessionId, s.lastActive);
    }
  }
}
